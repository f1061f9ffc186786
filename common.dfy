/** The error path of the ledger and the failure-compatible wrappers it is reported through. */
module Common {

  /** The errors the engine raises: lookups of absent trade ids and configuration or alignment errors. */
  datatype Error =
    | LookupError           // get_trade on an id the container does not hold
    | EmptyInput            // concat of no containers
    | ShapeMismatch         // explicit ids that do not line up with the series they label
    | SymbolMismatch        // a Trades container paired with another symbol's market
    | TradeOutsideMarket    // a trade timestamp that the market series does not cover
    | MissingMarket         // no market series for a traded symbol
    | MissingPrincipal      // no principal configured for a traded symbol
    | MissingLotSize        // no lot size configured for a traded symbol
    | MissingCrossRate      // no market giving the exchange rate into the base currency
    | ZeroCrossRate         // an exchange rate of zero, which cannot convert anything

  datatype Option<+T> = None | Some(value: T)

  datatype Result<+T> = Ok(value: T) | Err(error: Error) {
    predicate IsFailure() { Err? }

    function PropagateFailure<U>(): Result<U>
      requires Err?
    {
      Err(error)
    }

    function Extract(): T
      requires Ok?
    {
      value
    }
  }

  /** A quotient times its divisor gives back the dividend. */
  lemma DivMul(t: real, c: real)
    requires c != 0.0
    ensures (t / c) * c == t
  {
  }

  /** Dividing by a rate is multiplying by its reciprocal: p * r == m and r * s == 1 give p == m * s. */
  lemma Reciprocal(p: real, m: real, r: real, s: real)
    requires p * r == m && r * s == 1.0
    ensures p == m * s
  {
    calc {
      m * s;
      (p * r) * s;
      p * (r * s);
      p;
    }
  }
}
