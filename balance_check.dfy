/** The amount precondition that runs before every account update: three
    guards in a fixed order, the first failing one deciding the reason. */
module BalanceCheck {

  /** The request's `balance` field: a value `isNaN` reports as not a number,
      or a finite number. */
  datatype RawAmount = NotANumber | Number(value: real)

  /** Which guard rejected the amount. */
  datatype AmountError = InvalidNumber | NotPositive | NotWhole

  datatype Verdict = Accepted(amount: int) | Rejected(error: AmountError)

  predicate IsWhole(x: real)
  {
    x == x.Floor as real
  }

  /** `validateBalance`: `next()` is reached exactly by the positive whole
      numbers, and then the handler sees that number as an integer. */
  function ValidateBalance(raw: RawAmount): (r: Verdict)
    ensures raw.NotANumber? ==> r == Rejected(InvalidNumber)
    ensures raw.Number? && raw.value <= 0.0 ==> r == Rejected(NotPositive)
    ensures raw.Number? && raw.value > 0.0 && !IsWhole(raw.value) ==> r == Rejected(NotWhole)
    ensures r.Accepted? <==> raw.Number? && raw.value > 0.0 && IsWhole(raw.value)
    ensures r.Accepted? ==> r.amount > 0 && r.amount as real == raw.value
  {
    if raw.NotANumber? then Rejected(InvalidNumber)
    else if raw.value <= 0.0 then Rejected(NotPositive)
    else if !IsWhole(raw.value) then Rejected(NotWhole)
    else Accepted(raw.value.Floor)
  }

  /** On whole numbers the check is exactly "greater than 0", and an accepted
      integer reaches the handler unchanged. */
  lemma IntegerRoundTrip(n: int)
    ensures ValidateBalance(Number(n as real)) == if n > 0 then Accepted(n) else Rejected(NotPositive)
  {
  }
}
