/** The transaction route runs `validateBalance` before `updateAccount`; and
    what any sequence of registrations and account updates does to the store. */
module Routes {
  import opened Accounts
  import opened Totals
  import opened BalanceCheck
  import opened Transactions
  import Auth

  datatype PutResponse = InvalidAmount(error: AmountError) | Handled(response: Response)

  datatype PutStep = PutStep(response: PutResponse, store: Store)

  /** `PUT /transactions` for an authenticated account: an amount that is
      not a positive whole number is refused and nothing is touched;
      otherwise the update handler sees that number as an integer. */
  function HandlePut(s: Store, actorId: string, action: string, raw: RawAmount, target: string, date: Timestamp): (r: PutStep)
    requires actorId in s
    ensures r.response.InvalidAmount? <==> ValidateBalance(raw).Rejected?
    ensures r.response.InvalidAmount? ==> r == PutStep(InvalidAmount(ValidateBalance(raw).error), s)
    ensures r.response.Handled? ==>
      && raw.Number? && raw.value > 0.0 && IsWhole(raw.value)
      && Step(r.response.response, r.store) == Apply(s, actorId, action, raw.value.Floor, target, date)
  {
    match ValidateBalance(raw)
    case Rejected(e) => PutStep(InvalidAmount(e), s)
    case Accepted(amount) =>
      var step := Apply(s, actorId, action, amount, target, date);
      PutStep(Handled(step.response), step.store)
  }

  /** `router.put(protect, validateBalance, updateAccount)`: the handler runs
      only when the amount check called `next()`. */
  method PutTransaction(store: AccountStore, actorId: string, action: string, raw: RawAmount, target: string, date: Timestamp)
    returns (r: PutResponse)
    requires store.Valid() && actorId in store.accounts
    modifies store
    ensures store.Valid()
    ensures PutStep(r, store.accounts) == HandlePut(old(store.accounts), actorId, action, raw, target, date)
  {
    var verdict := ValidateBalance(raw);
    if verdict.Rejected? {
      return InvalidAmount(verdict.error);
    }
    var response := UpdateAccount(store, actorId, action, verdict.amount, target, date);
    r := Handled(response);
  }

  /** The requests that change the store. A request from an account that is
      not stored is refused by authentication before any handler runs. */
  datatype Request =
    | RegisterRequest(name: string, accountId: string, password: string, id: string, now: Timestamp)
    | PutRequest(actorId: string, action: string, raw: RawAmount, target: string, date: Timestamp)

  function Next(s: Store, q: Request): Store
  {
    match q
    case RegisterRequest(name, accountId, password, id, now) =>
      Auth.Register(s, name, accountId, password, id, now).store
    case PutRequest(actorId, action, raw, target, date) =>
      if actorId in s then HandlePut(s, actorId, action, raw, target, date).store else s
  }

  /** The money a request brings into the store (negative when it leaves). */
  function Inflow(s: Store, q: Request): int
  {
    match q
    case RegisterRequest(_, _, _, _, _) => 0
    case PutRequest(actorId, action, raw, target, date) =>
      if actorId !in s then 0
      else
        var r := HandlePut(s, actorId, action, raw, target, date);
        if r.response.InvalidAmount? || r.response.response.Rejected? then 0
        else if action == "deposit" then raw.value.Floor
        else if action == "withdraw" || action == "billpayment" then -raw.value.Floor
        else 0
  }

  /** The requests applied one after another. */
  function Run(s: Store, qs: seq<Request>): Store
    decreases |qs|
  {
    if qs == [] then s else Run(Next(s, qs[0]), qs[1..])
  }

  /** The sum of the inflows of the requests, each in the store it meets. */
  function Flow(s: Store, qs: seq<Request>): int
    decreases |qs|
  {
    if qs == [] then 0 else Inflow(s, qs[0]) + Flow(Next(s, qs[0]), qs[1..])
  }

  lemma NextKeepsInvariants(s: Store, q: Request)
    requires StoreValid(s)
    ensures StoreValid(Next(s, q)) && Grows(s, Next(s, q))
  {
  }

  /** From a valid store, every sequence of requests leaves every balance
      non-negative, every log ending in the current balance and every
      identity field unchanged; accounts are never removed and logs only grow
      at their end. */
  lemma {:induction false} RunKeepsInvariants(s: Store, qs: seq<Request>)
    requires StoreValid(s)
    ensures StoreValid(Run(s, qs)) && Grows(s, Run(s, qs))
    decreases |qs|
  {
    if qs != [] {
      var t := Next(s, qs[0]);
      NextKeepsInvariants(s, qs[0]);
      RunKeepsInvariants(t, qs[1..]);
      GrowsTransitive(s, t, Run(t, qs[1..]));
    }
  }

  lemma NextTotal(s: Store, q: Request)
    ensures Total(Next(s, q)) == Total(s) + Inflow(s, q)
  {
    match q
    case RegisterRequest(name, accountId, password, id, now) =>
      Auth.RegisterKeepsTotal(s, name, accountId, password, id, now);
    case PutRequest(actorId, action, raw, target, date) =>
      if actorId in s && ValidateBalance(raw).Accepted? {
        ApplyChangesTotal(s, actorId, action, raw.value.Floor, target, date);
      }
  }

  /** Money enters the store only by deposits and leaves it only by
      withdrawals and bill payments: registrations, transfers and refused
      requests never create or destroy any. */
  lemma {:induction false} RunTotal(s: Store, qs: seq<Request>)
    ensures Total(Run(s, qs)) == Total(s) + Flow(s, qs)
    decreases |qs|
  {
    if qs != [] {
      NextTotal(s, qs[0]);
      RunTotal(Next(s, qs[0]), qs[1..]);
    }
  }
}
