/** The account update handler (deposit, withdraw, transfer, bill payment)
    and the two read views of an account. */
module Transactions {
  import opened Accounts
  import opened Totals

  /** Why a business rule refused the action. */
  datatype Rejection = InsufficientFunds | RecipientNotFound | SelfTransfer

  /** `Done(user)` is the success reply, carrying the acting account as the
      handler leaves it; `Rejected` is a 400 reply. */
  datatype Response = Done(user: Account) | Rejected(reason: Rejection)

  /** The reply together with the store the request leaves behind. */
  datatype Step = Step(response: Response, store: Store)

  /** Accounts outside `touched` are exactly as they were. */
  predicate OnlyChanged(s: Store, t: Store, touched: set<string>)
  {
    t.Keys == s.Keys && forall k :: k in s && k !in touched ==> t[k] == s[k]
  }

  /** Account `b` is `a` untouched, or `a` with exactly one entry pushed
      onto its log, an entry that records `b`'s balance. */
  predicate AtMostOneEntry(a: Account, b: Account)
  {
    || b == a
    || (&& SameIdentity(a, b)
        && |b.transactions| == |a.transactions| + 1
        && b.transactions[..|a.transactions|] == a.transactions
        && LogConsistent(b))
  }

  /** What every branch does to the store as a whole. */
  predicate StepShape(s: Store, t: Store)
  {
    && t.Keys == s.Keys
    && (forall k :: k in s ==> AtMostOneEntry(s[k], t[k]))
    && (StoreValid(s) ==> StoreValid(t))
  }

  /** `a.balance += delta; a.transactions.push({ title, target, amount, balance, date })`. */
  function Post(a: Account, title: string, target: string, amount: int, delta: int, date: Timestamp): (r: Account)
    ensures r.balance == a.balance + delta
    ensures Appended(a, r, Entry(title, target, amount, a.balance + delta, date))
    ensures AtMostOneEntry(a, r) && r != a
    ensures WellFormed(a) && r.balance >= 0 && amount > 0 ==> WellFormed(r)
  {
    var balance := a.balance + delta;
    a.(balance := balance, transactions := a.transactions + [Entry(title, target, amount, balance, date)])
  }

  /** The deposit branch: no rule to check. */
  function Deposit(s: Store, actorId: string, amount: int, date: Timestamp): (r: Step)
    requires actorId in s && amount > 0
    ensures OnlyChanged(s, r.store, {actorId})
    ensures r.response.Done? && r.response.user == r.store[actorId]
    ensures Appended(s[actorId], r.store[actorId], Entry("deposit", "", amount, s[actorId].balance + amount, date))
    ensures StepShape(s, r.store)
  {
    var user := Post(s[actorId], "deposit", "", amount, amount, date);
    Step(Done(user), s[actorId := user])
  }

  /** The withdraw branch: refused when the amount exceeds the balance. */
  function Withdraw(s: Store, actorId: string, amount: int, date: Timestamp): (r: Step)
    requires actorId in s && amount > 0
    ensures r.response.Rejected? <==> s[actorId].balance < amount
    ensures r.response.Rejected? ==> r == Step(Rejected(InsufficientFunds), s)
    ensures r.response.Done? ==>
      && OnlyChanged(s, r.store, {actorId})
      && r.response.user == r.store[actorId]
      && Appended(s[actorId], r.store[actorId], Entry("withdraw", "", amount, s[actorId].balance - amount, date))
      && r.store[actorId].balance >= 0
    ensures StepShape(s, r.store)
  {
    if s[actorId].balance < amount then Step(Rejected(InsufficientFunds), s)
    else
      var user := Post(s[actorId], "withdraw", "", amount, -amount, date);
      Step(Done(user), s[actorId := user])
  }

  /** The transfer branch: funds, then the recipient's existence, then
      self-transfer are checked, all before anything is written; then the
      sender is debited and the recipient credited, each with an entry naming
      the other. */
  function Transfer(s: Store, actorId: string, amount: int, target: string, date: Timestamp): (r: Step)
    requires actorId in s && amount > 0
    ensures s[actorId].balance < amount ==> r == Step(Rejected(InsufficientFunds), s)
    ensures s[actorId].balance >= amount && target !in s ==> r == Step(Rejected(RecipientNotFound), s)
    ensures s[actorId].balance >= amount && target == actorId ==> r == Step(Rejected(SelfTransfer), s)
    ensures r.response.Done? <==> s[actorId].balance >= amount && target in s && target != actorId
    ensures r.response.Done? ==>
      && OnlyChanged(s, r.store, {actorId, target})
      && r.response.user == r.store[actorId]
      && Appended(s[actorId], r.store[actorId],
                  Entry("transfer to", s[target].accountId, amount, s[actorId].balance - amount, date))
      && Appended(s[target], r.store[target],
                  Entry("transfer from", s[actorId].accountId, amount, s[target].balance + amount, date))
      && r.store[actorId].balance + r.store[target].balance == s[actorId].balance + s[target].balance
    ensures StepShape(s, r.store)
  {
    if s[actorId].balance < amount then Step(Rejected(InsufficientFunds), s)
    else if target !in s then Step(Rejected(RecipientNotFound), s)
    else if target == actorId then Step(Rejected(SelfTransfer), s)
    else
      var user := Post(s[actorId], "transfer to", s[target].accountId, amount, -amount, date);
      var s1 := s[actorId := user];
      var recipient := Post(s[target], "transfer from", user.accountId, amount, amount, date);
      Step(Done(user), s1[target := recipient])
  }

  /** The bill payment branch: refused when the amount exceeds the balance;
      the biller is free text and is not looked up. */
  function PayBill(s: Store, actorId: string, amount: int, target: string, date: Timestamp): (r: Step)
    requires actorId in s && amount > 0
    ensures r.response.Rejected? <==> s[actorId].balance < amount
    ensures r.response.Rejected? ==> r == Step(Rejected(InsufficientFunds), s)
    ensures r.response.Done? ==>
      && OnlyChanged(s, r.store, {actorId})
      && r.response.user == r.store[actorId]
      && Appended(s[actorId], r.store[actorId], Entry("billpayment", target, amount, s[actorId].balance - amount, date))
      && r.store[actorId].balance >= 0
    ensures StepShape(s, r.store)
  {
    if s[actorId].balance < amount then Step(Rejected(InsufficientFunds), s)
    else
      var user := Post(s[actorId], "billpayment", target, amount, -amount, date);
      Step(Done(user), s[actorId := user])
  }

  /** The four action names the handler recognises. */
  predicate IsAction(action: string)
  {
    action == "deposit" || action == "withdraw" || action == "transfer" || action == "billpayment"
  }

  /** `updateAccount` as a function of the store: dispatch on the action; any
      other action string changes nothing and still gets the success reply. */
  function Apply(s: Store, actorId: string, action: string, amount: int, target: string, date: Timestamp): (r: Step)
    requires actorId in s && amount > 0
    ensures r.store.Keys == s.Keys
    ensures !IsAction(action) ==> r == Step(Done(s[actorId]), s)
    ensures r.response.Rejected? ==> r.store == s
    ensures r.response.Done? ==> r.response.user == r.store[actorId]
    ensures StepShape(s, r.store)
  {
    if action == "deposit" then Deposit(s, actorId, amount, date)
    else if action == "withdraw" then Withdraw(s, actorId, amount, date)
    else if action == "transfer" then Transfer(s, actorId, amount, target, date)
    else if action == "billpayment" then PayBill(s, actorId, amount, target, date)
    else Step(Done(s[actorId]), s)
  }

  /** A deposit adds its amount to the money held by all accounts. */
  lemma DepositTotal(s: Store, actorId: string, amount: int, date: Timestamp)
    requires actorId in s && amount > 0
    ensures Total(Deposit(s, actorId, amount, date).store) == Total(s) + amount
  {
    TotalUpdate(s, actorId, Deposit(s, actorId, amount, date).store[actorId]);
  }

  /** A withdrawal removes its amount from the money held by all accounts,
      unless it is refused. */
  lemma WithdrawTotal(s: Store, actorId: string, amount: int, date: Timestamp)
    requires actorId in s && amount > 0
    ensures var r := Withdraw(s, actorId, amount, date);
      Total(r.store) == Total(s) - (if r.response.Done? then amount else 0)
  {
    var r := Withdraw(s, actorId, amount, date);
    if r.response.Done? {
      TotalUpdate(s, actorId, r.store[actorId]);
    }
  }

  /** A transfer, successful or not, keeps the money held by all accounts. */
  lemma TransferTotal(s: Store, actorId: string, amount: int, target: string, date: Timestamp)
    requires actorId in s && amount > 0
    ensures Total(Transfer(s, actorId, amount, target, date).store) == Total(s)
  {
    var r := Transfer(s, actorId, amount, target, date);
    if r.response.Done? {
      var s1 := s[actorId := r.store[actorId]];
      TotalUpdate(s, actorId, r.store[actorId]);
      TotalUpdate(s1, target, r.store[target]);
      assert s1[target := r.store[target]] == r.store;
    }
  }

  /** A bill payment removes its amount from the money held by all accounts,
      unless it is refused. */
  lemma PayBillTotal(s: Store, actorId: string, amount: int, target: string, date: Timestamp)
    requires actorId in s && amount > 0
    ensures var r := PayBill(s, actorId, amount, target, date);
      Total(r.store) == Total(s) - (if r.response.Done? then amount else 0)
  {
    var r := PayBill(s, actorId, amount, target, date);
    if r.response.Done? {
      TotalUpdate(s, actorId, r.store[actorId]);
    }
  }

  /** How the money held by all accounts together changes: a deposit adds the
      amount, a withdrawal or bill payment removes it, and a transfer, a
      rejection or an unrecognised action leaves the total as it was. */
  lemma ApplyChangesTotal(s: Store, actorId: string, action: string, amount: int, target: string, date: Timestamp)
    requires actorId in s && amount > 0
    ensures var r := Apply(s, actorId, action, amount, target, date);
      Total(r.store) == Total(s) + (
        if r.response.Rejected? then 0
        else if action == "deposit" then amount
        else if action == "withdraw" || action == "billpayment" then -amount
        else 0)
  {
    if action == "deposit" {
      DepositTotal(s, actorId, amount, date);
    } else if action == "withdraw" {
      WithdrawTotal(s, actorId, amount, date);
    } else if action == "transfer" {
      TransferTotal(s, actorId, amount, target, date);
    } else if action == "billpayment" {
      PayBillTotal(s, actorId, amount, target, date);
    }
  }

  /** `updateAccount`: the branches run one after another on the acting
      account's record, and each successful branch writes that record (and,
      for a transfer, then the recipient's) back to the store. The amount has
      already passed `validateBalance`. */
  method UpdateAccount(store: AccountStore, actorId: string, action: string, amount: int, target: string, date: Timestamp)
    returns (r: Response)
    requires store.Valid() && actorId in store.accounts && amount > 0
    modifies store
    ensures store.Valid()
    ensures Step(r, store.accounts) == Apply(old(store.accounts), actorId, action, amount, target, date)
  {
    var user := store.accounts[actorId];

    if action == "deposit" {
      user := Post(user, action, "", amount, amount, date);
      store.FindByIdAndUpdate(user);
    }

    if action == "withdraw" {
      if user.balance < amount {
        return Rejected(InsufficientFunds);
      }
      user := Post(user, action, "", amount, -amount, date);
      store.FindByIdAndUpdate(user);
    }

    if action == "transfer" {
      if user.balance < amount {
        return Rejected(InsufficientFunds);
      }
      var found := store.FindOne(target);
      if found.None? {
        return Rejected(RecipientNotFound);
      }
      var targetUser := found.value;
      if user.accountId == target {
        return Rejected(SelfTransfer);
      }

      user := Post(user, "transfer to", targetUser.accountId, amount, -amount, date);
      store.FindByIdAndUpdate(user);

      targetUser := Post(targetUser, "transfer from", user.accountId, amount, amount, date);
      store.FindByIdAndUpdate(targetUser);
    }

    if action == "billpayment" {
      if user.balance < amount {
        return Rejected(InsufficientFunds);
      }
      user := Post(user, action, target, amount, -amount, date);
      store.FindByIdAndUpdate(user);
    }

    r := Done(user);
  }

  /** What `getAccount` returns: no log and no password. */
  datatype PublicView = PublicView(id: string, accountId: string, name: string, balance: int)

  /** What `getMyAccount` returns: the public fields and the log. */
  datatype OwnView = OwnView(id: string, accountId: string, name: string, balance: int, transactions: seq<Entry>)

  /** `getAccount`: look the account up by `accountId`; absent means 404. */
  function GetAccount(s: Store, accountId: string): (r: Option<PublicView>)
    ensures r.Some? <==> accountId in s
    ensures r.Some? ==> var a := s[accountId];
      r.value == PublicView(a.id, a.accountId, a.name, a.balance)
  {
    if accountId in s then
      var a := s[accountId];
      Some(PublicView(a.id, a.accountId, a.name, a.balance))
    else None
  }

  /** `getMyAccount`: the authenticated account with its log; no account
      means 404. */
  function GetMyAccount(user: Option<Account>): (r: Option<OwnView>)
    ensures r.Some? <==> user.Some?
    ensures r.Some? ==> var a := user.value;
      r.value == OwnView(a.id, a.accountId, a.name, a.balance, a.transactions)
  {
    match user
    case None => None
    case Some(a) => Some(OwnView(a.id, a.accountId, a.name, a.balance, a.transactions))
  }

  /** The two views agree: the public view of a stored account is its own view
      without the log, and after a successful update the own view of the
      reply's account ends with an entry that records the balance it shows. */
  lemma ViewsAgree(s: Store, actorId: string, action: string, amount: int, target: string, date: Timestamp)
    requires actorId in s && amount > 0
    ensures var v := GetMyAccount(Some(s[actorId])).value;
      GetAccount(s, actorId) == Some(PublicView(v.id, v.accountId, v.name, v.balance))
    ensures var r := Apply(s, actorId, action, amount, target, date);
      r.response.Done? && IsAction(action) ==>
        var v := GetMyAccount(Some(r.response.user)).value;
        |v.transactions| > 0 && v.transactions[|v.transactions| - 1].balance == v.balance
  {
  }
}
