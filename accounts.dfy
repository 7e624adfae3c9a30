/** Account records as the User schema stores them, the field formats its
    validators enforce, and the account store the controllers read and write. */
module Accounts {

  datatype Option<T> = None | Some(value: T)

  /** A JavaScript `Date`, kept opaque: the model never computes with it. */
  datatype Timestamp = Timestamp(millis: int)

  /** One element of an account's `transactions` array. `balance` is the
      owning account's balance right after the entry was appended. */
  datatype Entry = Entry(title: string, target: string, amount: int, balance: int, date: Timestamp)

  /** The stored password. bcrypt is modelled as an ideal commitment: the
      stored value is determined by the PIN, and distinct PINs never match. */
  datatype Credential = Hashed(pin: string)

  function Hash(pin: string): Credential
  {
    Hashed(pin)
  }

  /** `user.matchPassword(entered)`: bcrypt.compare against the stored hash. */
  predicate MatchPassword(stored: Credential, entered: string)
  {
    stored == Hash(entered)
  }

  /** A user document. `id` is the document's own `_id`, opaque here. */
  datatype Account = Account(
    id: string,
    accountId: string,
    name: string,
    balance: int,
    transactions: seq<Entry>,
    password: Credential,
    createdAt: Timestamp)

  /** The user collection, keyed by `accountId` (a unique index). */
  type Store = map<string, Account>

  predicate IsDigit(c: char)
  {
    '0' <= c <= '9'
  }

  /** `/^\d+$/.test(s)`: at least one character, and only ASCII digits. */
  predicate AllDigits(s: string)
  {
    |s| > 0 && forall i :: 0 <= i < |s| ==> IsDigit(s[i])
  }

  predicate IsAccountId(s: string)
  {
    AllDigits(s) && |s| == 10
  }

  predicate IsPin(s: string)
  {
    AllDigits(s) && |s| == 4
  }

  /** What the schema's `required` flags, validators and pre-save hook demand
      of a new document. */
  predicate SchemaValid(name: string, accountId: string, password: string)
  {
    name != "" && IsAccountId(accountId) && IsPin(password)
  }

  /** The last entry of the log records the current balance; an account with
      no entries still has the schema default balance 0. */
  predicate LogConsistent(a: Account)
  {
    if a.transactions == [] then a.balance == 0
    else a.transactions[|a.transactions| - 1].balance == a.balance
  }

  /** The money invariants of one account. */
  predicate Consistent(a: Account)
  {
    && a.balance >= 0
    && LogConsistent(a)
    && (forall i :: 0 <= i < |a.transactions| ==> a.transactions[i].amount > 0)
  }

  /** Everything that holds of every stored account. */
  predicate WellFormed(a: Account)
  {
    && 0 < |a.name| <= 30
    && IsAccountId(a.accountId)
    && IsPin(a.password.pin)
    && Consistent(a)
  }

  predicate StoreValid(s: Store)
  {
    forall k :: k in s ==> s[k].accountId == k && WellFormed(s[k])
  }

  /** The document `User.create` builds: schema defaults for balance, log and
      creation time, and the hashed password. */
  function NewAccount(id: string, name: string, accountId: string, password: string, now: Timestamp): Account
  {
    Account(id, accountId, name, 0, [], Hash(password), now)
  }

  /** The fields no operation ever changes. */
  predicate SameIdentity(a: Account, b: Account)
  {
    a.id == b.id && a.accountId == b.accountId && a.name == b.name
    && a.password == b.password && a.createdAt == b.createdAt
  }

  /** `b` is `a` with `e` pushed onto its log and its balance set to the
      balance `e` records. */
  predicate Appended(a: Account, b: Account, e: Entry)
  {
    SameIdentity(a, b) && b.balance == e.balance && b.transactions == a.transactions + [e]
  }

  /** Store `t` is a later state of store `s`: no account disappears, no
      identity field changes, and every log only grows at its end. */
  predicate Grows(s: Store, t: Store)
  {
    && s.Keys <= t.Keys
    && forall k :: k in s ==> SameIdentity(s[k], t[k]) && s[k].transactions <= t[k].transactions
  }

  lemma GrowsTransitive(s: Store, t: Store, u: Store)
    requires Grows(s, t) && Grows(t, u)
    ensures Grows(s, u)
  {
  }

  /** The persistent user collection, updated in place by the controllers. */
  class AccountStore {
    var accounts: Store

    ghost predicate Valid()
      reads this
    {
      StoreValid(accounts)
    }

    constructor ()
      ensures Valid() && accounts == map[]
    {
      accounts := map[];
    }

    /** `User.findOne({ accountId })`. */
    function FindOne(accountId: string): (r: Option<Account>)
      reads this
      ensures r.Some? <==> accountId in accounts
      ensures r.Some? ==> r.value == accounts[accountId]
    {
      if accountId in accounts then Some(accounts[accountId]) else None
    }

    /** `User.findByIdAndUpdate(user.id, user)`: replaces the stored document
        of that account with `a`; a document that is not stored is not
        inserted. The controllers only write back records that keep the
        account invariants. */
    method FindByIdAndUpdate(a: Account)
      requires Valid()
      requires a.accountId in accounts ==> WellFormed(a)
      modifies this
      ensures Valid()
      ensures accounts == if a.accountId in old(accounts) then old(accounts)[a.accountId := a] else old(accounts)
    {
      if a.accountId in accounts {
        accounts := accounts[a.accountId := a];
      }
    }

    /** `User.create({ name, accountId, password })`: the schema check and the
        unique index either admit the new document or make the call fail. The
        only caller has already checked the 30-character name limit. */
    method Create(id: string, name: string, accountId: string, password: string, now: Timestamp)
      returns (r: Option<Account>)
      requires Valid() && |name| <= 30
      modifies this
      ensures Valid()
      ensures r.Some? <==> SchemaValid(name, accountId, password) && accountId !in old(accounts)
      ensures r.Some? ==> r.value == NewAccount(id, name, accountId, password, now)
                          && accounts == old(accounts)[accountId := r.value]
      ensures r.None? ==> accounts == old(accounts)
    {
      if SchemaValid(name, accountId, password) && accountId !in accounts {
        var a := NewAccount(id, name, accountId, password, now);
        accounts := accounts[accountId := a];
        r := Some(a);
      } else {
        r := None;
      }
    }
  }
}
