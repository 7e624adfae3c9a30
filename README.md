# Account ledger service: a verified model

This project models the core of a small banking back end. Users register with a
10-digit account id, a name and a 4-digit PIN, and then log in. An authenticated user
changes their balance with one of four actions: deposit, withdraw, transfer to another
account, or pay a bill. Every account holds an integer `balance` and an embedded
`transactions` log. Each successful action appends one entry
`{title, target, amount, balance, date}` to each account it touches.

The model has six modules:

- `Accounts` (accounts.dfy): the user record and log entry as the schema stores them.
  It also holds the field formats the schema's validators check, the invariants every
  stored account keeps, and the account store. The store is a class whose `accounts`
  map, keyed by account id, is read by `findOne` and updated in place by
  `findByIdAndUpdate` and `create`.
- `Totals` (totals.dfy): the sum of all balances in the store, and how one write or one
  insertion changes it.
- `BalanceCheck` (balance_check.dfy): the `validateBalance` middleware. It applies three
  guards in a fixed order and accepts exactly the positive whole numbers.
- `Transactions` (transactions.js's handlers, transactions.dfy): each action branch as a
  specification function on the store map, and `Apply` for the dispatch. The imperative
  method `UpdateAccount` follows the handler statement by statement: it mutates the
  acting record, waits on each store write, and does the transfer's two writes one after
  the other. Its postcondition ties the new store and the reply to `Apply`. The same
  module holds the two read views, `getAccount` and `getMyAccount`.
- `Auth` (auth.dfy): the ordered field checks of `register` and `login`, registration
  with its duplicate check and creation (a function, plus the method that calls the
  store), and login's lookup-then-password order.
- `Routes` (routes.dfy): the route runs `validateBalance` before `updateAccount`. This
  module also defines a request sequence made of these two handlers, and proves what
  any such sequence does to the store.

Main results:

- Every request keeps each stored account well formed: balance ≥ 0, every entry amount
  > 0, and the last entry's `balance` equal to the account's balance (or an empty log
  and balance 0).
- Logs only grow at their end, and no identity field ever changes.
- A transfer conserves money, both for the two accounts and for the store as a whole.
- Money enters only through deposits and leaves only through withdrawals and bill
  payments.
- Rejections happen in the source's order, and each happens before any write.
- A registration followed by a login with the same PIN succeeds.

Things the model takes as given:

- The authentication middleware (`protect`) is not part of this model. The acting
  account is the stored record of an account id that is in the store.
- Dates and document `_id`s are opaque parameters.
- bcrypt is modelled as an ideal commitment: `matchPassword` holds exactly for the PIN
  that was hashed.

Behaviour of the code worth knowing, all of it modelled as the code has it:

- Unrecognised action: an action string other than the four names changes nothing and
  still gets the success reply with the account (controllers/transactions.js:90-94).
- Transfer writes: the transfer's two writes (controllers/transactions.js:61, 71) run
  as two independent store updates, with no transaction and no compensation if the
  second fails. The model runs them in sequence (see "Left out").
- Empty name: an empty name passes `register`'s own checks but fails the schema's
  `required` flag (models/User.js:6-9). So `User.create` throws, and the request ends
  in the 500 handler (controllers/auth.js:46-51). `Auth.Register` models that outcome
  as `ServerError`.

## Model

| member | source | states |
|---|---|---|
| `Accounts.AccountStore.FindOne` | controllers/transactions.js:45-48 | Finds a document exactly when one with that accountId is stored, and returns that document. |
| `Accounts.AccountStore.FindByIdAndUpdate` | controllers/transactions.js:61 | Replaces the stored record of that account, never inserts one, changes no other record, and keeps the store invariant when the written record is well formed. |
| `Accounts.AccountStore.Create` | controllers/auth.js:39-41 | Adds a document only if the schema admits it (non-empty name, 10-digit id, 4-digit PIN) and the accountId is not taken. The new document has balance 0, an empty log and the hashed PIN. Otherwise the store is unchanged. |
| `BalanceCheck.ValidateBalance` | middleware/validateBalance.js:2-31 | The first failing guard decides the reason: not a number, then not positive, then not whole. The amount is accepted exactly when it is a positive whole number, and the accepted integer equals the input. |
| `BalanceCheck.IntegerRoundTrip` | middleware/validateBalance.js:13-30 | Every positive integer is accepted and reaches the handler unchanged. Every other integer is rejected as not positive. |
| `Transactions.Post` | controllers/transactions.js:14-21 | Pushing one entry moves the balance by the delta and appends exactly the entry {title, target, amount, new balance, date}, leaving the identity fields unchanged. If the account was well formed and the new balance is ≥ 0, it stays well formed. |
| `Transactions.Deposit` | controllers/transactions.js:13-23 | Raises the actor's balance by exactly the amount. Appends exactly one entry ("deposit", empty target, the amount, the new balance, the date). Changes no other account and keeps the store invariant. |
| `Transactions.Withdraw` | controllers/transactions.js:25-38 | Rejects with insufficient funds exactly when amount > balance, and then changes nothing. Otherwise, including amount == balance, subtracts the amount, appends one "withdraw" entry with the new balance, leaves the balance ≥ 0 and touches only the actor. |
| `Transactions.Transfer` | controllers/transactions.js:40-72 | Rejects in order: insufficient funds, then recipient not found, then self-transfer, each with the store unchanged. Succeeds exactly otherwise. The sender gets a "transfer to" entry naming the recipient and the recipient a "transfer from" entry naming the sender, both stamped with the request date. Their combined balance is unchanged, and no third account changes. |
| `Transactions.PayBill` | controllers/transactions.js:74-88 | Rejects with insufficient funds exactly when amount > balance, and then changes nothing. Otherwise debits the actor and records the caller's free-text target unchecked. No other account changes. |
| `Transactions.Apply` | controllers/transactions.js:7-98 | An unrecognised action changes nothing and still replies success with the account. A rejection never changes the store. A success replies with the acting account as stored. Each account gains at most one entry, and each touched account's last entry records its balance. The store invariant is kept. |
| `Transactions.DepositTotal` | controllers/transactions.js:13-23 | A deposit adds exactly its amount to the total of all balances. |
| `Transactions.WithdrawTotal` | controllers/transactions.js:25-38 | A successful withdrawal removes exactly its amount from the total; a refused one leaves the total unchanged. |
| `Transactions.TransferTotal` | controllers/transactions.js:53-71 | A transfer, successful or refused, leaves the total of all balances unchanged: the debit and the credit cancel out. |
| `Transactions.PayBillTotal` | controllers/transactions.js:74-88 | A successful bill payment removes exactly its amount from the total; a refused one leaves the total unchanged. |
| `Transactions.ApplyChangesTotal` | controllers/transactions.js:13-88 | The total of all balances rises by the amount on a deposit and falls by it on a withdrawal or bill payment. A transfer, a rejection or an unrecognised action leaves the total unchanged. |
| `Transactions.UpdateAccount` | controllers/transactions.js:7-98 | Runs the branches in sequence on the acting record and writes each touched record back (for a transfer: sender first, then recipient). The reply and the new store are exactly those of `Apply`, and the store invariant is kept. |
| `Transactions.GetAccount` | controllers/transactions.js:103-138 | Finds an account exactly when the id is stored. The view holds only id, accountId, name and balance: no log and no password. |
| `Transactions.GetMyAccount` | controllers/transactions.js:144-176 | Returns a view exactly when there is an authenticated account. The view adds the log to the public fields and never holds the password. |
| `Transactions.ViewsAgree` | controllers/transactions.js:118-125 | The public view equals the own view with the log dropped. After a successful action, the own view shows a log whose last entry records the balance it shows. |
| `Auth.CheckCredentialFields` | controllers/auth.js:63-76 | The accountId checks run first: digits only (which the empty string fails), then exactly 10 long. The password checks follow: digits only, then exactly 4 long. No reason is returned exactly when the id has 10 digits and the PIN 4. |
| `Auth.CheckRegistrationFields` | controllers/auth.js:12-30 | A name over 30 characters is rejected before anything else. Otherwise the accountId and password checks decide. |
| `Auth.AccountIdChecksFirst` | controllers/auth.js:17-30 | An invalid accountId is always rejected, with the same reason whatever the password. |
| `Auth.Register` | controllers/auth.js:7-52 | A field error, then a taken accountId, reject with the store unchanged. Otherwise an empty name is rejected as a server error with the store unchanged (the schema's `required`, models/User.js:6-9), and any other input adds exactly one well-formed account (balance 0, empty log, hashed PIN). The store invariant is kept. |
| `Auth.RegisterKeepsTotal` | controllers/auth.js:39-41 | Registration never changes the total money in the store. |
| `Auth.RegisterUser` | controllers/auth.js:7-52 | Checks the fields, then looks for a duplicate, then creates. The result and the new store are exactly those of `Register`, and the store invariant is kept. |
| `Auth.Login` | controllers/auth.js:58-99 | A field error comes first, then "not found" for an unknown accountId, then "incorrect password". Login succeeds exactly when the formats hold, the account exists and the PIN matches. It returns that stored account and never changes the store. |
| `Auth.RegisterThenLogin` | controllers/auth.js:79-88 | After a successful registration: the same credentials log in to the new account, another 4-digit PIN is refused as incorrect, and registering the id again is refused as a duplicate. |
| `Routes.HandlePut` | routes/transactions.js:13 | An amount that is not a positive whole number is refused with the store unchanged. Otherwise the update handler runs on that number as an integer. |
| `Routes.PutTransaction` | routes/transactions.js:13 | Runs `validateBalance` and calls `updateAccount` only when it passes. The reply and the new store are those of `HandlePut`. |
| `Routes.RunKeepsInvariants` | controllers/transactions.js:7-98 | From a valid store, any sequence of requests keeps every account well formed (balance ≥ 0, positive entry amounts, last entry equal to the balance). Accounts are never removed, identity fields never change, and logs only grow at their end. |
| `Routes.RunTotal` | controllers/transactions.js:13-88 | Over any sequence of requests, the total of all balances changes by exactly the deposits minus the withdrawals and bill payments that succeeded. |

## Left out

- Atomicity of transfer: the two writes (controllers/transactions.js:61, 71) run in
  sequence, and neither can fail. Partial failure, compensation and retries are not
  modelled. The code has no mechanism for them.
- Concurrency: lost updates, double spends and interleavings of concurrent requests are
  not modelled. Each request runs alone against the store.
- Stale authenticated record: the authentication middleware (`protect`) is not part of
  this model. The acting account is the stored record at the start of the request, so a
  record loaded earlier and then changed by another request is not modelled.
- `Accounts.AccountStore.FindByIdAndUpdate`: writes are addressed by accountId rather
  than by the document `_id`. The two identify the same document, because both are
  unique and neither changes.
- Persistence internals: Mongoose casting, the driver, and the catch-all 500 handlers
  are left out. The one exception is the schema refusing an empty name on
  registration.
- JavaScript values: coercion and loose equality are left out. Action, target, name, id
  and password are modelled as strings. The amount is either "not a number" or a real
  number, which leaves out IEEE infinities and the loss of integer precision above
  2^53. Balances are unbounded integers.
- `Transactions.Transfer`: the target is modelled as a string, which rules out a case
  that breaks conservation. Suppose the caller sends the sender's own accountId as a
  JSON number. The `findOne` filter is cast to a string and finds the sender
  (controllers/transactions.js:45). The strict comparison at line 49 is then false, so
  the self-transfer check does not fire. The second write (line 71) stores a copy of
  the sender loaded before the first write (line 61). The sender's balance then rises
  by the amount, and the "transfer to" entry is lost. This reading of the code has not
  been executed. The conservation results (`Transactions.TransferTotal`,
  `Routes.RunTotal`) hold only for string targets.
- `Auth.CheckRegistrationFields`: counts a name's length in Unicode scalar values. The
  code's `name.length` counts UTF-16 code units, so the two differ for characters
  outside the Basic Multilingual Plane.
- Password hashing: bcrypt's salt and cost, and password hashing in general, are left
  out. The stored credential is an ideal commitment to the PIN.
- Token issuance, cookies, `sendTokenResponse`, `logout` and `getMe`: these are
  credential-service and I/O concerns.
- HTTP status codes and message texts: each rejection is modelled as a stable reason
  value instead.
- `Transactions.GetMyAccount`: the `|| []` default for a missing log is never needed,
  because the model's log is always a sequence.
- Entry titles: the deposit, withdraw and bill-payment entries are titled with the
  action string that matched, which is the literal action name.
