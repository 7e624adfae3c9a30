/** Registration and login: the ordered field checks, the duplicate-id check
    and account creation, and login's lookup-then-password order. Token and
    cookie issuance is not part of this model. */
module Auth {
  import opened Accounts
  import opened Totals

  /** Which field check failed, in the order the checks run. */
  datatype FieldError =
    | NameTooLong
    | AccountIdNotNumeric
    | AccountIdWrongLength
    | PasswordNotNumeric
    | PasswordWrongLength

  /** The accountId and password checks shared by register and login: the
      accountId checks (digits only, then exactly 10 long) run before the
      password checks (digits only, then exactly 4 long). */
  function CheckCredentialFields(accountId: string, password: string): (r: Option<FieldError>)
    ensures r.None? <==> IsAccountId(accountId) && IsPin(password)
    ensures !AllDigits(accountId) ==> r == Some(AccountIdNotNumeric)
    ensures AllDigits(accountId) && |accountId| != 10 ==> r == Some(AccountIdWrongLength)
    ensures IsAccountId(accountId) && !AllDigits(password) ==> r == Some(PasswordNotNumeric)
    ensures IsAccountId(accountId) && AllDigits(password) && |password| != 4 ==> r == Some(PasswordWrongLength)
  {
    if !AllDigits(accountId) then Some(AccountIdNotNumeric)
    else if |accountId| != 10 then Some(AccountIdWrongLength)
    else if !AllDigits(password) then Some(PasswordNotNumeric)
    else if |password| != 4 then Some(PasswordWrongLength)
    else None
  }

  /** Register's checks: the name limit of 30 characters comes first. */
  function CheckRegistrationFields(name: string, accountId: string, password: string): (r: Option<FieldError>)
    ensures |name| > 30 ==> r == Some(NameTooLong)
    ensures |name| <= 30 ==> r == CheckCredentialFields(accountId, password)
    ensures r.None? <==> |name| <= 30 && IsAccountId(accountId) && IsPin(password)
  {
    if |name| > 30 then Some(NameTooLong)
    else CheckCredentialFields(accountId, password)
  }

  /** An invalid accountId decides the reply whatever the password is. */
  lemma AccountIdChecksFirst(accountId: string, password: string, other: string)
    requires !IsAccountId(accountId)
    ensures CheckCredentialFields(accountId, password) == CheckCredentialFields(accountId, other)
    ensures CheckCredentialFields(accountId, password).Some?
  {
  }

  datatype RegisterError =
    | Invalid(field: FieldError)
    | AccountIdTaken
    /** `User.create` threw (the schema refused the document): a 500 reply. */
    | ServerError

  datatype RegisterResult = Registered(user: Account) | RegisterRejected(error: RegisterError)

  datatype RegisterStep = RegisterStep(result: RegisterResult, store: Store)

  /** `register` as a function of the store. An empty name passes the
      controller's checks but not the schema's `required`, so creation fails. */
  function Register(s: Store, name: string, accountId: string, password: string, id: string, now: Timestamp): (r: RegisterStep)
    ensures CheckRegistrationFields(name, accountId, password).Some? ==>
      r == RegisterStep(RegisterRejected(Invalid(CheckRegistrationFields(name, accountId, password).value)), s)
    ensures CheckRegistrationFields(name, accountId, password).None? && accountId in s ==>
      r == RegisterStep(RegisterRejected(AccountIdTaken), s)
    ensures CheckRegistrationFields(name, accountId, password).None? && accountId !in s && name == "" ==>
      r == RegisterStep(RegisterRejected(ServerError), s)
    ensures r.result.Registered? <==>
      CheckRegistrationFields(name, accountId, password).None? && accountId !in s && name != ""
    ensures r.result.RegisterRejected? ==> r.store == s
    ensures r.result.Registered? ==>
      && r.store == s[accountId := r.result.user]
      && WellFormed(r.result.user)
      && r.result.user == NewAccount(id, name, accountId, password, now)
    ensures StoreValid(s) ==> StoreValid(r.store)
  {
    var check := CheckRegistrationFields(name, accountId, password);
    if check.Some? then RegisterStep(RegisterRejected(Invalid(check.value)), s)
    else if accountId in s then RegisterStep(RegisterRejected(AccountIdTaken), s)
    else if !SchemaValid(name, accountId, password) then RegisterStep(RegisterRejected(ServerError), s)
    else
      var user := NewAccount(id, name, accountId, password, now);
      RegisterStep(Registered(user), s[accountId := user])
  }

  /** Registering never changes the money in the store: a new account starts
      at balance 0. */
  lemma RegisterKeepsTotal(s: Store, name: string, accountId: string, password: string, id: string, now: Timestamp)
    ensures Total(Register(s, name, accountId, password, id, now).store) == Total(s)
  {
    var r := Register(s, name, accountId, password, id, now);
    if r.result.Registered? {
      TotalInsert(s, accountId, r.result.user);
    }
  }

  /** `register`: the field checks, then `User.findOne` for a duplicate, then
      `User.create`. */
  method RegisterUser(store: AccountStore, name: string, accountId: string, password: string, id: string, now: Timestamp)
    returns (r: RegisterResult)
    requires store.Valid()
    modifies store
    ensures store.Valid()
    ensures RegisterStep(r, store.accounts) == Register(old(store.accounts), name, accountId, password, id, now)
  {
    var check := CheckRegistrationFields(name, accountId, password);
    if check.Some? {
      return RegisterRejected(Invalid(check.value));
    }

    var checkUser := store.FindOne(accountId);
    if checkUser.Some? {
      return RegisterRejected(AccountIdTaken);
    }

    var user := store.Create(id, name, accountId, password, now);
    if user.None? {
      return RegisterRejected(ServerError);
    }
    r := Registered(user.value);
  }

  datatype LoginError = BadField(field: FieldError) | UserNotFound | IncorrectPassword

  datatype LoginResult = LoggedIn(user: Account) | LoginRejected(error: LoginError)

  /** `login`: the field checks, then the lookup, then the password match. It
      only reads the store. */
  function Login(s: Store, accountId: string, password: string): (r: LoginResult)
    ensures CheckCredentialFields(accountId, password).Some? ==>
      r == LoginRejected(BadField(CheckCredentialFields(accountId, password).value))
    ensures CheckCredentialFields(accountId, password).None? && accountId !in s ==>
      r == LoginRejected(UserNotFound)
    ensures CheckCredentialFields(accountId, password).None? && accountId in s
            && !MatchPassword(s[accountId].password, password) ==>
      r == LoginRejected(IncorrectPassword)
    ensures r.LoggedIn? <==>
      IsAccountId(accountId) && IsPin(password) && accountId in s && MatchPassword(s[accountId].password, password)
    ensures r.LoggedIn? ==> r.user == s[accountId]
  {
    var check := CheckCredentialFields(accountId, password);
    if check.Some? then LoginRejected(BadField(check.value))
    else if accountId !in s then LoginRejected(UserNotFound)
    else if !MatchPassword(s[accountId].password, password) then LoginRejected(IncorrectPassword)
    else LoggedIn(s[accountId])
  }

  /** After a successful registration the same credentials log in to the new
      account, any other well-formed PIN is refused as incorrect, and a second
      registration of the same accountId is refused as a duplicate. */
  lemma RegisterThenLogin(s: Store, name: string, accountId: string, password: string, id: string, now: Timestamp,
                          otherPin: string, otherName: string, otherPassword: string)
    requires Register(s, name, accountId, password, id, now).result.Registered?
    ensures var r := Register(s, name, accountId, password, id, now);
      Login(r.store, accountId, password) == LoggedIn(r.result.user)
    ensures var r := Register(s, name, accountId, password, id, now);
      IsPin(otherPin) && otherPin != password ==> Login(r.store, accountId, otherPin) == LoginRejected(IncorrectPassword)
    ensures var r := Register(s, name, accountId, password, id, now);
      CheckRegistrationFields(otherName, accountId, otherPassword).None? ==>
        Register(r.store, otherName, accountId, otherPassword, id, now) == RegisterStep(RegisterRejected(AccountIdTaken), r.store)
  {
  }
}
