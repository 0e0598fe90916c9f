/** dsa `UserService.registerUser` over an in-memory user table. The
    password encoder is an abstract function. */
module UserService {
  import opened Wrappers
  import opened Text
  import opened Model
  import opened Requests
  import DsaUserConverter
  import EntityRules

  /** `PasswordEncoder.encode`; Spring's interface accepts a null argument. */
  type PasswordEncoder = Option<string> -> string

  /** `findByHandle(handle).isPresent()`. A null argument matches rows whose
      handle is null, as Spring Data derives `IS NULL` for it. */
  predicate HandleTaken(users: seq<User>, handle: Option<string>) {
    exists i :: 0 <= i < |users| && users[i].handle == handle
  }

  /** `findByEmail(email).isPresent()` */
  predicate EmailTaken(users: seq<User>, email: Option<string>) {
    exists i :: 0 <= i < |users| && users[i].email == email
  }

  function HandleTakenMessage(handle: Option<string>): (message: string) {
    "Handle '" + Show(handle) + "' is already taken."
  }

  function EmailTakenMessage(email: Option<string>): (message: string) {
    "Email '" + Show(email) + "' is already registered."
  }

  /** Checks the handle, then the email, and only if both are free saves
      the converted user with the encoded password and returns it. */
  function RegisterUser(users: seq<User>, r: RegisterRequest, encode: PasswordEncoder): (e: Effect<User, seq<User>>)
    ensures HandleTaken(users, r.handle) ==>
              e == Effect(Failure(UserAlreadyExists(HandleTakenMessage(r.handle))), users)
    ensures !HandleTaken(users, r.handle) && EmailTaken(users, r.email) ==>
              e == Effect(Failure(UserAlreadyExists(EmailTakenMessage(r.email))), users)
    ensures e.result.Success? <==> !HandleTaken(users, r.handle) && !EmailTaken(users, r.email)
    ensures e.result.Success? ==>
              var u := e.result.value;
              && e.store == users + [u]
              && u.handle == r.handle && u.email == r.email
              && u.firstName == r.firstName && u.lastName == r.lastName
              && u.role == USER
              && u.passwordHash == Some(encode(r.password))
  {
    if HandleTaken(users, r.handle) then
      Effect(Failure(UserAlreadyExists(HandleTakenMessage(r.handle))), users)
    else if EmailTaken(users, r.email) then
      Effect(Failure(UserAlreadyExists(EmailTakenMessage(r.email))), users)
    else
      var newUser := DsaUserConverter.ToUserFromRegisterRequestWithoutPassword(r)
                       .(passwordHash := Some(encode(r.password)));
      Effect(Success(newUser), users + [newUser])
  }

  /** No two stored users share a handle or an email. */
  ghost predicate UniqueHandlesAndEmails(users: seq<User>) {
    forall i, j :: 0 <= i < j < |users| ==>
      users[i].handle != users[j].handle && users[i].email != users[j].email
  }

  /** Registration keeps handles and emails unique. */
  lemma RegisterKeepsUnique(users: seq<User>, r: RegisterRequest, encode: PasswordEncoder)
    requires UniqueHandlesAndEmails(users)
    ensures UniqueHandlesAndEmails(RegisterUser(users, r, encode).store)
  {
    var e := RegisterUser(users, r, encode);
    if e.result.Success? {
      var s := e.store;
      forall i, j | 0 <= i < j < |s|
        ensures s[i].handle != s[j].handle && s[i].email != s[j].email
      {
        if j == |users| {
          assert s[i] == users[i];
          assert !HandleTaken(users, r.handle) && !EmailTaken(users, r.email);
        }
      }
    }
  }

  /** Registering the same handle twice: the second attempt fails with the
      handle message and leaves the table as the first attempt left it. */
  lemma SecondRegistrationFails(users: seq<User>, r: RegisterRequest, r2: RegisterRequest, encode: PasswordEncoder)
    requires RegisterUser(users, r, encode).result.Success?
    requires r2.handle == r.handle
    ensures var after := RegisterUser(users, r, encode).store;
            RegisterUser(after, r2, encode) == Effect(Failure(UserAlreadyExists(HandleTakenMessage(r.handle))), after)
  {
    var after := RegisterUser(users, r, encode).store;
    assert after[|users|].handle == r.handle;
  }

  /** When both the handle and the email are taken, the handle is reported. */
  lemma HandleCheckedFirst(users: seq<User>, r: RegisterRequest, encode: PasswordEncoder)
    requires HandleTaken(users, r.handle) && EmailTaken(users, r.email)
    ensures RegisterUser(users, r, encode).result == Failure(UserAlreadyExists(HandleTakenMessage(r.handle)))
  {
  }

  /** The registration rules are looser than the dsa `User` entity's: a valid
      request with handle "ab-cd" is registered, although the entity's handle
      pattern has no '-' (Bean Validation at persist time would reject it). */
  lemma AcceptedHandleCanBreakEntityRules(isEmail: string -> bool, encode: PasswordEncoder)
    requires isEmail("ada@example.org")
    ensures var r := RegisterRequest(Some("ab-cd"), Some("ada@example.org"), Some("password"),
                                     Some("Ada"), Some("Lovelace"), None);
            var e := RegisterUser([], r, encode);
            && ValidRegisterRequest(r, isEmail)
            && e.result.Success?
            && !EntityRules.ValidDsaUser(e.result.value, isEmail)
  {
    var r := RegisterRequest(Some("ab-cd"), Some("ada@example.org"), Some("password"),
                             Some("Ada"), Some("Lovelace"), None);
    assert HasText("ab-cd") by { assert !IsTrimmable("ab-cd"[0]); }
    assert HasText("ada@example.org") by { assert !IsTrimmable("ada@example.org"[0]); }
    assert HasText("password") by { assert !IsTrimmable("password"[0]); }
    RegisterRequestValidity(r, isEmail);
    assert !IsWordChar("ab-cd"[2]);
  }

  /** Likewise a valid request without names is registered, although the
      entity requires both names. */
  lemma AcceptedNamelessUserBreaksEntityRules(isEmail: string -> bool, encode: PasswordEncoder)
    requires isEmail("ada@example.org")
    ensures var r := RegisterRequest(Some("ada"), Some("ada@example.org"), Some("password"), None, None, None);
            var e := RegisterUser([], r, encode);
            && ValidRegisterRequest(r, isEmail)
            && e.result.Success?
            && !EntityRules.ValidDsaUser(e.result.value, isEmail)
  {
    var r := RegisterRequest(Some("ada"), Some("ada@example.org"), Some("password"), None, None, None);
    assert HasText("ada") by { assert !IsTrimmable("ada"[0]); }
    assert HasText("ada@example.org") by { assert !IsTrimmable("ada@example.org"[0]); }
    assert HasText("password") by { assert !IsTrimmable("password"[0]); }
    RegisterRequestValidity(r, isEmail);
  }
}
