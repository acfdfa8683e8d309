/**
 * Registration, OTP verification and login as a state machine over the user
 * table. Form fields arrive as `Option<string>` (absent or present); the
 * clock reading, the random OTP draw and the password salt are parameters.
 */
module Auth {
  import opened Results
  import opened Models
  import OtpCodes

  /** How long a registration code stays valid: ten minutes. */
  const OtpLifetime: int := 10 * 60

  /** Token lifetimes: thirty days when the user asks to stay logged in, one hour otherwise. */
  const LongSession: int := 30 * 24 * 60 * 60
  const ShortSession: int := 60 * 60

  /** The roles a user may register with. */
  const Roles: seq<string> := ["event_organizer", "customer"]

  /** The user table. */
  datatype Store = Store(users: seq<User>)

  /** Why a request was refused. */
  datatype AuthError =
    | MissingFields        // a registration field is absent or empty
    | InvalidRole          // role is neither of Roles
    | UserExists           // the username is taken
    | EmailConflict        // the email is taken: the unique constraint fails the insert
    | OtpRequired          // no code, or an empty one
    | InvalidOrExpiredOtp  // nobody holds the code, or its holder's code has expired
    | InvalidCredentials   // unknown username or wrong password
    | PasswordMissing      // a known username with no password: the hash check fails

  /** The user table after a request, and the error when the request was refused. */
  datatype Outcome = Outcome(store: Store, error: Option<AuthError>)

  /** The OTP mail dispatched during registration. */
  datatype OtpMail = OtpMail(to: string, code: string)

  /** What a successful login hands back: the token's identity and lifetime, and the profile. */
  datatype Session = Session(userId: int, role: string, lifetime: int, username: string, email: string)

  /** A form field is given and non-empty (Python truthiness of a string or None). */
  predicate Present(field: Option<string>) {
    field.Some? && field.value != ""
  }

  /** The first user with this username, if any. */
  function FindByUsername(users: seq<User>, username: string): (r: Option<nat>)
    ensures r.Some? ==> r.value < |users| && users[r.value].username == username
    ensures r.Some? ==> forall j :: 0 <= j < r.value ==> users[j].username != username
    ensures r.None? ==> forall j :: 0 <= j < |users| ==> users[j].username != username
  {
    if |users| == 0 then None
    else if users[0].username == username then Some(0)
    else match FindByUsername(users[1..], username)
      case None => None
      case Some(i) => Some(i + 1)
  }

  /** Whether some user holds this email. */
  predicate EmailTaken(users: seq<User>, email: string) {
    exists j :: 0 <= j < |users| && users[j].email == email
  }

  /** Whether the user is waiting for verification with the code `code`. */
  predicate HoldsOtp(u: User, code: string) {
    u.otp.Some? && u.otp.value.code == code
  }

  /** The first user whose pending code is `code`, if any. */
  function FindByOtp(users: seq<User>, code: string): (r: Option<nat>)
    ensures r.Some? ==> r.value < |users| && HoldsOtp(users[r.value], code)
    ensures r.Some? ==> forall j :: 0 <= j < r.value ==> !HoldsOtp(users[j], code)
    ensures r.None? ==> forall j :: 0 <= j < |users| ==> !HoldsOtp(users[j], code)
  {
    if |users| == 0 then None
    else if HoldsOtp(users[0], code) then Some(0)
    else match FindByOtp(users[1..], code)
      case None => None
      case Some(i) => Some(i + 1)
  }

  /** The registration form passes validation: every field present and the role one of Roles. */
  predicate ValidForm(username: Option<string>, email: Option<string>, password: Option<string>, role: Option<string>) {
    Present(username) && Present(email) && Present(password) && Present(role) && role.value in Roles
  }

  /** The user a successful registration inserts. */
  function PendingUser(ps: PasswordScheme, username: string, email: string, password: string,
                       role: string, salt: string, draw: int, now: Time): (u: User)
    requires OtpCodes.OtpLow <= draw <= OtpCodes.OtpHigh
    ensures u.username == username && u.email == email && u.role == role
    ensures Sound(ps) ==> CheckPassword(ps, u, password)
    ensures u.otp.Some? && u.otp.value.expiresAt == now + OtpLifetime
    ensures OtpCodes.IsOtpCode(u.otp.value.code) && OtpCodes.ParseDecimal(u.otp.value.code) == draw
  {
    User(username, email, ps.hash(password, salt), role,
         Some(PendingOtp(OtpCodes.GenerateOtp(draw), now + OtpLifetime)))
  }

  /**
   * Registers a user awaiting verification. `salt` is the hash salt, `draw`
   * the random number behind the code and `now` the clock reading.
   */
  function Register(s: Store, ps: PasswordScheme,
                    username: Option<string>, email: Option<string>,
                    password: Option<string>, role: Option<string>,
                    salt: string, draw: int, now: Time): (r: Outcome)
    requires OtpCodes.OtpLow <= draw <= OtpCodes.OtpHigh
    // every refusal leaves the table as it was
    ensures r.error.Some? ==> r.store == s
    ensures !(Present(username) && Present(email) && Present(password) && Present(role))
            ==> r.error == Some(MissingFields)
    ensures (Present(username) && Present(email) && Present(password) && Present(role)
             && role.value !in Roles)
            ==> r.error == Some(InvalidRole)
    ensures (ValidForm(username, email, password, role) && FindByUsername(s.users, username.value).Some?)
            ==> r.error == Some(UserExists)
    ensures (ValidForm(username, email, password, role) && FindByUsername(s.users, username.value).None?
             && EmailTaken(s.users, email.value))
            ==> r.error == Some(EmailConflict)
    // a success appends exactly one pending user and touches nobody else
    ensures r.error.None? <==>
      (ValidForm(username, email, password, role)
       && FindByUsername(s.users, username.value).None? && !EmailTaken(s.users, email.value))
    ensures r.error.None? ==>
      && |r.store.users| == |s.users| + 1
      && r.store.users[..|s.users|] == s.users
      && var u := r.store.users[|s.users|];
      && u.username == username.value && u.email == email.value && u.role == role.value
      && u.password == ps.hash(password.value, salt)
      && u.otp == Some(PendingOtp(OtpCodes.GenerateOtp(draw), now + OtpLifetime))
    // the unique constraints survive every registration
    ensures UniqueUsernames(s.users) ==> UniqueUsernames(r.store.users)
    ensures UniqueEmails(s.users) ==> UniqueEmails(r.store.users)
  {
    if !(Present(username) && Present(email) && Present(password) && Present(role)) then
      Outcome(s, Some(MissingFields))
    else if role.value !in Roles then
      Outcome(s, Some(InvalidRole))
    else if FindByUsername(s.users, username.value).Some? then
      Outcome(s, Some(UserExists))
    else if EmailTaken(s.users, email.value) then
      Outcome(s, Some(EmailConflict))
    else
      var u := PendingUser(ps, username.value, email.value, password.value, role.value, salt, draw, now);
      Outcome(Store(s.users + [u]), None)
  }

  /**
   * The code mailed during registration. The mail goes out once validation and
   * the username check pass, before the insert, so it is sent even when the
   * insert then fails on the email constraint; its delivery never affects the table.
   */
  function RegistrationMail(s: Store, username: Option<string>, email: Option<string>,
                            password: Option<string>, role: Option<string>, draw: int): (m: Option<OtpMail>)
    requires OtpCodes.OtpLow <= draw <= OtpCodes.OtpHigh
    ensures m.Some? <==> ValidForm(username, email, password, role) && FindByUsername(s.users, username.value).None?
    ensures m.Some? ==>
      m.value.to == email.value && OtpCodes.IsOtpCode(m.value.code) && OtpCodes.ParseDecimal(m.value.code) == draw
  {
    if ValidForm(username, email, password, role) && FindByUsername(s.users, username.value).None? then
      Some(OtpMail(email.value, OtpCodes.GenerateOtp(draw)))
    else None
  }

  /**
   * Verifies the code `entered` at time `now`: the first user holding the code
   * is activated, provided the code has not expired (the expiry instant itself
   * is still accepted).
   */
  function VerifyOtp(s: Store, entered: Option<string>, now: Time): (r: Outcome)
    ensures r.error.Some? ==> r.store == s
    ensures !Present(entered) ==> r.error == Some(OtpRequired)
    ensures Present(entered) && FindByOtp(s.users, entered.value).None? ==> r.error == Some(InvalidOrExpiredOtp)
    ensures Present(entered) && r.error.Some? ==> r.error == Some(InvalidOrExpiredOtp)
    ensures r.error.None? <==>
      Present(entered) && FindByOtp(s.users, entered.value).Some?
      && now <= s.users[FindByOtp(s.users, entered.value).value].otp.value.expiresAt
    ensures r.error.None? ==>
      && var i := FindByOtp(s.users, entered.value).value;
      && |r.store.users| == |s.users|
      && r.store.users[i] == s.users[i].(otp := None)
      && (forall j :: 0 <= j < |s.users| && j != i ==> r.store.users[j] == s.users[j])
  {
    if !Present(entered) then
      Outcome(s, Some(OtpRequired))
    else match FindByOtp(s.users, entered.value)
      case None => Outcome(s, Some(InvalidOrExpiredOtp))
      case Some(i) =>
        if now > s.users[i].otp.value.expiresAt then Outcome(s, Some(InvalidOrExpiredOtp))
        else Outcome(Store(s.users[i := s.users[i].(otp := None)]), None)
  }

  /** The token lifetime chosen by the `stayLoggedIn` form field. */
  function SessionLifetime(stayLoggedIn: Option<string>): (t: int)
    ensures t == LongSession <==> stayLoggedIn == Some("true")
    ensures t == ShortSession <==> stayLoggedIn != Some("true")
  {
    if stayLoggedIn == Some("true") then LongSession else ShortSession
  }

  /**
   * Logs in by username and password. A missing username matches nobody. The
   * user's verification state plays no part.
   */
  function Login(s: Store, ps: PasswordScheme, username: Option<string>, password: Option<string>,
                 stayLoggedIn: Option<string>): (r: Result<Session, AuthError>)
    ensures r.Ok? <==>
      exists i :: 0 <= i < |s.users| && username == Some(s.users[i].username)
        && (forall j :: 0 <= j < i ==> s.users[j].username != s.users[i].username)
        && password.Some? && CheckPassword(ps, s.users[i], password.value)
    ensures r.Ok? ==>
      && 1 <= r.value.userId <= |s.users|
      && var u := s.users[r.value.userId - 1];
      && username == Some(u.username)
      && r.value.role == u.role && r.value.username == u.username && r.value.email == u.email
      && r.value.lifetime == SessionLifetime(stayLoggedIn)
    ensures r.Ok? ==>
      username.Some? && FindByUsername(s.users, username.value) == Some(r.value.userId - 1)
    ensures r.Err? && r != Err(PasswordMissing) ==> r == Err(InvalidCredentials)
    ensures r == Err(PasswordMissing) <==> password.None? && username.Some? && FindByUsername(s.users, username.value).Some?
  {
    if username.None? then Err(InvalidCredentials)
    else match FindByUsername(s.users, username.value)
      case None => Err(InvalidCredentials)
      case Some(i) =>
        if password.None? then Err(PasswordMissing)
        else if !CheckPassword(ps, s.users[i], password.value) then Err(InvalidCredentials)
        else
          var u := s.users[i];
          Ok(Session(i + 1, u.role, SessionLifetime(stayLoggedIn), u.username, u.email))
  }

  // ---------------------------------------------------------------------------
  // Properties relating several requests
  // ---------------------------------------------------------------------------

  /** A code is still accepted at the exact instant it expires, and refused one second later. */
  lemma VerifyAtExpiry(s: Store, code: string)
    requires code != "" && FindByOtp(s.users, code).Some?
    ensures var exp := s.users[FindByOtp(s.users, code).value].otp.value.expiresAt;
      VerifyOtp(s, Some(code), exp).error.None?
      && VerifyOtp(s, Some(code), exp + 1).error == Some(InvalidOrExpiredOtp)
  {
  }

  /** Once verified, a code cannot be used again unless another user also holds it. */
  lemma VerifyOnce(s: Store, code: string, now: Time, later: Time)
    requires code != ""
    requires VerifyOtp(s, Some(code), now).error.None?
    requires forall j :: 0 <= j < |s.users| && j != FindByOtp(s.users, code).value ==> !HoldsOtp(s.users[j], code)
    ensures VerifyOtp(VerifyOtp(s, Some(code), now).store, Some(code), later).error == Some(InvalidOrExpiredOtp)
  {
  }

  /**
   * A fresh registration can be verified with the mailed code until, and at,
   * its expiry, provided no earlier pending user holds the same code.
   */
  lemma RegisterThenVerify(s: Store, ps: PasswordScheme, username: string, email: string,
                           password: string, role: string, salt: string, draw: int, now: Time, later: Time)
    requires OtpCodes.OtpLow <= draw <= OtpCodes.OtpHigh
    requires Register(s, ps, Some(username), Some(email), Some(password), Some(role), salt, draw, now).error.None?
    requires FindByOtp(s.users, OtpCodes.GenerateOtp(draw)).None?
    ensures var t := Register(s, ps, Some(username), Some(email), Some(password), Some(role), salt, draw, now).store;
      VerifyOtp(t, Some(OtpCodes.GenerateOtp(draw)), later).error.None? <==> later <= now + OtpLifetime
  {
    var code := OtpCodes.GenerateOtp(draw);
    var t := Register(s, ps, Some(username), Some(email), Some(password), Some(role), salt, draw, now).store;
    FindByOtpAppend(s.users, t.users[|s.users|], code);
    assert t.users == s.users + [t.users[|s.users|]];
  }

  /** Searching a table extended at the end finds an earlier match first. */
  lemma {:induction false} FindByOtpAppend(users: seq<User>, u: User, code: string)
    ensures FindByOtp(users, code).Some? ==> FindByOtp(users + [u], code) == FindByOtp(users, code)
    ensures FindByOtp(users, code).None? && HoldsOtp(u, code) ==> FindByOtp(users + [u], code) == Some(|users|)
    ensures FindByOtp(users, code).None? && !HoldsOtp(u, code) ==> FindByOtp(users + [u], code).None?
  {
    if |users| > 0 {
      assert (users + [u])[1..] == users[1..] + [u];
      FindByOtpAppend(users[1..], u, code);
    }
  }

  /** A freshly registered user can log in with the password they registered with, before any verification. */
  lemma RegisterThenLogin(s: Store, ps: PasswordScheme, username: string, email: string,
                          password: string, role: string, salt: string, draw: int, now: Time,
                          stayLoggedIn: Option<string>)
    requires Sound(ps)
    requires OtpCodes.OtpLow <= draw <= OtpCodes.OtpHigh
    requires Register(s, ps, Some(username), Some(email), Some(password), Some(role), salt, draw, now).error.None?
    ensures var t := Register(s, ps, Some(username), Some(email), Some(password), Some(role), salt, draw, now).store;
      Login(t, ps, Some(username), Some(password), stayLoggedIn)
        == Ok(Session(|s.users| + 1, role, SessionLifetime(stayLoggedIn), username, email))
  {
  }

  /** Searching a table extended at the end by a new username finds the new row. */
  lemma {:induction false} FindByUsernameAppend(users: seq<User>, u: User, username: string)
    requires FindByUsername(users, username).None? && u.username == username
    ensures FindByUsername(users + [u], username) == Some(|users|)
  {
    if |users| > 0 {
      assert (users + [u])[1..] == users[1..] + [u];
      FindByUsernameAppend(users[1..], u, username);
    }
  }

  /** Verifying a code changes nobody's login outcome: login ignores OTP state. */
  lemma VerifyKeepsLogin(s: Store, ps: PasswordScheme, code: Option<string>, now: Time,
                         username: Option<string>, password: Option<string>, stayLoggedIn: Option<string>)
    ensures Login(VerifyOtp(s, code, now).store, ps, username, password, stayLoggedIn)
         == Login(s, ps, username, password, stayLoggedIn)
  {
    var t := VerifyOtp(s, code, now).store;
    if username.Some? && t != s {
      FindByUsernameSameNames(s.users, t.users, username.value);
    }
  }

  /** The username search sees only usernames. */
  lemma FindByUsernameSameNames(a: seq<User>, b: seq<User>, username: string)
    requires |a| == |b|
    requires forall j :: 0 <= j < |a| ==> a[j].username == b[j].username
    ensures FindByUsername(a, username) == FindByUsername(b, username)
  {
  }

  /** Every pending code has the generator's shape. */
  predicate CodesWellFormed(users: seq<User>) {
    forall i :: 0 <= i < |users| && users[i].otp.Some? ==> OtpCodes.IsOtpCode(users[i].otp.value.code)
  }

  /** The invariant of the user table: both unique constraints, and well-formed pending codes. */
  predicate ValidStore(s: Store) {
    UniqueUsernames(s.users) && UniqueEmails(s.users) && CodesWellFormed(s.users)
  }

  /** Every registration request keeps the table valid. */
  lemma RegisterKeepsValid(s: Store, ps: PasswordScheme,
                           username: Option<string>, email: Option<string>,
                           password: Option<string>, role: Option<string>,
                           salt: string, draw: int, now: Time)
    requires OtpCodes.OtpLow <= draw <= OtpCodes.OtpHigh
    requires ValidStore(s)
    ensures ValidStore(Register(s, ps, username, email, password, role, salt, draw, now).store)
  {
  }

  /** Every verification request keeps the table valid. */
  lemma VerifyKeepsValid(s: Store, code: Option<string>, now: Time)
    requires ValidStore(s)
    ensures ValidStore(VerifyOtp(s, code, now).store)
  {
  }

  /**
   * The mailed code is the code stored with the new user; and a registration
   * refused on the email constraint has mailed a code nonetheless.
   */
  lemma MailMatchesRegistration(s: Store, ps: PasswordScheme,
                                username: Option<string>, email: Option<string>,
                                password: Option<string>, role: Option<string>,
                                salt: string, draw: int, now: Time)
    requires OtpCodes.OtpLow <= draw <= OtpCodes.OtpHigh
    ensures var r := Register(s, ps, username, email, password, role, salt, draw, now);
      var m := RegistrationMail(s, username, email, password, role, draw);
      && (r.error.None? ==> m.Some? && HoldsOtp(r.store.users[|s.users|], m.value.code))
      && (r.error == Some(EmailConflict) ==> m.Some?)
      && (m.None? ==> r.error.Some?)
  {
  }
}
