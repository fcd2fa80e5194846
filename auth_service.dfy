/**
 * Accounts: the password policy, registration, login, the two-factor set-up / verify / disable
 * cycle and role changes. Password hashing and comparison, JWT signing and TOTP checking are
 * foreign library calls and enter as parameters; the user table is a sequence of records.
 */
module AuthService {

  import opened Common
  import opened Permissions

  datatype User = User(
    id: string,
    email: string,
    password: string,
    name: string,
    role: Role,
    isActive: bool,
    isTwoFactorEnabled: bool,
    twoFactorSecret: Option<string>,
    lastLoginAt: Option<int>)

  /** The claims a token carries. */
  datatype JwtPayload = JwtPayload(userId: string, email: string, role: Role)

  /** The registration request; firstName and role may be missing at run time. */
  datatype RegisterUserDto = RegisterUserDto(email: string, password: string, firstName: Option<string>, role: Option<Role>)

  datatype LoginUserDto = LoginUserDto(email: string, password: string)

  datatype AuthResponse = AuthResponse(user: User, token: string, requiresTwoFactor: Option<bool>)

  datatype TwoFactorSetup = TwoFactorSetup(secret: string, qrCode: string)

  // ---------------------------------------------------------------------------
  // Password policy

  const MinPasswordLength := 10

  /** The characters of the class `[!@#$%^&*(),.?":{}|<>]`. */
  const SpecialChars: set<char> := {'!', '@', '#', '$', '%', '^', '&', '*', '(', ')', ',', '.', '?', '"', ':', '{', '}', '|', '<', '>'}

  /** `/[lo-hi]/.test(p)`, scanning from the left. */
  function HasCharInRange(p: string, lo: char, hi: char): (r: bool)
    ensures r <==> exists i :: 0 <= i < |p| && lo <= p[i] <= hi
  {
    if p == [] then false
    else if lo <= p[0] <= hi then true
    else
      var r := HasCharInRange(p[1..], lo, hi);
      assert forall i :: 1 <= i < |p| ==> p[i] == p[1..][i - 1];
      r
  }

  /** `/[!@#$%^&*(),.?":{}|<>]/.test(p)`, scanning from the left. */
  function HasSpecialChar(p: string): (r: bool)
    ensures r <==> exists i :: 0 <= i < |p| && p[i] in SpecialChars
  {
    if p == [] then false
    else if p[0] in SpecialChars then true
    else
      var r := HasSpecialChar(p[1..]);
      assert forall i :: 1 <= i < |p| ==> p[i] == p[1..][i - 1];
      r
  }

  /**
   * `validatePassword`: None when the password is acceptable, otherwise the message of the first
   * rule it breaks, the rules being checked in the order length, upper case, digit, special.
   */
  function PasswordViolation(p: string): (r: Option<string>)
    ensures r.None? <==>
      && |p| >= MinPasswordLength
      && (exists i :: 0 <= i < |p| && 'A' <= p[i] <= 'Z')
      && (exists i :: 0 <= i < |p| && '0' <= p[i] <= '9')
      && (exists i :: 0 <= i < |p| && p[i] in SpecialChars)
    ensures |p| < MinPasswordLength ==> r == Some("Password must be at least 10 characters long")
    ensures |p| >= MinPasswordLength && (forall i :: 0 <= i < |p| ==> !('A' <= p[i] <= 'Z')) ==>
      r == Some("Password must contain at least one uppercase letter")
  {
    if |p| < MinPasswordLength then Some("Password must be at least 10 characters long")
    else if !HasCharInRange(p, 'A', 'Z') then Some("Password must contain at least one uppercase letter")
    else if !HasCharInRange(p, '0', '9') then Some("Password must contain at least one number")
    else if !HasSpecialChar(p) then Some("Password must contain at least one special character")
    else None
  }

  /** The digit and special-character rules are reported only once the earlier rules pass. */
  lemma LaterRulesReportedInOrder(p: string)
    requires |p| >= MinPasswordLength && exists i :: 0 <= i < |p| && 'A' <= p[i] <= 'Z'
    ensures (forall i :: 0 <= i < |p| ==> !('0' <= p[i] <= '9')) ==>
      PasswordViolation(p) == Some("Password must contain at least one number")
    ensures (exists i :: 0 <= i < |p| && '0' <= p[i] <= '9') && (forall i :: 0 <= i < |p| ==> p[i] !in SpecialChars) ==>
      PasswordViolation(p) == Some("Password must contain at least one special character")
  {
  }

  lemma AcceptedPasswordExample()
    ensures PasswordViolation("Abcdefgh1!") == None
  {
    var p := "Abcdefgh1!";
    assert 'A' <= p[0] <= 'Z';
    assert '0' <= p[8] <= '9';
    assert p[9] in SpecialChars;
  }

  lemma RejectedPasswordExamples()
    ensures PasswordViolation("Abc1!") == Some("Password must be at least 10 characters long")
    ensures PasswordViolation("abcdefgh1!") == Some("Password must contain at least one uppercase letter")
  {
  }

  // ---------------------------------------------------------------------------
  // Looking users up

  /** The two unique columns of the user table. */
  datatype UniqueColumn = IdColumn | EmailColumn

  function ColumnOf(u: User, column: UniqueColumn): string {
    match column
    case IdColumn => u.id
    case EmailColumn => u.email
  }

  /** `findUnique({ where: { id } })` or `findUnique({ where: { email } })`, as a position in the table. */
  function FindUnique(users: seq<User>, column: UniqueColumn, value: string): (r: Option<nat>)
    ensures r.Some? ==> r.value < |users| && ColumnOf(users[r.value], column) == value
    ensures r.None? <==> forall k :: 0 <= k < |users| ==> ColumnOf(users[k], column) != value
  {
    if users == [] then None
    else if ColumnOf(users[|users| - 1], column) == value then Some(|users| - 1)
    else FindUnique(users[..|users| - 1], column, value)
  }

  /** Ids and e-mail addresses are unique, and two-factor login is never on without a secret. */
  predicate WellFormed(users: seq<User>) {
    && (forall a, b :: 0 <= a < b < |users| ==> users[a].id != users[b].id)
    && (forall a, b :: 0 <= a < b < |users| ==> users[a].email != users[b].email)
    && (forall k :: 0 <= k < |users| && users[k].isTwoFactorEnabled ==> Truthy(users[k].twoFactorSecret))
  }

  // ---------------------------------------------------------------------------
  // Tokens and new accounts

  /** `generateToken`: fails unless the JWT secret is configured (non-empty), otherwise signs the user's claims. */
  function GenerateToken(user: User, jwtSecret: Option<string>, sign: (JwtPayload, string) -> string): (r: Result<string>)
    ensures r.Err? <==> !Truthy(jwtSecret)
    ensures r.Err? ==> r.error == "JWT_SECRET not configured"
    ensures r.Ok? ==> r.value == sign(JwtPayload(user.id, user.email, user.role), jwtSecret.value)
  {
    if !Truthy(jwtSecret) then Err("JWT_SECRET not configured")
    else Ok(sign(JwtPayload(user.id, user.email, user.role), jwtSecret.value))
  }

  /** The record `register` creates; the fields the request does not set take their schema defaults. */
  function NewUser(dto: RegisterUserDto, id: string, hashed: string): (u: User)
    ensures u.id == id && u.email == dto.email && u.password == hashed
    ensures Truthy(dto.firstName) ==> u.name == dto.firstName.value
    ensures !Truthy(dto.firstName) ==> u.name == dto.email
    ensures dto.role.None? ==> u.role == USER
    ensures dto.role.Some? ==> u.role == dto.role.value
    ensures u.isActive && !u.isTwoFactorEnabled && u.twoFactorSecret == None && u.lastLoginAt == None
  {
    User(id, dto.email, hashed, OrElse(dto.firstName, dto.email),
         match dto.role case Some(role) => role case None => USER,
         true, false, None, None)
  }

  /** The token a successful registration or login returns with the user. */
  function Respond(user: User, token: Result<string>): (r: Result<AuthResponse>)
    ensures r.Ok? <==> token.Ok?
    ensures r.Ok? ==> r.value == AuthResponse(user, token.value, None)
    ensures r.Err? ==> r.error == token.error
  {
    match token
    case Ok(t) => Ok(AuthResponse(user, t, None))
    case Err(e) => Err(e)
  }

  /** Adding a fresh user with a new id and e-mail keeps the table well formed. */
  lemma {:induction false} AppendKeepsWellFormed(users: seq<User>, u: User)
    requires WellFormed(users)
    requires FindUnique(users, IdColumn, u.id).None? && FindUnique(users, EmailColumn, u.email).None?
    requires u.isTwoFactorEnabled ==> Truthy(u.twoFactorSecret)
    ensures WellFormed(users + [u])
  {
    var us := users + [u];
    forall a, b | 0 <= a < b < |us| ensures us[a].id != us[b].id && us[a].email != us[b].email {
      if b == |users| {
        assert us[a] == users[a];
      }
    }
  }

  // ---------------------------------------------------------------------------
  // The service

  class AuthService {
    var users: seq<User>
    /** `process.env.JWT_SECRET`. */
    var jwtSecret: Option<string>

    predicate Valid()
      reads this
    {
      WellFormed(users)
    }

    constructor (jwtSecret: Option<string>)
      ensures Valid() && users == [] && this.jwtSecret == jwtSecret
    {
      users := [];
      this.jwtSecret := jwtSecret;
    }

    /**
     * `register`: the password policy is checked before the e-mail lookup; a new user is then
     * created, and only afterwards is the token generated, so a missing JWT secret fails the
     * call with the user already stored.
     */
    method Register(dto: RegisterUserDto, newId: string, hashed: string, sign: (JwtPayload, string) -> string)
      returns (r: Result<AuthResponse>)
      requires Valid()
      requires FindUnique(users, IdColumn, newId).None?
      modifies this
      ensures Valid() && jwtSecret == old(jwtSecret)
      ensures PasswordViolation(dto.password).Some? ==>
        r == Err(PasswordViolation(dto.password).value) && users == old(users)
      ensures PasswordViolation(dto.password).None? && FindUnique(old(users), EmailColumn, dto.email).Some? ==>
        r == Err("Email already registered") && users == old(users)
      ensures PasswordViolation(dto.password).None? && FindUnique(old(users), EmailColumn, dto.email).None? ==>
        var u := NewUser(dto, newId, hashed);
        users == old(users) + [u] && r == Respond(u, GenerateToken(u, jwtSecret, sign))
    {
      var violation := PasswordViolation(dto.password);
      if violation.Some? {
        return Err(violation.value);
      }
      var existing := FindUnique(users, EmailColumn, dto.email);
      if existing.Some? {
        return Err("Email already registered");
      }
      var user := NewUser(dto, newId, hashed);
      AppendKeepsWellFormed(users, user);
      users := users + [user];
      var token := GenerateToken(user, jwtSecret, sign);
      r := Respond(user, token);
    }

    /**
     * `login`: a missing user, an inactive user and a wrong password all fail alike. With
     * two-factor login on, the call answers with an empty token and asks for the second factor;
     * otherwise the token is generated and then the last-login time is recorded. The returned
     * user is the record as read before that update.
     */
    method Login(dto: LoginUserDto, compare: (string, string) -> bool, sign: (JwtPayload, string) -> string, now: int)
      returns (r: Result<AuthResponse>)
      requires Valid()
      modifies this
      ensures Valid() && jwtSecret == old(jwtSecret)
      ensures var k := FindUnique(old(users), EmailColumn, dto.email);
        k.None? || !old(users)[k.value].isActive || !compare(dto.password, old(users)[k.value].password) ==>
          r == Err("Invalid credentials") && users == old(users)
      ensures var k := FindUnique(old(users), EmailColumn, dto.email);
        k.Some? && old(users)[k.value].isActive && compare(dto.password, old(users)[k.value].password) ==>
          var u := old(users)[k.value];
          if u.isTwoFactorEnabled then
            r == Ok(AuthResponse(u, "", Some(true))) && users == old(users)
          else if !Truthy(jwtSecret) then
            r == Err("JWT_SECRET not configured") && users == old(users)
          else
            r == Respond(u, GenerateToken(u, jwtSecret, sign))
            && users == old(users)[k.value := u.(lastLoginAt := Some(now))]
    {
      var k := FindUnique(users, EmailColumn, dto.email);
      if k.None? || !users[k.value].isActive {
        return Err("Invalid credentials");
      }
      var user := users[k.value];
      if !compare(dto.password, user.password) {
        return Err("Invalid credentials");
      }
      if user.isTwoFactorEnabled {
        return Ok(AuthResponse(user, "", Some(true)));
      }
      var token := GenerateToken(user, jwtSecret, sign);
      if token.Err? {
        return Err(token.error);
      }
      users := users[k.value := user.(lastLoginAt := Some(now))];
      r := Respond(user, token);
    }

    /**
     * `setup2FA`: refused for an unknown user or one with two-factor login already on; otherwise
     * the new secret is stored and two-factor login stays off until the first verification.
     */
    method Setup2FA(userId: string, secret: string, qrCode: string) returns (r: Result<TwoFactorSetup>)
      requires Valid()
      modifies this
      ensures Valid() && jwtSecret == old(jwtSecret)
      ensures var k := FindUnique(old(users), IdColumn, userId);
        k.None? ==> r == Err("User not found") && users == old(users)
      ensures var k := FindUnique(old(users), IdColumn, userId);
        k.Some? && old(users)[k.value].isTwoFactorEnabled ==> r == Err("2FA is already enabled") && users == old(users)
      ensures var k := FindUnique(old(users), IdColumn, userId);
        k.Some? && !old(users)[k.value].isTwoFactorEnabled ==>
          r == Ok(TwoFactorSetup(secret, qrCode))
          && users == old(users)[k.value := old(users)[k.value].(twoFactorSecret := Some(secret), isTwoFactorEnabled := false)]
    {
      var k := FindUnique(users, IdColumn, userId);
      if k.None? {
        return Err("User not found");
      }
      if users[k.value].isTwoFactorEnabled {
        return Err("2FA is already enabled");
      }
      users := users[k.value := users[k.value].(twoFactorSecret := Some(secret), isTwoFactorEnabled := false)];
      r := Ok(TwoFactorSetup(secret, qrCode));
    }

    /**
     * `verify2FA`: refused, changing nothing, when the user has no secret or the TOTP token does
     * not match it. Otherwise two-factor login is switched on (if it was off), then the token is
     * generated, which can still fail, and then the last-login time is recorded. The returned
     * user is the record as read at the start.
     */
    method Verify2FA(userId: string, token: string, totp: (string, string) -> bool, sign: (JwtPayload, string) -> string, now: int)
      returns (r: Result<AuthResponse>)
      requires Valid()
      modifies this
      ensures Valid() && jwtSecret == old(jwtSecret)
      ensures var k := FindUnique(old(users), IdColumn, userId);
        k.None? || !Truthy(old(users)[k.value].twoFactorSecret) ==>
          r == Err("2FA not set up for this user") && users == old(users)
      ensures var k := FindUnique(old(users), IdColumn, userId);
        k.Some? && Truthy(old(users)[k.value].twoFactorSecret) && !totp(token, old(users)[k.value].twoFactorSecret.value) ==>
          r == Err("Invalid 2FA token") && users == old(users)
      ensures var k := FindUnique(old(users), IdColumn, userId);
        k.Some? && Truthy(old(users)[k.value].twoFactorSecret) && totp(token, old(users)[k.value].twoFactorSecret.value) ==>
          var u := old(users)[k.value];
          if !Truthy(jwtSecret) then
            r == Err("JWT_SECRET not configured") && users == old(users)[k.value := u.(isTwoFactorEnabled := true)]
          else
            r == Respond(u, GenerateToken(u, jwtSecret, sign))
            && users == old(users)[k.value := u.(isTwoFactorEnabled := true, lastLoginAt := Some(now))]
    {
      var k := FindUnique(users, IdColumn, userId);
      if k.None? || !Truthy(users[k.value].twoFactorSecret) {
        return Err("2FA not set up for this user");
      }
      var user := users[k.value];
      if !totp(token, user.twoFactorSecret.value) {
        return Err("Invalid 2FA token");
      }
      if !user.isTwoFactorEnabled {
        users := users[k.value := users[k.value].(isTwoFactorEnabled := true)];
      }
      var jwtToken := GenerateToken(user, jwtSecret, sign);
      if jwtToken.Err? {
        return Err(jwtToken.error);
      }
      users := users[k.value := users[k.value].(lastLoginAt := Some(now))];
      r := Respond(user, jwtToken);
    }

    /** `disable2FA`: refused unless two-factor login is on; then it is switched off and the secret erased. */
    method Disable2FA(userId: string) returns (r: Result<()>)
      requires Valid()
      modifies this
      ensures Valid() && jwtSecret == old(jwtSecret)
      ensures var k := FindUnique(old(users), IdColumn, userId);
        k.None? ==> r == Err("User not found") && users == old(users)
      ensures var k := FindUnique(old(users), IdColumn, userId);
        k.Some? && !old(users)[k.value].isTwoFactorEnabled ==> r == Err("2FA is not enabled") && users == old(users)
      ensures var k := FindUnique(old(users), IdColumn, userId);
        k.Some? && old(users)[k.value].isTwoFactorEnabled ==>
          r == Ok(()) && users == old(users)[k.value := old(users)[k.value].(isTwoFactorEnabled := false, twoFactorSecret := None)]
    {
      var k := FindUnique(users, IdColumn, userId);
      if k.None? {
        return Err("User not found");
      }
      if !users[k.value].isTwoFactorEnabled {
        return Err("2FA is not enabled");
      }
      users := users[k.value := users[k.value].(isTwoFactorEnabled := false, twoFactorSecret := None)];
      r := Ok(());
    }

    /** `updateUserRole`: refused for an unknown user; otherwise only that user's role changes. */
    method UpdateUserRole(userId: string, role: Role) returns (r: Result<()>)
      requires Valid()
      modifies this
      ensures Valid() && jwtSecret == old(jwtSecret)
      ensures var k := FindUnique(old(users), IdColumn, userId);
        k.None? ==> r == Err("User not found") && users == old(users)
      ensures var k := FindUnique(old(users), IdColumn, userId);
        k.Some? ==> r == Ok(()) && users == old(users)[k.value := old(users)[k.value].(role := role)]
    {
      var k := FindUnique(users, IdColumn, userId);
      if k.None? {
        return Err("User not found");
      }
      users := users[k.value := users[k.value].(role := role)];
      r := Ok(());
    }
  }
}
