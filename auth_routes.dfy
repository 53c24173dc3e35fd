/** The user registry of routes/authRoutes.js: sign-up keeps emails unique and
    stores a hashed password with a normalised role; login looks the user up,
    compares the password and signs a token carrying the user's id and role.
    bcrypt and jsonwebtoken are opaque functions handed in by the caller. */
module AuthRoutes {
  import opened Common
  import opened AuthMiddleware

  /** A row of the users table. */
  datatype User = User(id: nat, name: string, email: string, passwordHash: string, role: string)

  /** `bcrypt.hash(password, 10)`, with its salt fixed by the caller. */
  type Hasher = string -> string
  /** `bcrypt.compare(password, hash)`. */
  type Comparer = (string, string) -> bool
  /** `jwt.sign(payload, secret, { expiresIn: "2h" })`. */
  type Signer = Payload -> string

  const UserExistsMsg := "User already exists"
  const SignupFailedMsg := "Signup failed"
  const UserNotFoundMsg := "User not found"
  const InvalidPasswordMsg := "Invalid password"
  const LoginFailedMsg := "Login failed"
  const DefaultRole := "staff"

  function UserKey(u: User): nat { u.id }

  /** Two emails the `unique` column and the `where: { email }` lookup treat
      alike: the connection sets no collation, so the comparison is the
      server's default case-insensitive one. */
  predicate SameEmail(a: string, b: string)
  {
    Lower(a) == Lower(b)
  }

  /** Ids increase along the table and no two users share an email. */
  predicate TableInvariant(rows: seq<User>, nextId: nat)
  {
    KeysIncreasing(rows, UserKey, nextId) &&
    forall i, j :: 0 <= i < j < |rows| ==> !SameEmail(rows[i].email, rows[j].email)
  }

  /** `User.findOne({ where: { email } })`: the position of the user whose
      email matches, searched from the end of the table. */
  function FindByEmail(rows: seq<User>, email: string): (r: Option<nat>)
    ensures r.Some? ==> r.value < |rows| && SameEmail(rows[r.value].email, email)
    ensures r.None? <==> forall i :: 0 <= i < |rows| ==> !SameEmail(rows[i].email, email)
  {
    if rows == [] then None
    else if SameEmail(rows[|rows| - 1].email, email) then Some(|rows| - 1)
    else FindByEmail(rows[..|rows| - 1], email)
  }

  /** The ASCII part of `String.prototype.toLowerCase`. */
  function LowerChar(c: char): (d: char)
    ensures 'A' <= c <= 'Z' ==> d as int == c as int + 32
    ensures !('A' <= c <= 'Z') ==> d == c
  {
    if 'A' <= c <= 'Z' then (c as int + 32) as char else c
  }

  predicate IsLower(s: string)
  {
    forall i :: 0 <= i < |s| ==> !('A' <= s[i] <= 'Z')
  }

  function Lower(s: string): (r: string)
    ensures |r| == |s| && IsLower(r)
    ensures forall i :: 0 <= i < |s| ==> r[i] == LowerChar(s[i])
  {
    if s == [] then [] else [LowerChar(s[0])] + Lower(s[1..])
  }

  /** Lowercasing is idempotent, and leaves a lowercase string alone. */
  lemma LowerOfLower(s: string)
    ensures IsLower(s) ==> Lower(s) == s
  {
  }

  /** `role?.toLowerCase() || "staff"`: the default applies when the role is
      absent or empty; otherwise the stored role is the lowercased one. */
  function NormalizeRole(role: Option<string>): (r: string)
    ensures r != "" && IsLower(r)
    ensures role.None? || role.value == "" ==> r == DefaultRole
    ensures role.Some? && role.value != "" ==> r == Lower(role.value)
    ensures role.Some? && IsLower(role.value) && role.value != "" ==> r == role.value
  {
    match role
    case None => DefaultRole
    case Some(s) =>
      var l := Lower(s);
      if l == "" then DefaultRole
      else
        LowerOfLower(s);
        l
  }

  /** Differently capitalised spellings of a role are stored alike. */
  lemma RoleCaseIgnored()
    ensures NormalizeRole(Some("Admin")) == "admin" && NormalizeRole(Some("ADMIN")) == "admin"
  {
    var a, b := Lower("Admin"), Lower("ADMIN");
    assert a[0] == 'a' && b[1] == 'd' && b[2] == 'm' && b[3] == 'i' && b[4] == 'n';
    assert a == "admin";
    assert b == "admin";
  }

  /** `POST /register`. A missing email makes the lookup throw and a missing
      password makes the hash throw, both answered with 500, as is a missing
      name, which the not-null column refuses; a taken email is 400 before the
      password is looked at. */
  function RegisterStep(rows: seq<User>, nextId: nat, hash: Hasher,
                        name: Option<string>, email: Option<string>,
                        password: Option<string>, role: Option<string>): (s: Step<User, User>)
    requires TableInvariant(rows, nextId)
    ensures TableInvariant(s.rows, s.nextId)
    ensures email.Some? && FindByEmail(rows, email.value).Some? ==> s == Step(Err(400, UserExistsMsg), rows, nextId)
    ensures s.reply.Ok? <==>
      email.Some? && FindByEmail(rows, email.value).None? && password.Some? && name.Some?
    ensures s.reply.Ok? ==>
      s.reply.value == User(nextId, name.value, email.value, hash(password.value), NormalizeRole(role)) &&
      s.rows == rows + [s.reply.value] && s.nextId == nextId + 1
    ensures s.reply.Err? ==> s.rows == rows && s.nextId == nextId && s.reply.code in {400, 500}
  {
    if email.None? then Step(Err(500, SignupFailedMsg), rows, nextId)
    else if FindByEmail(rows, email.value).Some? then Step(Err(400, UserExistsMsg), rows, nextId)
    else if password.None? || name.None? then Step(Err(500, SignupFailedMsg), rows, nextId)
    else
      var user := User(nextId, name.value, email.value, hash(password.value), NormalizeRole(role));
      KeysIncreasingAppend(rows, UserKey, nextId, user);
      Step(Ok(user), rows + [user], nextId + 1)
  }

  /** `POST /login`: the signed token, or the reason it is refused. */
  function Login(rows: seq<User>, compare: Comparer, sign: Signer,
                 email: Option<string>, password: Option<string>): (r: Reply<string>)
    ensures email.Some? && FindByEmail(rows, email.value).None? ==> r == Err(404, UserNotFoundMsg)
    ensures r.Ok? <==>
      email.Some? && FindByEmail(rows, email.value).Some? && password.Some? &&
      compare(password.value, rows[FindByEmail(rows, email.value).value].passwordHash)
    ensures r.Ok? ==>
      var u := rows[FindByEmail(rows, email.value).value];
      r.value == sign(Payload(u.id, u.role))
    ensures (email.Some? && FindByEmail(rows, email.value).Some? && password.Some? &&
             !compare(password.value, rows[FindByEmail(rows, email.value).value].passwordHash))
            ==> r == Err(401, InvalidPasswordMsg)
    ensures (email.None? || (FindByEmail(rows, email.value).Some? && password.None?))
            ==> r == Err(500, LoginFailedMsg)
    ensures r.Err? && r.code == 401 ==> r.message == InvalidPasswordMsg
  {
    if email.None? then Err(500, LoginFailedMsg)
    else match FindByEmail(rows, email.value)
      case None => Err(404, UserNotFoundMsg)
      case Some(i) =>
        if password.None? then Err(500, LoginFailedMsg)
        else if !compare(password.value, rows[i].passwordHash) then Err(401, InvalidPasswordMsg)
        else Ok(sign(Payload(rows[i].id, rows[i].role)))
  }

  /** Once an email is registered, registering it again, in any
      capitalisation, is refused and changes nothing. */
  lemma RegisterTwiceRefused(rows: seq<User>, nextId: nat, hash: Hasher,
                             name: Option<string>, email: string, password: Option<string>, role: Option<string>,
                             name2: Option<string>, email2: string, password2: Option<string>, role2: Option<string>)
    requires TableInvariant(rows, nextId)
    requires RegisterStep(rows, nextId, hash, name, Some(email), password, role).reply.Ok?
    requires SameEmail(email, email2)
    ensures var s := RegisterStep(rows, nextId, hash, name, Some(email), password, role);
      RegisterStep(s.rows, s.nextId, hash, name2, Some(email2), password2, role2) ==
        Step(Err(400, UserExistsMsg), s.rows, s.nextId)
  {
    var s := RegisterStep(rows, nextId, hash, name, Some(email), password, role);
    assert s.rows[|s.rows| - 1].email == email;
    assert SameEmail(s.rows[|s.rows| - 1].email, email2);
  }

  /** A user just registered can log in, under any capitalisation of the
      email, with a password the comparison accepts against the stored hash,
      and receives a token for the new id and the normalised role. */
  lemma RegisteredUserLogsIn(rows: seq<User>, nextId: nat, hash: Hasher, compare: Comparer, sign: Signer,
                             name: string, email: string, loginEmail: string, password: string, role: Option<string>)
    requires TableInvariant(rows, nextId)
    requires FindByEmail(rows, email).None?
    requires SameEmail(email, loginEmail)
    requires compare(password, hash(password))
    ensures var s := RegisterStep(rows, nextId, hash, Some(name), Some(email), Some(password), role);
      Login(s.rows, compare, sign, Some(loginEmail), Some(password)) == Ok(sign(Payload(nextId, NormalizeRole(role))))
  {
    var s := RegisterStep(rows, nextId, hash, Some(name), Some(email), Some(password), role);
    assert s.rows[|s.rows| - 1].email == email;
  }

  /** Emails equal up to the case of their letters are the same email. */
  lemma {:induction false} CaseVariants(a: string, b: string)
    requires |a| == |b|
    requires forall i :: 0 <= i < |a| ==> LowerChar(a[i]) == LowerChar(b[i])
    ensures SameEmail(a, b)
  {
    assert forall i :: 0 <= i < |a| ==> Lower(a)[i] == Lower(b)[i];
  }

  /** "Alice@x.com" and "ALICE@x.com" name one user. */
  lemma CaseVariantExample()
    ensures SameEmail("Alice@x.com", "ALICE@x.com")
  {
    var a, b := "Alice@x.com", "ALICE@x.com";
    assert LowerChar('A') == 'a' && LowerChar('L') == 'l' && LowerChar('I') == 'i';
    assert LowerChar('C') == 'c' && LowerChar('E') == 'e';
    CaseVariants(a, b);
  }

  /** A login token sent back as `Bearer <token>` opens every route whose
      role list admits the user's role, provided verification inverts
      signing for the payload and the token holds no space. */
  lemma LoginTokenPassesGate(rows: seq<User>, compare: Comparer, sign: Signer, verify: Verifier,
                             email: string, password: string, roles: seq<string>)
    requires Login(rows, compare, sign, Some(email), Some(password)).Ok?
    requires var u := rows[FindByEmail(rows, email).value];
      verify(sign(Payload(u.id, u.role))) == Some(Payload(u.id, u.role)) &&
      ' ' !in sign(Payload(u.id, u.role)) &&
      (roles == [] || u.role in roles)
    ensures var u := rows[FindByEmail(rows, email).value];
      var token := Login(rows, compare, sign, Some(email), Some(password)).value;
      Gate(Some("Bearer " + token), roles, verify) == Pass(Payload(u.id, u.role))
  {
    var token := Login(rows, compare, sign, Some(email), Some(password)).value;
    BearerToken(token);
  }

  class UserTable {
    var rows: seq<User>
    var nextId: nat

    ghost predicate Valid()
      reads this
    {
      TableInvariant(rows, nextId)
    }

    constructor ()
      ensures Valid() && rows == [] && nextId == 1
    {
      rows := [];
      nextId := 1;
    }

    method Register(hash: Hasher, name: Option<string>, email: Option<string>,
                    password: Option<string>, role: Option<string>) returns (reply: Reply<User>)
      requires Valid()
      modifies this
      ensures Valid()
      ensures var s := RegisterStep(old(rows), old(nextId), hash, name, email, password, role);
        reply == s.reply && rows == s.rows && nextId == s.nextId
    {
      var s := RegisterStep(rows, nextId, hash, name, email, password, role);
      reply, rows, nextId := s.reply, s.rows, s.nextId;
    }

    /** Login reads the table and changes nothing. */
    method LogIn(compare: Comparer, sign: Signer, email: Option<string>, password: Option<string>)
      returns (reply: Reply<string>)
      requires Valid()
      ensures reply == Login(rows, compare, sign, email, password)
    {
      reply := Login(rows, compare, sign, email, password);
    }
  }
}
