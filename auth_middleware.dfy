/** `authMiddleware(roles)` (middleware/authMiddleware.js): the decision a
    request meets before a protected handler runs. The JWT check is an opaque
    partial function handed in by the caller. */
module AuthMiddleware {
  import opened Common

  /** The payload a token carries: login signs `{ id, role }`. */
  datatype Payload = Payload(id: nat, role: string)

  /** `jwt.verify(token, secret)`: the decoded payload, or `None` where it
      throws (bad signature, expiry, malformed or empty token). */
  type Verifier = string -> Option<Payload>

  /** The three refusals and the pass, on which the payload becomes `req.user`
      and `next()` runs. */
  datatype Outcome = NoToken | InvalidToken | Forbidden | Pass(user: Payload)

  /** JavaScript's `s.split(sep)` for a one-character separator. */
  function Split(s: string, sep: char): (r: seq<string>)
    ensures |r| >= 1
    ensures forall i :: 0 <= i < |r| ==> sep !in r[i]
  {
    if s == [] then [[]]
    else
      var rest := Split(s[1..], sep);
      if s[0] == sep then [[]] + rest else [[s[0]] + rest[0]] + rest[1..]
  }

  /** `parts.join(sep)`. */
  function Join(parts: seq<string>, sep: char): string
    requires |parts| >= 1
  {
    if |parts| == 1 then parts[0] else parts[0] + [sep] + Join(parts[1..], sep)
  }

  /** Splitting loses nothing: joining the fields back gives the header. */
  lemma {:induction false} JoinSplit(s: string, sep: char)
    ensures Join(Split(s, sep), sep) == s
  {
    if s != [] {
      var rest := Split(s[1..], sep);
      JoinSplit(s[1..], sep);
      if s[0] == sep {
        assert Split(s, sep)[1..] == rest;
      } else {
        var r := Split(s, sep);
        assert r[0] == [s[0]] + rest[0];
        if |rest| == 1 {
          assert |r| == 1;
        } else {
          assert r[1..] == rest[1..];
          assert Join(r, sep) == [s[0]] + rest[0] + [sep] + Join(rest[1..], sep);
        }
      }
    }
  }

  /** A word free of the separator, then the separator, splits off as a field. */
  lemma {:induction false} SplitAfterWord(w: string, sep: char, rest: string)
    requires sep !in w
    ensures Split(w + [sep] + rest, sep) == [w] + Split(rest, sep)
  {
    if w == [] {
      assert w + [sep] + rest == [sep] + rest;
      assert ([sep] + rest)[1..] == rest;
    } else {
      assert (w + [sep] + rest)[1..] == w[1..] + [sep] + rest;
      SplitAfterWord(w[1..], sep, rest);
      assert [w[0]] + w[1..] == w;
    }
  }

  /** A string free of the separator is a single field. */
  lemma {:induction false} SplitWord(w: string, sep: char)
    requires sep !in w
    ensures Split(w, sep) == [w]
  {
    if w != [] {
      SplitWord(w[1..], sep);
      assert [w[0]] + w[1..] == w;
    }
  }

  /** There is a second field exactly when the separator occurs. */
  lemma {:induction false} SplitFields(s: string, sep: char)
    ensures |Split(s, sep)| >= 2 <==> sep in s
  {
    if s != [] {
      SplitFields(s[1..], sep);
      assert s == [s[0]] + s[1..];
    }
  }

  /** `authHeader.split(' ')[1]`: the second space-separated field, or `None`
      (JavaScript's `undefined`) when the header has no space. */
  function Token(header: string): (r: Option<string>)
    ensures r.Some? <==> ' ' in header
    ensures r.Some? ==> ' ' !in r.value
  {
    var fields := Split(header, ' ');
    SplitFields(header, ' ');
    if |fields| >= 2 then Some(fields[1]) else None
  }

  /** The `Bearer <token>` header the front end sends yields its token. */
  lemma BearerToken(t: string)
    requires ' ' !in t
    ensures Token("Bearer " + t) == Some(t)
  {
    assert "Bearer " + t == "Bearer" + [' '] + t;
    SplitAfterWord("Bearer", ' ', t);
    SplitWord(t, ' ');
  }

  /** The middleware's decision for an `Authorization` header (`None` when
      absent): no header, or an empty one, is refused before anything else;
      then the token is verified; only a verified payload meets the role test,
      which an empty role list skips. */
  function Gate(header: Option<string>, roles: seq<string>, verify: Verifier): (o: Outcome)
    ensures o == NoToken <==> header.None? || header.value == ""
    ensures o == InvalidToken <==>
      header.Some? && header.value != "" &&
      (Token(header.value).None? || verify(Token(header.value).value).None?)
    ensures o == Forbidden ==>
      header.Some? && Token(header.value).Some? && verify(Token(header.value).value).Some? &&
      roles != [] && verify(Token(header.value).value).value.role !in roles
    ensures o.Pass? ==>
      header.Some? && Token(header.value).Some? &&
      verify(Token(header.value).value) == Some(o.user) &&
      (roles == [] || o.user.role in roles)
  {
    match header
    case None => NoToken
    case Some(h) =>
      if h == "" then NoToken
      else match Token(h)
        case None => InvalidToken
        case Some(t) =>
          match verify(t)
          case None => InvalidToken
          case Some(decoded) =>
            if |roles| > 0 && decoded.role !in roles then Forbidden else Pass(decoded)
  }

  /** With no roles required, every verified token passes. */
  lemma EmptyRolesPassVerified(header: string, verify: Verifier)
    requires header != "" && Token(header).Some? && verify(Token(header).value).Some?
    ensures Gate(Some(header), [], verify) == Pass(verify(Token(header).value).value)
  {
  }

  /** The verdict of a verified token depends on the role alone: it passes
      exactly when the role list is empty or names the payload's role. */
  lemma VerifiedTokenVerdict(header: string, roles: seq<string>, verify: Verifier)
    requires header != "" && Token(header).Some? && verify(Token(header).value).Some?
    ensures var p := verify(Token(header).value).value;
      Gate(Some(header), roles, verify) == (if roles == [] || p.role in roles then Pass(p) else Forbidden)
  {
  }

  /** The reply with which the middleware ends a refused request. */
  function Deny<T>(o: Outcome): (r: Reply<T>)
    requires !o.Pass?
    ensures r.Err? && (r.code == 401 || r.code == 403)
    ensures r.code == 403 <==> o == Forbidden
    ensures o == NoToken ==> r.message == "No token provided"
    ensures o == InvalidToken ==> r.message == "Invalid token"
    ensures o == Forbidden ==> r.message == "Access denied"
  {
    match o
    case NoToken => Err(401, "No token provided")
    case InvalidToken => Err(401, "Invalid token")
    case Forbidden => Err(403, "Access denied")
  }
}
