/** The two authentication gates of the API, `authenticateUser` and
    `authorizeAdmin`, and the token helper that signs the claims they read.
    `jwt.sign` and `jwt.verify` are parameters. */
module Authentication {
  import opened Common
  import opened Domain

  /** The payload of a token, as signed and as decoded. */
  datatype Claims = Claims(id: string, email: string, role: string)

  /** What `authenticateUser` attaches to the request as `req.user`. */
  datatype AuthUser = AuthUser(id: string, email: string, role: string)

  const BearerPrefix: string := "Bearer "

  predicate StartsWith(s: string, prefix: string) {
    |prefix| <= |s| && s[..|prefix|] == prefix
  }

  /** `s.split(sep)`: the segments between separators, empty ones included. */
  function Split(s: string, sep: char): (parts: seq<string>)
    ensures |parts| >= 1
    ensures forall k :: 0 <= k < |parts| ==> sep !in parts[k]
    ensures sep in s ==> |parts| >= 2
  {
    if s == [] then [""]
    else if s[0] == sep then [""] + Split(s[1..], sep)
    else
      var rest := Split(s[1..], sep);
      [[s[0]] + rest[0]] + rest[1..]
  }

  /** `parts.join(sep)`. */
  function Join(parts: seq<string>, sep: char): string
    requires |parts| >= 1
  {
    if |parts| == 1 then parts[0] else parts[0] + [sep] + Join(parts[1..], sep)
  }

  /** Joining the segments gives back the string that was split. */
  lemma {:induction false} JoinSplit(s: string, sep: char)
    ensures Join(Split(s, sep), sep) == s
  {
    if s != [] {
      JoinSplit(s[1..], sep);
      var rest := Split(s[1..], sep);
      if s[0] != sep {
        var parts := [[s[0]] + rest[0]] + rest[1..];
        if |rest| > 1 {
          assert parts[1..] == rest[1..];
          assert Join(rest, sep) == rest[0] + [sep] + Join(rest[1..], sep);
        }
        assert s == [s[0]] + s[1..];
      } else {
        assert s == [sep] + s[1..];
      }
    }
  }

  /** A word without the separator, the separator, then the rest: the word
      is the first segment. */
  lemma {:induction false} SplitWord(w: string, rest: string, sep: char)
    requires sep !in w
    ensures Split(w + [sep] + rest, sep) == [w] + Split(rest, sep)
  {
    if w == [] {
      assert w + [sep] + rest == [sep] + rest;
    } else {
      var s := w + [sep] + rest;
      assert s[0] == w[0];
      assert s[1..] == w[1..] + [sep] + rest;
      SplitWord(w[1..], rest, sep);
      assert [w[0]] + w[1..] == w;
    }
  }

  lemma {:induction false} SplitNoSeparator(s: string, sep: char)
    requires sep !in s
    ensures Split(s, sep) == [s]
  {
    if s != [] {
      SplitNoSeparator(s[1..], sep);
      assert [s[0]] + s[1..] == s;
    }
  }

  /** The token of an `Authorization` header: absent when there is no
      header or it does not start with "Bearer ", otherwise the second
      space-separated segment. */
  function BearerToken(header: Option<string>): (t: Option<string>)
    ensures t.Some? <==> header.Some? && StartsWith(header.value, BearerPrefix)
    ensures t.Some? ==> ' ' !in t.value
  {
    if header.Some? && StartsWith(header.value, BearerPrefix) then
      var h := header.value;
      assert ' ' in h by { assert h[6] == ' '; }
      Some(Split(h, ' ')[1])
    else None
  }

  /** The token is what follows "Bearer " up to the next space. */
  lemma BearerTokenOf(t: string, tail: string)
    requires ' ' !in t
    ensures BearerToken(Some(BearerPrefix + t)) == Some(t)
    ensures BearerToken(Some(BearerPrefix + t + " " + tail)) == Some(t)
  {
    assert ' ' !in "Bearer";
    assert BearerPrefix + t == "Bearer" + [' '] + t;
    SplitWord("Bearer", t, ' ');
    SplitNoSeparator(t, ' ');
    assert BearerPrefix + t + " " + tail == "Bearer" + [' '] + (t + [' '] + tail);
    SplitWord("Bearer", t + [' '] + tail, ' ');
    SplitWord(t, tail, ' ');
  }

  /** The decision of `authenticateUser`: InternalError when the signing
      secret is missing (before the header is looked at), Unauthorized for a
      missing or malformed header or a token that does not verify, else the
      identity the token carries. */
  function Authenticate(secret: Option<string>, header: Option<string>,
                        verify: (string, string) -> Option<Claims>): (r: Result<AuthUser>)
    ensures !Defined(secret) ==> r == Failure(InternalError)
    ensures Defined(secret) && BearerToken(header).None? ==> r == Failure(Unauthorized)
    ensures Defined(secret) && BearerToken(header).Some? ==>
      match verify(BearerToken(header).value, secret.value)
      case None => r == Failure(Unauthorized)
      case Some(c) => r == Success(AuthUser(c.id, c.email, c.role))
  {
    if !Defined(secret) then Failure(InternalError)
    else match BearerToken(header)
      case None => Failure(Unauthorized)
      case Some(token) =>
        match verify(token, secret.value)
        case None => Failure(Unauthorized)
        case Some(decoded) => Success(AuthUser(decoded.id, decoded.email, decoded.role))
  }

  /** The parts of an Express request the gates read and write. */
  class Request {
    var authorization: Option<string>
    var user: Option<AuthUser>

    constructor (authorization: Option<string>)
      ensures this.authorization == authorization && user == None
    {
      this.authorization := authorization;
      user := None;
    }
  }

  /** `authenticateUser`: on success `req.user` is set to the token's
      identity and the chain goes on; on failure nothing is written. */
  method AuthenticateUser(req: Request, secret: Option<string>, verify: (string, string) -> Option<Claims>)
    returns (o: Outcome)
    modifies req
    ensures req.authorization == old(req.authorization)
    ensures var a := Authenticate(secret, old(req.authorization), verify);
      && (a.Success? ==> o == Pass && req.user == Some(a.value))
      && (a.Failure? ==> o == Fail(a.error) && req.user == old(req.user))
  {
    if !Defined(secret) {
      return Fail(InternalError);
    }
    var token := BearerToken(req.authorization);
    if token.None? {
      return Fail(Unauthorized);
    }
    var decoded := verify(token.value, secret.value);
    if decoded.None? {
      return Fail(Unauthorized);
    }
    req.user := Some(AuthUser(decoded.value.id, decoded.value.email, decoded.value.role));
    o := Pass;
  }

  /** `authorizeAdmin`: passes exactly when the request carries a user whose
      role is the string "ADMIN". */
  function AuthorizeAdmin(user: Option<AuthUser>): (o: Outcome)
    ensures o == Pass <==> user.Some? && user.value.role == "ADMIN"
    ensures o != Pass ==> o == Fail(Unauthorized)
  {
    if user.Some? && user.value.role == "ADMIN" then Pass else Fail(Unauthorized)
  }

  /** `generateJwtToken`: InternalError when the secret is missing, else the
      signed claims `{id, email, role}` of the user. The one-day expiry is a
      clock matter and is not modelled. */
  function GenerateJwtToken(secret: Option<string>, sign: (Claims, string) -> string, u: User): (r: Result<string>)
    ensures r.Failure? <==> !Defined(secret)
    ensures r.Failure? ==> r.error == InternalError
    ensures r.Success? ==> r.value == sign(Claims(u.id, u.email, RoleName(u.role)), secret.value)
  {
    if !Defined(secret) then Failure(InternalError)
    else Success(sign(Claims(u.id, u.email, RoleName(u.role)), secret.value))
  }

  /** A token issued for a user and presented as "Bearer <token>" to the same
      secret authenticates as that user, provided `verify` accepts what
      `sign` produced and the token has no space in it; the admin gate then
      passes exactly for ADMIN users. */
  lemma IssuedTokenAuthenticates(secret: Option<string>, sign: (Claims, string) -> string,
                                 verify: (string, string) -> Option<Claims>, u: User)
    requires Defined(secret)
    requires var c := Claims(u.id, u.email, RoleName(u.role));
      ' ' !in sign(c, secret.value) && verify(sign(c, secret.value), secret.value) == Some(c)
    ensures var token := GenerateJwtToken(secret, sign, u).value;
      var a := Authenticate(secret, Some(BearerPrefix + token), verify);
      && a == Success(AuthUser(u.id, u.email, RoleName(u.role)))
      && (AuthorizeAdmin(Some(a.value)) == Pass <==> u.role == ADMIN)
  {
    var token := GenerateJwtToken(secret, sign, u).value;
    BearerTokenOf(token, "");
  }
}
