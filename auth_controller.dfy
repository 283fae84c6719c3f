/** Registration, login, the current-user lookup and the `authenticateToken`
    gateway. bcrypt and JSON Web Tokens are not modelled: `hash`, `compare`,
    `sign` and `verify` are parameters standing for `bcrypt.hashSync`,
    `bcrypt.compareSync`, `jwt.sign` and `jwt.verify` under the server's
    secret and expiry. */
module AuthController {
  import opened Values
  import opened Tables

  const FieldsRequired := "姓名、邮箱和密码都是必填项"
  const BadEmail := "邮箱格式不正确"
  const ShortPassword := "密码长度至少为6位"
  const EmailRegistered := "该邮箱已被注册"
  const RegisterFailed := "注册失败，请稍后重试"
  const LoginFieldsRequired := "邮箱和密码都是必填项"
  const BadCredentials := "邮箱或密码错误"
  const NoPasswordSet := "该账户未设置密码，请先注册"
  const UserMissing := "用户不存在"
  const NoToken := "未提供认证令牌"
  const BadToken := "令牌无效或已过期"

  /** The shortest password `register` accepts, in UTF-16 code units. */
  const MinPasswordLength := 6

  /** The payload signed into a token: `{id, email}`. */
  datatype Claims = Claims(id: int, email: string)

  /** The account as the auth replies show it: `{id, name, email}`. */
  datatype PublicUser = PublicUser(id: int, name: string, email: string)

  /** The `data` of a successful register or login: `{token, user}`. */
  datatype Session = Session(token: string, user: PublicUser)

  // ------------------------------------------------------------ email shape

  /** What `[^\s@]+` matches. */
  predicate Segment(x: string) {
    |x| > 0 && forall k :: 0 <= k < |x| ==> !IsJsSpace(x[k]) && x[k] != '@'
  }

  /** `/^[^\s@]+@[^\s@]+\.[^\s@]+$/.test(s)`: `s` splits as segment, `@`,
      segment, `.`, segment. */
  predicate MatchesEmailPattern(s: string) {
    exists i, j :: 0 < i < j < |s| - 1 && s[i] == '@' && s[j] == '.' &&
      Segment(s[..i]) && Segment(s[i + 1..j]) && Segment(s[j + 1..])
  }

  predicate NoJsSpace(s: string) {
    forall k :: 0 <= k < |s| ==> !IsJsSpace(s[k])
  }

  /** A `.` with at least one character on each side. */
  predicate HasInnerDot(d: string) {
    exists j :: 0 < j < |d| - 1 && d[j] == '.'
  }

  /** The reading of the pattern in plain terms: no whitespace, exactly one
      `@`, something before it, and a domain with a `.` strictly inside. */
  predicate EmailAccepted(s: string) {
    NoJsSpace(s) && Occurrences(s, '@') == 1 &&
    var i := IndexOfChar(s, '@'); 0 < i < |s| && HasInnerDot(s[i + 1..])
  }

  lemma EmailPatternMeaning(s: string)
    ensures MatchesEmailPattern(s) <==> EmailAccepted(s)
  {
    if MatchesEmailPattern(s) {
      var i, j :| 0 < i < j < |s| - 1 && s[i] == '@' && s[j] == '.' &&
        Segment(s[..i]) && Segment(s[i + 1..j]) && Segment(s[j + 1..]);
      PatternIsAccepted(s, i, j);
    }
    if EmailAccepted(s) {
      AcceptedMatchesPattern(s);
    }
  }

  lemma PatternIsAccepted(s: string, i: nat, j: nat)
    requires 0 < i < j < |s| - 1 && s[i] == '@' && s[j] == '.'
    requires Segment(s[..i]) && Segment(s[i + 1..j]) && Segment(s[j + 1..])
    ensures EmailAccepted(s)
  {
    forall k | 0 <= k < |s| ensures !IsJsSpace(s[k]) && (k != i ==> s[k] != '@') {
      if k < i {
        assert s[k] == s[..i][k];
      } else if i < k < j {
        assert s[k] == s[i + 1..j][k - i - 1];
      } else if j < k {
        assert s[k] == s[j + 1..][k - j - 1];
      }
    }
    var pre, post := s[..i], s[i + 1..];
    assert s == pre + ([s[i]] + post);
    OccurrencesNone(pre, '@');
    assert '@' !in post by {
      forall m | 0 <= m < |post| ensures post[m] != '@' {
        assert post[m] == s[i + 1 + m];
      }
    }
    OccurrencesNone(post, '@');
    OccurrencesAppend(pre, [s[i]] + post, '@');
    OccurrencesAppend([s[i]], post, '@');
    assert [s[i]][1..] == [];
    assert IndexOfChar(s, '@') == i;
    assert post[j - i - 1] == '.';
  }

  lemma AcceptedMatchesPattern(s: string)
    requires EmailAccepted(s)
    ensures MatchesEmailPattern(s)
  {
    var i := IndexOfChar(s, '@');
    var d := s[i + 1..];
    var m :| 0 < m < |d| - 1 && d[m] == '.';
    var j := i + 1 + m;
    assert s[j] == '.';
    OccursOnlyAt(s, i, '@');
    assert Segment(s[..i]) by {
      forall k | 0 <= k < i ensures !IsJsSpace(s[..i][k]) && s[..i][k] != '@' {
        assert s[..i][k] == s[k];
      }
    }
    var mid, last := s[i + 1..j], s[j + 1..];
    assert Segment(mid) by {
      forall k | 0 <= k < |mid| ensures !IsJsSpace(mid[k]) && mid[k] != '@' {
        assert mid[k] == s[i + 1 + k];
      }
    }
    assert Segment(last) by {
      forall k | 0 <= k < |last| ensures !IsJsSpace(last[k]) && last[k] != '@' {
        assert last[k] == s[j + 1 + k];
      }
    }
  }

  // ------------------------------------------------------------ password length

  /** `s.length` in JavaScript: UTF-16 code units, two for a character
      outside the Basic Multilingual Plane. */
  function Utf16Length(s: string): (n: nat)
    ensures |s| <= n <= 2 * |s|
  {
    if s == [] then 0 else (if s[0] as int >= 0x1_0000 then 2 else 1) + Utf16Length(s[1..])
  }

  lemma {:induction false} Utf16LengthOfBmp(s: string)
    requires forall k :: 0 <= k < |s| ==> (s[k] as int) < 0x1_0000
    ensures Utf16Length(s) == |s|
  {
    if s != [] {
      Utf16LengthOfBmp(s[1..]);
    }
  }

  // ------------------------------------------------------------ register

  /** `req.body` of `register`. */
  datatype RegisterBody = RegisterBody(name: Field<string>, email: Field<string>, password: Field<string>)

  /** The first validation of `register` that fails, if any: required
      fields, then the email pattern, then the password length. */
  function RegistrationError(b: RegisterBody): (e: Option<string>)
    ensures e.None? <==>
      Truthy(b.name) && Truthy(b.email) && Truthy(b.password) &&
      EmailAccepted(b.email.value) && Utf16Length(b.password.value) >= MinPasswordLength
    ensures !(Truthy(b.name) && Truthy(b.email) && Truthy(b.password)) ==> e == Some(FieldsRequired)
    ensures Truthy(b.name) && Truthy(b.email) && Truthy(b.password) && !EmailAccepted(b.email.value) ==>
      e == Some(BadEmail)
    ensures (Truthy(b.name) && Truthy(b.email) && Truthy(b.password) && EmailAccepted(b.email.value) &&
             Utf16Length(b.password.value) < MinPasswordLength) ==> e == Some(ShortPassword)
  {
    if !Truthy(b.name) || !Truthy(b.email) || !Truthy(b.password) then Some(FieldsRequired)
    else
      EmailPatternMeaning(b.email.value);
      if !MatchesEmailPattern(b.email.value) then Some(BadEmail)
      else if Utf16Length(b.password.value) < MinPasswordLength then Some(ShortPassword)
      else None
  }

  /** A password of exactly six characters of the Basic Multilingual Plane
      passes the length check; five do not. */
  lemma SixCharactersSuffice(b: RegisterBody)
    requires Truthy(b.name) && Truthy(b.email) && Truthy(b.password) && EmailAccepted(b.email.value)
    requires forall k :: 0 <= k < |b.password.value| ==> (b.password.value[k] as int) < 0x1_0000
    ensures |b.password.value| == 6 ==> RegistrationError(b).None?
    ensures |b.password.value| == 5 ==> RegistrationError(b) == Some(ShortPassword)
  {
    Utf16LengthOfBmp(b.password.value);
  }

  /** `register` */
  method Register(users: UserTable, body: RegisterBody, hash: string -> string,
                  sign: Claims -> string, now: Timestamp) returns (r: Reply<Session>)
    requires users.Valid()
    modifies users
    ensures users.Valid()
    ensures RegistrationError(body).Some? ==>
      r == Reply(400, Err(RegistrationError(body).value)) &&
      users.rows == old(users.rows) && users.nextId == old(users.nextId)
    ensures RegistrationError(body).None? && EmailTaken(old(users.rows), body.email.value) ==>
      r == Reply(400, Err(EmailRegistered)) &&
      users.rows == old(users.rows) && users.nextId == old(users.nextId)
    ensures RegistrationError(body).None? && !EmailTaken(old(users.rows), body.email.value) ==>
      var id := old(users.nextId);
      var name, email := body.name.value, body.email.value;
      r == Reply(201, OkData(Session(sign(Claims(id, email)), PublicUser(id, name, email)))) &&
      users.rows == old(users.rows) + [User(id, name, email, Some(hash(body.password.value)), now, now)] &&
      users.nextId == id + 1
  {
    var invalid := RegistrationError(body);
    if invalid.Some? {
      return Reply(400, Err(invalid.value));
    }
    var name, email, password := body.name.value, body.email.value, body.password.value;
    var existing := FindByEmail(users.rows, email);
    if existing.Some? {
      return Reply(400, Err(EmailRegistered));
    }
    var hashed := hash(password);
    var result := users.Insert(name, email, Some(hashed), now);
    match result {
      case Inserted(id) =>
        var token := sign(Claims(id, email));
        r := Reply(201, OkData(Session(token, PublicUser(id, name, email))));
      case InsertFailed(_) =>
        r := Reply(500, Err(RegisterFailed));
    }
  }

  // ------------------------------------------------------------ login

  /** `req.body` of `login`. */
  datatype LoginBody = LoginBody(email: Field<string>, password: Field<string>)

  /** `login`: `compare(plain, stored)` stands for `bcrypt.compareSync`. */
  function Login(rows: seq<User>, b: LoginBody, compare: (string, string) -> bool,
                 sign: Claims -> string): (r: Reply<Session>)
    ensures !Truthy(b.email) || !Truthy(b.password) ==> r == Reply(400, Err(LoginFieldsRequired))
    ensures Truthy(b.email) && Truthy(b.password) && !EmailTaken(rows, b.email.value) ==>
      r == Reply(401, Err(BadCredentials))
    ensures r.status == 200 ==>
      Truthy(b.email) && Truthy(b.password) &&
      exists u :: u in rows && u.email == b.email.value && TruthyText(u.password) &&
        compare(b.password.value, u.password.value) &&
        r == Reply(200, OkData(Session(sign(Claims(u.id, u.email)), PublicUser(u.id, u.name, u.email))))
    ensures r.status != 200 ==> r.body.Err? && (r.status == 400 || r.status == 401)
  {
    if !Truthy(b.email) || !Truthy(b.password) then Reply(400, Err(LoginFieldsRequired))
    else match FindByEmail(rows, b.email.value)
      case None => Reply(401, Err(BadCredentials))
      case Some(u) =>
        if !TruthyText(u.password) then Reply(401, Err(NoPasswordSet))
        else if !compare(b.password.value, u.password.value) then Reply(401, Err(BadCredentials))
        else Reply(200, OkData(Session(sign(Claims(u.id, u.email)), PublicUser(u.id, u.name, u.email))))
  }

  /** With unique emails, login succeeds exactly for an account with that
      email whose stored hash accepts the password. */
  lemma LoginSucceedsIff(rows: seq<User>, b: LoginBody, compare: (string, string) -> bool, sign: Claims -> string)
    requires UniqueEmails(rows)
    ensures Login(rows, b, compare, sign).status == 200 <==>
      Truthy(b.email) && Truthy(b.password) &&
      exists u :: u in rows && u.email == b.email.value && TruthyText(u.password) &&
        compare(b.password.value, u.password.value)
  {
    if Truthy(b.email) && Truthy(b.password) {
      var found := FindByEmail(rows, b.email.value);
      forall u | u in rows && u.email == b.email.value ensures found == Some(u) {
        var i :| 0 <= i < |rows| && rows[i] == u;
        var k :| 0 <= k < |rows| && rows[k] == found.value;
        assert i == k;
      }
    }
  }

  /** An unknown email and a wrong password get the same reply, so the reply
      does not tell whether an account exists. */
  lemma UnknownEmailLooksLikeWrongPassword(rows1: seq<User>, rows2: seq<User>, b: LoginBody,
                                           compare: (string, string) -> bool, sign: Claims -> string)
    requires Truthy(b.email) && Truthy(b.password)
    requires !EmailTaken(rows1, b.email.value)
    requires FindByEmail(rows2, b.email.value).Some?
    requires var u := FindByEmail(rows2, b.email.value).value;
      TruthyText(u.password) && !compare(b.password.value, u.password.value)
    ensures Login(rows1, b, compare, sign) == Login(rows2, b, compare, sign) == Reply(401, Err(BadCredentials))
  {
  }

  /** An account without a stored password gets a reply of its own. */
  lemma PasswordlessAccountIsReported(rows: seq<User>, b: LoginBody, compare: (string, string) -> bool,
                                      sign: Claims -> string)
    requires Truthy(b.email) && Truthy(b.password)
    requires FindByEmail(rows, b.email.value).Some? && !TruthyText(FindByEmail(rows, b.email.value).value.password)
    ensures Login(rows, b, compare, sign) == Reply(401, Err(NoPasswordSet))
    ensures Login(rows, b, compare, sign) != Reply(401, Err(BadCredentials))
  {
    assert NoPasswordSet != BadCredentials by { assert NoPasswordSet[0] != BadCredentials[0]; }
  }

  // ------------------------------------------------------------ current user

  /** The row `SELECT id, name, email, created_at FROM users` returns. */
  datatype Profile = Profile(id: nat, name: string, email: string, createdAt: Timestamp)

  /** `getCurrentUser`, for the claims the gateway put on the request. */
  function GetCurrentUser(rows: seq<User>, claims: Claims): (r: Reply<Profile>)
    ensures r.status == 200 <==> exists i :: 0 <= i < |rows| && rows[i].id == claims.id
    ensures r.status == 200 ==>
      exists u :: u in rows && u.id == claims.id &&
        r == Reply(200, OkData(Profile(u.id, u.name, u.email, u.createdAt)))
    ensures r.status != 200 ==> r == Reply(404, Err(UserMissing))
  {
    match UserIndex(rows, claims.id)
    case None => Reply(404, Err(UserMissing))
    case Some(k) =>
      var u := rows[k];
      Reply(200, OkData(Profile(u.id, u.name, u.email, u.createdAt)))
  }

  // ------------------------------------------------------------ gateway

  /** `s.split(sep)` for a one-character separator: the fields between
      separators, empty ones included. */
  function Split(s: string, sep: char): (parts: seq<string>)
    ensures |parts| >= 1
    ensures forall k :: 0 <= k < |parts| ==> sep !in parts[k]
    decreases |s|
  {
    if sep !in s then [s]
    else
      var i := IndexOfChar(s, sep);
      [s[..i]] + Split(s[i + 1..], sep)
  }

  /** Joining the fields with the separator gives the string back. */
  lemma {:induction false} SplitJoin(s: string, sep: char)
    ensures Join(Split(s, sep), [sep]) == s
    decreases |s|
  {
    if sep in s {
      var i := IndexOfChar(s, sep);
      var rest := Split(s[i + 1..], sep);
      SplitJoin(s[i + 1..], sep);
      assert Split(s, sep)[1..] == rest;
      assert s == s[..i] + [sep] + s[i + 1..];
    }
  }

  lemma SplitAtFirst(w: string, t: string, sep: char)
    requires sep !in w
    ensures Split(w + [sep] + t, sep) == [w] + Split(t, sep)
  {
    var s := w + [sep] + t;
    assert s[|w|] == sep;
    assert IndexOfChar(s, sep) == |w| by {
      forall k | 0 <= k < |w| ensures s[k] != sep {
        assert s[k] == w[k];
      }
    }
    assert s[..|w|] == w;
    assert s[|w| + 1..] == t;
  }

  /** `authHeader && authHeader.split(' ')[1]`, kept only when truthy: the
      second space-separated field, whatever the first one says. */
  function ExtractToken(header: Option<string>): (t: Option<string>)
    ensures t.Some? ==> header.Some? && t.value != "" && ' ' !in t.value
  {
    if header.None? then None
    else
      var parts := Split(header.value, ' ');
      if |parts| >= 2 && parts[1] != "" then Some(parts[1]) else None
  }

  /** The form of section 2.1 of RFC 6750, `Bearer <token>`, yields the token;
      so does any other single word in place of `Bearer`, even an empty one. */
  lemma ExtractTokenOfTwoWords(scheme: string, token: string)
    requires ' ' !in scheme && ' ' !in token && token != ""
    ensures ExtractToken(Some(scheme + " " + token)) == Some(token)
  {
    SplitAtFirst(scheme, token, ' ');
  }

  /** A header without a space has no second field. */
  lemma ExtractTokenWithoutSpace(h: string)
    requires ' ' !in h
    ensures ExtractToken(Some(h)) == None
  {
  }

  /** Two spaces after the first word leave an empty second field. */
  lemma ExtractTokenDoubleSpace(scheme: string, rest: string)
    requires ' ' !in scheme
    ensures ExtractToken(Some(scheme + "  " + rest)) == None
  {
    SplitAtFirst(scheme, " " + rest, ' ');
    SplitAtFirst("", rest, ' ');
    assert scheme + "  " + rest == scheme + [' '] + (" " + rest);
    assert " " + rest == "" + [' '] + rest;
  }

  /** What `authenticateToken` does with a request. */
  datatype GateOutcome = Reject(reply: Reply<()>) | Forward(claims: Claims)

  /** The gateway's decision: 401 without a token, 403 when `verify` refuses
      it, otherwise the decoded claims go on to the handler. */
  function Gate(header: Option<string>, verify: string -> Option<Claims>): (g: GateOutcome)
    ensures g.Forward? <==> ExtractToken(header).Some? && verify(ExtractToken(header).value).Some?
    ensures g.Forward? ==> g.claims == verify(ExtractToken(header).value).value
    ensures g.Reject? ==> g.reply.status == 401 || g.reply.status == 403
    ensures g == Reject(Reply(401, Err(NoToken))) <==> ExtractToken(header).None?
    ensures ExtractToken(header).Some? && verify(ExtractToken(header).value).None? ==>
      g == Reject(Reply(403, Err(BadToken)))
  {
    match ExtractToken(header)
    case None => Reject(Reply(401, Err(NoToken)))
    case Some(t) =>
      match verify(t)
      case None => Reject(Reply(403, Err(BadToken)))
      case Some(c) => Forward(c)
  }

  /** For a well-formed `Bearer` header the outcome depends on the token only. */
  lemma GateOnTwoWords(scheme: string, token: string, verify: string -> Option<Claims>)
    requires ' ' !in scheme && ' ' !in token && token != ""
    ensures Gate(Some(scheme + " " + token), verify) ==
      if verify(token).Some? then Forward(verify(token).value) else Reject(Reply(403, Err(BadToken)))
  {
    ExtractTokenOfTwoWords(scheme, token);
  }

  /** The request and response objects the middleware touches: `req.user`,
      the calls of `next` and the reply sent, if any. */
  class Exchange {
    var user: Option<Claims>
    var nextCalls: nat
    var sent: Option<Reply<()>>

    constructor ()
      ensures user == None && nextCalls == 0 && sent == None
    {
      user, nextCalls, sent := None, 0, None;
    }
  }

  /** `authenticateToken`: either a reply is sent and `next` is not called,
      or `req.user` is set and `next` is called once. */
  method AuthenticateToken(x: Exchange, header: Option<string>, verify: string -> Option<Claims>)
    modifies x
    ensures match Gate(header, verify)
      case Reject(reply) =>
        x.sent == Some(reply) && x.user == old(x.user) && x.nextCalls == old(x.nextCalls)
      case Forward(c) =>
        x.user == Some(c) && x.nextCalls == old(x.nextCalls) + 1 && x.sent == old(x.sent)
    ensures ExtractToken(header).None? ==>
      x.sent == Some(Reply(401, Err(NoToken))) && x.user == old(x.user) && x.nextCalls == old(x.nextCalls)
    ensures ExtractToken(header).Some? && verify(ExtractToken(header).value).None? ==>
      x.sent == Some(Reply(403, Err(BadToken))) && x.user == old(x.user) && x.nextCalls == old(x.nextCalls)
    ensures ExtractToken(header).Some? && verify(ExtractToken(header).value).Some? ==>
      x.user == verify(ExtractToken(header).value) && x.nextCalls == old(x.nextCalls) + 1 &&
      x.sent == old(x.sent)
  {
    var token := ExtractToken(header);
    if token.None? {
      x.sent := Some(Reply(401, Err(NoToken)));
      return;
    }
    var decoded := verify(token.value);
    if decoded.None? {
      x.sent := Some(Reply(403, Err(BadToken)));
      return;
    }
    x.user := decoded;
    x.nextCalls := x.nextCalls + 1;
  }
}
