/** Values shared by the back end and the front end: optional values, the JSON
    reply envelope `{success, data?, message?, error?}`, JavaScript truthiness of
    the request fields, and a few string operations the handlers rely on. */
module Values {

  datatype Option<+T> = None | Some(value: T)

  /** The body of a JSON reply: `{success: true, data?, message?}` or
      `{success: false, error}`. */
  datatype Body<+T> = Ok(data: Option<T>, message: Option<string>) | Err(error: string)

  /** An HTTP status together with the JSON body sent with it. */
  datatype Reply<+T> = Reply(status: int, body: Body<T>)

  function OkData<T>(x: T): Body<T> { Ok(Some(x), None) }

  function OkMessage<T>(m: string): Body<T> { Ok(None, Some(m)) }

  /** A field of a parsed JSON request body: `undefined` when the key is not
      there, `null`, or a value. */
  datatype Field<+T> = Absent | Null | Given(value: T)

  /** JavaScript truthiness of a string field: only a non-empty string is truthy. */
  predicate Truthy(f: Field<string>) {
    f.Given? && f.value != ""
  }

  /** JavaScript truthiness of a number field: 0 is falsy (JSON cannot carry NaN). */
  predicate TruthyNumber(f: Field<real>) {
    f.Given? && f.value != 0.0
  }

  /** JavaScript truthiness of a string that may be missing (a query
      parameter, a value read from storage). */
  predicate TruthyText(s: Option<string>) {
    s.Some? && s.value != ""
  }

  /** The value a field binds to an anonymous `?` parameter: better-sqlite3
      binds `undefined` and `null` alike as NULL. */
  function Bound<T>(f: Field<T>): (v: Option<T>)
    ensures v.Some? <==> f.Given?
    ensures v.Some? ==> v.value == f.value
  {
    if f.Given? then Some(f.value) else None
  }

  /** `s || null` for a string field. */
  function OrNull(f: Field<string>): Option<string> {
    if Truthy(f) then Some(f.value) else None
  }

  /** `x || null` for a number field. */
  function NumberOrNull(f: Field<real>): Option<real> {
    if TruthyNumber(f) then Some(f.value) else None
  }

  /** `s.endsWith(suffix)` */
  predicate EndsWith(s: string, suffix: string) {
    |suffix| <= |s| && s[|s| - |suffix|..] == suffix
  }

  /** `a + b` starts with `a` and ends with `b`. */
  lemma ConcatEnds(a: string, b: string)
    ensures a <= a + b && EndsWith(a + b, b)
  {
    assert (a + b)[..|a|] == a;
    assert (a + b)[|a + b| - |b|..] == b;
  }

  /** Number of occurrences of the character `c` in `s`. */
  function Occurrences(s: string, c: char): nat {
    if s == [] then 0 else (if s[0] == c then 1 else 0) + Occurrences(s[1..], c)
  }

  lemma {:induction false} OccurrencesAppend(a: string, b: string, c: char)
    ensures Occurrences(a + b, c) == Occurrences(a, c) + Occurrences(b, c)
  {
    if a == [] {
      assert a + b == b;
    } else {
      assert (a + b)[1..] == a[1..] + b;
      OccurrencesAppend(a[1..], b, c);
    }
  }

  lemma {:induction false} OccurrencesNone(s: string, c: char)
    requires c !in s
    ensures Occurrences(s, c) == 0
  {
    if s != [] {
      OccurrencesNone(s[1..], c);
    }
  }

  /** A prefix without `c` adds no occurrence. */
  lemma OccurrencesSkipPrefix(p: string, s: string, c: char)
    requires c !in p
    ensures Occurrences(p + s, c) == Occurrences(s, c)
  {
    OccurrencesAppend(p, s, c);
    OccurrencesNone(p, c);
  }

  /** A suffix without `c` adds no occurrence. */
  lemma OccurrencesSkipSuffix(s: string, p: string, c: char)
    requires c !in p
    ensures Occurrences(s + p, c) == Occurrences(s, c)
  {
    OccurrencesAppend(s, p, c);
    OccurrencesNone(p, c);
  }

  /** `p + m + s` for a suffix `s` without `c`: its ends and its count of `c`. */
  lemma Framed(p: string, m: string, s: string, c: char)
    requires c !in s
    ensures p <= p + m + s && EndsWith(p + m + s, s)
    ensures Occurrences(p + m + s, c) == Occurrences(p, c) + Occurrences(m, c)
  {
    assert p + m + s == p + (m + s);
    ConcatEnds(p, m + s);
    ConcatEnds(p + m, s);
    OccurrencesSkipSuffix(p + m, s, c);
    OccurrencesAppend(p, m, c);
  }

  /** `parts.join(sep)` */
  function Join(parts: seq<string>, sep: string): string {
    if parts == [] then ""
    else if |parts| == 1 then parts[0]
    else parts[0] + sep + Join(parts[1..], sep)
  }

  /** `s.indexOf(c)`, with `|s|` standing for "not found". */
  function IndexOfChar(s: string, c: char): (r: nat)
    ensures r <= |s|
    ensures r < |s| ==> s[r] == c
    ensures forall k :: 0 <= k < r ==> s[k] != c
  {
    if s == [] then 0 else if s[0] == c then 0 else 1 + IndexOfChar(s[1..], c)
  }

  lemma {:induction false} OccurrencesZero(s: string, c: char)
    requires Occurrences(s, c) == 0
    ensures c !in s
  {
    if s != [] {
      OccurrencesZero(s[1..], c);
      assert s == [s[0]] + s[1..];
    }
  }

  /** A character that occurs once does not occur anywhere else. */
  lemma OccursOnlyAt(s: string, i: nat, c: char)
    requires i < |s| && s[i] == c && Occurrences(s, c) == 1
    ensures forall k :: 0 <= k < |s| && k != i ==> s[k] != c
  {
    assert s == s[..i] + ([s[i]] + s[i + 1..]);
    OccurrencesAppend(s[..i], [s[i]] + s[i + 1..], c);
    OccurrencesAppend([s[i]], s[i + 1..], c);
    assert [s[i]][1..] == [];
    OccurrencesZero(s[..i], c);
    OccurrencesZero(s[i + 1..], c);
    forall k | 0 <= k < |s| && k != i ensures s[k] != c {
      if k < i {
        assert s[k] == s[..i][k];
      } else {
        assert s[k] == s[i + 1..][k - i - 1];
      }
    }
  }

  /** The characters JavaScript's `\s` matches. */
  predicate IsJsSpace(c: char) {
    c == '\t' || c == '\n' || c == '\U{000B}' || c == '\U{000C}' || c == '\r' || c == ' ' ||
    c == '\U{00A0}' || c == '\U{1680}' || ('\U{2000}' <= c <= '\U{200A}') ||
    c == '\U{2028}' || c == '\U{2029}' || c == '\U{202F}' || c == '\U{205F}' ||
    c == '\U{3000}' || c == '\U{FEFF}'
  }
}
