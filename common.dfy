/** Values shared by the handlers and the client components: optional values,
    UTF-8 text as bytes, JavaScript whitespace and trimming, and thrown values. */
module Common {

  datatype Option<T> = None | Some(value: T)

  /** One octet of UTF-8 encoded text. */
  type Byte = b: int | 0 <= b < 256

  /** A JavaScript string, seen as its UTF-8 bytes (what `Buffer.from` produces). */
  type Text = seq<Byte>

  /** The bytes of an ASCII literal. Every literal of this model is ASCII, so the
      code point is the byte; the modulo only keeps the function total. */
  function Ascii(s: string): Text
  {
    seq(|s|, i requires 0 <= i < |s| => (s[i] as int) % 256)
  }

  const CR: Byte := 13
  const LF: Byte := 10

  /** The single-byte characters matched by `\s` and removed by `String.prototype.trim`:
      tab, line feed, vertical tab, form feed, carriage return and space. */
  predicate IsSpace(b: Byte)
  {
    b == 9 || b == 10 || b == 11 || b == 12 || b == 13 || b == 32
  }

  /** Every byte of `t` from index `lo` up to, not including, `hi` is whitespace. */
  predicate SpacesIn(t: Text, lo: nat, hi: nat)
    requires lo <= hi <= |t|
  {
    forall k | lo <= k < hi :: IsSpace(t[k])
  }

  predicate AllSpace(t: Text)
  {
    SpacesIn(t, 0, |t|)
  }

  /** The test `/[\r\n]/.test(t)`. */
  predicate HasLineBreak(t: Text)
  {
    CR in t || LF in t
  }

  /** JavaScript truthiness of an optional string field: present and non-empty. */
  predicate Truthy(o: Option<Text>)
  {
    o.Some? && |o.value| > 0
  }

  /** `trimStart`: the input without its leading whitespace. */
  function TrimStart(t: Text): (r: Text)
    ensures |r| <= |t|
    ensures r == [] || !IsSpace(r[0])
    decreases |t|
  {
    if |t| > 0 && IsSpace(t[0]) then TrimStart(t[1..]) else t
  }

  /** What `trimStart` removes is a run of whitespace at the front. */
  lemma {:induction false} TrimStartDropsSpaces(t: Text)
    ensures var r := TrimStart(t); r == t[|t| - |r|..] && SpacesIn(t, 0, |t| - |r|)
    decreases |t|
  {
    if |t| > 0 && IsSpace(t[0]) {
      var r := TrimStart(t[1..]);
      TrimStartDropsSpaces(t[1..]);
      assert t[1..][|t| - 1 - |r|..] == t[|t| - |r|..];
      forall k | 1 <= k < |t| - |r|
        ensures IsSpace(t[k])
      {
        assert t[k] == t[1..][k - 1];
      }
    }
  }

  /** `trimEnd`: the input without its trailing whitespace. */
  function TrimEnd(t: Text): (r: Text)
    ensures |r| <= |t|
    ensures r == [] || !IsSpace(r[|r| - 1])
    decreases |t|
  {
    if |t| > 0 && IsSpace(t[|t| - 1]) then TrimEnd(t[..|t| - 1]) else t
  }

  /** What `trimEnd` removes is a run of whitespace at the back. */
  lemma {:induction false} TrimEndDropsSpaces(t: Text)
    ensures var r := TrimEnd(t); r == t[..|r|] && SpacesIn(t, |r|, |t|)
    decreases |t|
  {
    if |t| > 0 && IsSpace(t[|t| - 1]) {
      var r := TrimEnd(t[..|t| - 1]);
      TrimEndDropsSpaces(t[..|t| - 1]);
      assert t[..|t| - 1][..|r|] == t[..|r|];
      forall k | |r| <= k < |t| - 1
        ensures IsSpace(t[k])
      {
        assert t[k] == t[..|t| - 1][k];
      }
    }
  }

  /** `r` is the part of `t` that starts at `i`, with only whitespace before and after it. */
  predicate IsSliceBetweenSpaces(t: Text, r: Text, i: nat)
  {
    i + |r| <= |t| && r == t[i..i + |r|] && SpacesIn(t, 0, i) && SpacesIn(t, i + |r|, |t|)
  }

  /** Neither the first nor the last byte of `r` is whitespace. */
  predicate NoOuterSpace(r: Text)
  {
    r == [] || (!IsSpace(r[0]) && !IsSpace(r[|r| - 1]))
  }

  /** `String.prototype.trim`: the input without its leading and trailing whitespace.
      `TrimSpec` states which part of the input it keeps. */
  function Trim(t: Text): (r: Text)
    ensures |r| <= |t| && NoOuterSpace(r)
  {
    var s := TrimStart(t);
    var r := TrimEnd(s);
    TrimEndDropsSpaces(s);
    TrimHasNoOuterSpace(s, r);
    r
  }

  /** `trim` keeps a contiguous slice of its input with only whitespace before and after
      it, and keeps nothing exactly when the input is all whitespace. */
  lemma TrimSpec(t: Text)
    ensures exists i: nat :: IsSliceBetweenSpaces(t, Trim(t), i)
    ensures Trim(t) == [] <==> AllSpace(t)
  {
    var s := TrimStart(t);
    var r := TrimEnd(s);
    assert r == Trim(t);
    TrimStartDropsSpaces(t);
    TrimEndDropsSpaces(s);
    TrimIsSlice(t, s, r);
    TrimEmptyIffAllSpace(t, s, r);
    assert IsSliceBetweenSpaces(t, r, |t| - |s|);
  }

  /** What `trim` keeps is the slice after the leading and before the trailing
      whitespace. */
  lemma TrimIsSlice(t: Text, s: Text, r: Text)
    requires |s| <= |t| && s == t[|t| - |s|..] && SpacesIn(t, 0, |t| - |s|)
    requires |r| <= |s| && r == s[..|r|] && SpacesIn(s, |r|, |s|)
    ensures IsSliceBetweenSpaces(t, r, |t| - |s|)
  {
    KeptPartIsSlice(t, s, r);
    TrailingPartIsSpace(t, s, r);
  }

  lemma KeptPartIsSlice(t: Text, s: Text, r: Text)
    requires |s| <= |t| && s == t[|t| - |s|..] && |r| <= |s| && r == s[..|r|]
    ensures r == t[|t| - |s|..|t| - |s| + |r|]
  {
  }

  lemma TrailingPartIsSpace(t: Text, s: Text, r: Text)
    requires |s| <= |t| && s == t[|t| - |s|..] && |r| <= |s| && SpacesIn(s, |r|, |s|)
    ensures SpacesIn(t, |t| - |s| + |r|, |t|)
  {
    var i := |t| - |s|;
    forall k | i + |r| <= k < |t|
      ensures IsSpace(t[k])
    {
      assert t[k] == s[k - i];
    }
  }

  lemma TrimHasNoOuterSpace(s: Text, r: Text)
    requires (s == [] || !IsSpace(s[0])) && |r| <= |s| && r == s[..|r|]
    requires r == [] || !IsSpace(r[|r| - 1])
    ensures NoOuterSpace(r)
  {
    if r != [] {
      assert r[0] == s[0];
    }
  }

  lemma TrimEmptyIffAllSpace(t: Text, s: Text, r: Text)
    requires |s| <= |t| && s == t[|t| - |s|..] && SpacesIn(t, 0, |t| - |s|)
    requires s == [] || !IsSpace(s[0])
    requires |r| <= |s| && SpacesIn(s, |r|, |s|)
    ensures r == [] <==> AllSpace(t)
  {
    if s != [] {
      assert t[|t| - |s|] == s[0];
    }
  }

  /** An ASCII literal without carriage return or line feed has neither byte. */
  lemma AsciiIsOneLine(s: string)
    requires forall i | 0 <= i < |s| :: s[i] as int < 128 && s[i] != '\r' && s[i] != '\n'
    ensures !HasLineBreak(Ascii(s))
  {
    var t := Ascii(s);
    forall i | 0 <= i < |t| ensures t[i] != CR && t[i] != LF {
      assert t[i] == s[i] as int;
    }
  }

  /** `x?.trim()` followed by a truthiness test, as the handlers apply it to configuration. */
  predicate Configured(o: Option<Text>)
  {
    o.Some? && Trim(o.value) != []
  }

  /** A value caught by a `catch` clause: an `Error` object with its message, or anything else. */
  datatype Thrown = ErrorObject(message: string) | OtherValue

  /** `err instanceof Error ? err.message : fallback`. */
  function MessageOr(e: Thrown, fallback: string): string
  {
    match e
    case ErrorObject(m) => m
    case OtherValue => fallback
  }

  /** `message || fallback` for an optional message string: an absent or empty message
      gives way to the fallback. */
  function ErrorOr(message: Option<string>, fallback: string): (r: string)
    ensures message.Some? && message.value != "" ==> r == message.value
    ensures message.None? || message.value == "" ==> r == fallback
  {
    if message.Some? && message.value != "" then message.value else fallback
  }

  /** The outcome of `await req.json()` followed by destructuring: the parsed record,
      or the value thrown by the parser. */
  datatype RequestBody<T> = Parsed(value: T) | Unparseable(error: Thrown)

  /** `t.startsWith(prefix)`. */
  predicate StartsWith(t: Text, prefix: Text)
  {
    |prefix| <= |t| && t[..|prefix|] == prefix
  }

  /** A cookie set on a response, with the attributes both issuers pass to `cookies.set`. */
  datatype Cookie = Cookie(name: string, value: Text, httpOnly: bool, secure: bool,
                           sameSite: string, maxAge: int, path: string)

  const AUTH_COOKIE_NAME := "luminary_auth"

  /** `60 * 60 * 24 * 30` seconds. */
  const THIRTY_DAYS: int := 60 * 60 * 24 * 30

  /** The session cookie with the given value: http-only, secure, same-site lax, thirty
      days, whole site. */
  function AuthCookie(value: Text): Cookie
  {
    Cookie(AUTH_COOKIE_NAME, value, true, true, "lax", THIRTY_DAYS, "/")
  }

  /** The three fields every wizard step carries (page.tsx `DraftData`). */
  datatype DraftData = DraftData(recipient: Text, subject: Text, body: Text)
}
