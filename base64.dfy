/** Base 64 as RFC 4648 defines it: the standard padded encoding of section 4 (what
    Node's `Buffer.toString("base64")` yields), the character replacements that the
    send-email handler applies to it, and the unpadded "base64url" encoding of
    section 5 together with a decoder for it. */
module Base64 {
  import opened Common

  /** A 6-bit group: the index of one encoding character. */
  type Sextet = i: int | 0 <= i < 64

  /** The character for a 6-bit group, from table 1 (`urlSafe` false) or table 2
      (`urlSafe` true) of RFC 4648; the two tables differ only at 62 and 63. */
  function Digit(i: Sextet, urlSafe: bool): char
  {
    if i < 26 then (65 + i) as char
    else if i < 52 then (97 + i - 26) as char
    else if i < 62 then (48 + i - 52) as char
    else if i == 62 then (if urlSafe then '-' else '+')
    else (if urlSafe then '_' else '/')
  }

  /** The alphabet of table 2: `A-Z a-z 0-9 - _`. */
  predicate IsUrlDigit(c: char)
  {
    ('A' <= c <= 'Z') || ('a' <= c <= 'z') || ('0' <= c <= '9') || c == '-' || c == '_'
  }

  /** The alphabet of table 1 and its pad character. */
  predicate IsStandardChar(c: char)
  {
    ('A' <= c <= 'Z') || ('a' <= c <= 'z') || ('0' <= c <= '9') || c == '+' || c == '/' || c == '='
  }

  /** The value of a table 2 character. */
  function UrlValue(c: char): (v: Sextet)
    requires IsUrlDigit(c)
    ensures Digit(v, true) == c
  {
    if 'A' <= c <= 'Z' then c as int - 65
    else if 'a' <= c <= 'z' then c as int - 97 + 26
    else if '0' <= c <= '9' then c as int - 48 + 52
    else if c == '-' then 62
    else 63
  }

  // The four 6-bit groups of the 24-bit quantum b0 b1 b2 (section 4 of RFC 4648) ...
  function G0(b0: Byte): Sextet { b0 / 4 }
  function G1(b0: Byte, b1: Byte): Sextet { b0 % 4 * 16 + b1 / 16 }
  function G2(b1: Byte, b2: Byte): Sextet { b1 % 16 * 4 + b2 / 64 }
  function G3(b2: Byte): Sextet { b2 % 64 }

  // ... and the three bytes of the quantum s0 s1 s2 s3.
  function B0(s0: Sextet, s1: Sextet): Byte { s0 * 4 + s1 / 16 }
  function B1(s1: Sextet, s2: Sextet): Byte { s1 % 16 * 16 + s2 / 4 }
  function B2(s2: Sextet, s3: Sextet): Byte { s2 % 4 * 64 + s3 }

  /** Splits bytes into 6-bit groups, most significant bit first: each 3 bytes give 4
      groups, a final 1 or 2 bytes give 2 or 3 groups whose unused low bits are zero. */
  function Sextets(b: seq<Byte>): (s: seq<Sextet>)
    ensures |s| == (4 * |b| + 2) / 3
    decreases |b|
  {
    if |b| == 0 then []
    else if |b| == 1 then [G0(b[0]), G1(b[0], 0)]
    else if |b| == 2 then [G0(b[0]), G1(b[0], b[1]), G2(b[1], 0)]
    else [G0(b[0]), G1(b[0], b[1]), G2(b[1], b[2]), G3(b[2])] + Sextets(b[3..])
  }

  function Digits(s: seq<Sextet>, urlSafe: bool): (r: seq<char>)
  {
    seq(|s|, i requires 0 <= i < |s| => Digit(s[i], urlSafe))
  }

  /** The `=` characters that complete the last quantum (section 3.2 of RFC 4648). */
  function Padding(n: nat): string
  {
    if n % 3 == 1 then "==" else if n % 3 == 2 then "=" else ""
  }

  /** Standard padded base 64 (section 4 of RFC 4648). */
  function Encode(b: seq<Byte>): (r: string)
    ensures |r| == 4 * ((|b| + 2) / 3)
    ensures forall i | 0 <= i < |r| :: IsStandardChar(r[i])
  {
    PaddedLength(|b|);
    StandardDigits(Sextets(b));
    Digits(Sextets(b), false) + Padding(|b|)
  }

  /** The groups and the padding of `n` bytes fill whole quanta of four characters. */
  lemma PaddedLength(n: nat)
    ensures (4 * n + 2) / 3 + |Padding(n)| == 4 * ((n + 2) / 3)
  {
    var q := n / 3;
    assert n == 3 * q + n % 3;
    if n % 3 == 0 {
      assert (4 * n + 2) / 3 == 4 * q;
      assert (n + 2) / 3 == q;
    } else if n % 3 == 1 {
      assert (4 * n + 2) / 3 == 4 * q + 2;
      assert (n + 2) / 3 == q + 1;
    } else {
      assert (4 * n + 2) / 3 == 4 * q + 3;
      assert (n + 2) / 3 == q + 1;
    }
  }

  /** Every character of table 1 is a standard character. */
  lemma StandardDigits(s: seq<Sextet>)
    ensures forall i | 0 <= i < |Digits(s, false)| :: IsStandardChar(Digits(s, false)[i])
  {
    forall i | 0 <= i < |Digits(s, false)| ensures IsStandardChar(Digits(s, false)[i]) {
      assert Digits(s, false)[i] == Digit(s[i], false);
    }
  }

  /** Unpadded base64url (section 5 of RFC 4648, padding omitted as section 3.2 allows). */
  function EncodeUrl(b: seq<Byte>): (r: string)
  {
    Digits(Sextets(b), true)
  }

  /** `s.replace(from_all, to)`: every occurrence of one character replaced. */
  function ReplaceAll(s: string, from: char, to: char): (r: string)
  {
    seq(|s|, i requires 0 <= i < |s| => if s[i] == from then to else s[i])
  }

  /** `s.replace(/c+$/, "")`: the run of `c` at the end removed. */
  function TrimTrailing(s: string, c: char): (r: string)
    decreases |s|
  {
    if |s| > 0 && s[|s| - 1] == c then TrimTrailing(s[..|s| - 1], c) else s
  }

  /** The chain `.replace(/\+/g, "-").replace(/\//g, "_").replace(/=+$/, "")` of the
      send-email handler, applied to a standard encoding. */
  function UrlSafe(std: string): string
  {
    TrimTrailing(ReplaceAll(ReplaceAll(std, '+', '-'), '/', '_'), '=')
  }

  /** The values of a string of table 2 characters, or None at the first other character. */
  function UrlValues(s: string): (r: Option<seq<Sextet>>)
    ensures r.Some? ==> |r.value| == |s|
  {
    if forall i | 0 <= i < |s| :: IsUrlDigit(s[i])
    then Some(seq(|s|, i requires 0 <= i < |s| => UrlValue(s[i])))
    else None
  }

  /** Reassembles the bytes of a final quantum of fewer than four groups. One group
      cannot come from any byte string, and groups whose unused low bits are not zero
      are not canonical (section 3.5 of RFC 4648); both are rejected. */
  function FromFinalSextets(s: seq<Sextet>): (r: Option<seq<Byte>>)
    requires |s| < 4
  {
    if |s| == 0 then Some([])
    else if |s| == 1 then None
    else if |s| == 2 then
      if s[1] % 16 == 0 then Some([B0(s[0], s[1])]) else None
    else
      if s[2] % 4 == 0 then Some([B0(s[0], s[1]), B1(s[1], s[2])]) else None
  }

  /** Reassembles bytes from 6-bit groups, four groups to three bytes. */
  function FromSextets(s: seq<Sextet>): (r: Option<seq<Byte>>)
    decreases |s|
  {
    if |s| < 4 then FromFinalSextets(s)
    else
      match FromSextets(s[4..])
      case None => None
      case Some(rest) => Some([B0(s[0], s[1]), B1(s[1], s[2]), B2(s[2], s[3])] + rest)
  }

  /** Splitting a quantum into groups and reassembling it gives back its bytes. */
  lemma QuantumBytes(b0: Byte, b1: Byte, b2: Byte)
    ensures B0(G0(b0), G1(b0, b1)) == b0
    ensures B1(G1(b0, b1), G2(b1, b2)) == b1
    ensures B2(G2(b1, b2), G3(b2)) == b2
    ensures G1(b0, 0) % 16 == 0 && G2(b1, 0) % 4 == 0
  {
    SplitBy16(b0 % 4, b1 / 16);
    SplitBy4(b1 % 16, b2 / 64);
  }

  /** Dividing `16 * a + c`, for `c` below 16, by 16 gives back `a` and `c`. */
  lemma SplitBy16(a: int, c: int)
    requires 0 <= c < 16
    ensures (a * 16 + c) / 16 == a && (a * 16 + c) % 16 == c && (a * 16) % 16 == 0
  {
  }

  /** Dividing `4 * a + c`, for `c` below 4, by 4 gives back `a` and `c`. */
  lemma SplitBy4(a: int, c: int)
    requires 0 <= c < 4
    ensures (a * 4 + c) / 4 == a && (a * 4 + c) % 4 == c && (a * 4) % 4 == 0
  {
  }

  /** Reassembling groups into bytes and splitting them again gives back the groups. */
  lemma QuantumSextets(s0: Sextet, s1: Sextet, s2: Sextet, s3: Sextet)
    ensures G0(B0(s0, s1)) == s0
    ensures G1(B0(s0, s1), B1(s1, s2)) == s1
    ensures G2(B1(s1, s2), B2(s2, s3)) == s2
    ensures G3(B2(s2, s3)) == s3
    ensures s1 % 16 == 0 ==> G1(B0(s0, s1), 0) == s1
    ensures s2 % 4 == 0 ==> G2(B1(s1, s2), 0) == s2
  {
  }

  /** Decodes unpadded base64url. */
  function DecodeUrl(s: string): Option<seq<Byte>>
  {
    match UrlValues(s)
    case None => None
    case Some(v) => FromSextets(v)
  }

  /** A final quantum of one byte survives the round trip ... */
  lemma FromSextetsOfOneByte(x: Byte)
    ensures FromSextets(Sextets([x])) == Some([x])
  {
    assert Sextets([x]) == [G0(x), G1(x, 0)];
  }

  /** ... and so does one of two bytes. */
  lemma FromSextetsOfTwoBytes(x: Byte, y: Byte)
    ensures FromSextets(Sextets([x, y])) == Some([x, y])
  {
    QuantumBytes(x, y, 0);
    assert Sextets([x, y]) == [G0(x), G1(x, y), G2(y, 0)];
  }

  lemma {:induction false} FromSextetsOfSextets(b: seq<Byte>)
    ensures FromSextets(Sextets(b)) == Some(b)
    decreases |b|
  {
    if |b| > 2 {
      var s := Sextets(b);
      var head := [G0(b[0]), G1(b[0], b[1]), G2(b[1], b[2]), G3(b[2])];
      assert s == head + Sextets(b[3..]);
      assert s[4..] == Sextets(b[3..]);
      FromSextetsOfSextets(b[3..]);
      QuantumBytes(b[0], b[1], b[2]);
      assert FromSextets(s) == Some([b[0], b[1], b[2]] + b[3..]);
      assert b == [b[0], b[1], b[2]] + b[3..];
    } else if |b| == 2 {
      assert b == [b[0], b[1]];
      FromSextetsOfTwoBytes(b[0], b[1]);
    } else if |b| == 1 {
      assert b == [b[0]];
      FromSextetsOfOneByte(b[0]);
    }
  }

  lemma {:induction false} SextetsOfFromSextets(s: seq<Sextet>, b: seq<Byte>)
    requires FromSextets(s) == Some(b)
    ensures Sextets(b) == s
    decreases |s|
  {
    if |s| > 3 {
      var rest := FromSextets(s[4..]).value;
      SextetsOfFromSextets(s[4..], rest);
      QuantumSextets(s[0], s[1], s[2], s[3]);
      assert b[3..] == rest;
      assert s == [s[0], s[1], s[2], s[3]] + s[4..];
    } else if |s| == 3 {
      QuantumSextets(s[0], s[1], s[2], 0);
      assert s == [s[0], s[1], s[2]];
    } else if |s| == 2 {
      QuantumSextets(s[0], s[1], 0, 0);
      assert s == [s[0], s[1]];
    }
  }

  lemma UrlValuesOfDigits(s: seq<Sextet>)
    ensures UrlValues(Digits(s, true)) == Some(s)
  {
    var d := Digits(s, true);
    forall i | 0 <= i < |d| ensures IsUrlDigit(d[i]) && UrlValue(d[i]) == s[i] {
      assert d[i] == Digit(s[i], true);
    }
    assert seq(|d|, i requires 0 <= i < |d| => UrlValue(d[i])) == s;
  }

  /** Every base64url string is made of table 2 characters only: no `+`, `/` or `=`. */
  lemma EncodeUrlAlphabet(b: seq<Byte>)
    ensures forall i | 0 <= i < |EncodeUrl(b)| :: IsUrlDigit(EncodeUrl(b)[i])
    ensures '=' !in EncodeUrl(b)
  {
    var s := Sextets(b);
    var d := EncodeUrl(b);
    forall i | 0 <= i < |d| ensures IsUrlDigit(d[i]) {
      assert d[i] == Digit(s[i], true);
    }
  }

  /** Decoding inverts encoding ... */
  lemma DecodeUrlOfEncodeUrl(b: seq<Byte>)
    ensures DecodeUrl(EncodeUrl(b)) == Some(b)
  {
    UrlValuesOfDigits(Sextets(b));
    FromSextetsOfSextets(b);
  }

  /** ... and a string decodes to `b` only if it is the encoding of `b`. */
  lemma EncodeUrlOfDecodeUrl(s: string, b: seq<Byte>)
    requires DecodeUrl(s) == Some(b)
    ensures EncodeUrl(b) == s
  {
    var v := UrlValues(s).value;
    SextetsOfFromSextets(v, b);
    assert |EncodeUrl(b)| == |s|;
    forall i | 0 <= i < |s| ensures EncodeUrl(b)[i] == s[i] {
      assert v[i] == UrlValue(s[i]);
    }
  }

  /** Base64url is a bijection between byte strings and the strings it decodes. */
  lemma DecodeUrlIff(s: string, b: seq<Byte>)
    ensures DecodeUrl(s) == Some(b) <==> s == EncodeUrl(b)
  {
    if DecodeUrl(s) == Some(b) {
      EncodeUrlOfDecodeUrl(s, b);
    }
    if s == EncodeUrl(b) {
      DecodeUrlOfEncodeUrl(b);
    }
  }

  lemma {:induction false} TrimTrailingPadding(u: string, n: nat)
    requires u == [] || u[|u| - 1] != '='
    ensures TrimTrailing(u + Padding(n), '=') == u
  {
    var p := Padding(n);
    if p == "=" {
      assert (u + p)[..|u + p| - 1] == u;
    } else if p == "==" {
      assert (u + p)[..|u + p| - 1] == u + "=";
      assert (u + "=")[..|u|] == u;
      assert TrimTrailing(u + "=", '=') == TrimTrailing(u, '=');
    } else {
      assert u + p == u;
    }
  }

  /** The replacement chain of the send-email handler turns a standard encoding into
      exactly the unpadded base64url encoding of the same bytes. */
  lemma UrlSafeOfEncode(b: seq<Byte>)
    ensures UrlSafe(Encode(b)) == EncodeUrl(b)
  {
    var s := Sextets(b);
    var u := EncodeUrl(b);
    var swapped := ReplaceAll(ReplaceAll(Encode(b), '+', '-'), '/', '_');
    assert swapped == u + Padding(|b|) by {
      assert |swapped| == |u| + |Padding(|b|)|;
      forall i | 0 <= i < |swapped| ensures swapped[i] == (u + Padding(|b|))[i] {
        if i < |u| {
          assert Encode(b)[i] == Digit(s[i], false);
        } else {
          assert Encode(b)[i] == '=';
        }
      }
    }
    EncodeUrlAlphabet(b);
    if u != [] {
      assert IsUrlDigit(u[|u| - 1]);
    }
    TrimTrailingPadding(u, |b|);
  }

  // Vectors in the style of section 10 of RFC 4648: they fix the bit order and the
  // padding of the encoder.
  lemma EncodeVectorF()
    ensures Encode(Ascii("f")) == "Zg=="
  {
    assert Ascii("f") == [102];
  }

  lemma EncodeVectorFo()
    ensures Encode(Ascii("fo")) == "Zm8="
  {
    assert Ascii("fo") == [102, 111];
  }

  lemma EncodeVectorFoobar()
    ensures Encode(Ascii("foobar")) == "Zm9vYmFy"
  {
    var b := [102, 111, 111, 98, 97, 114];
    assert Ascii("foobar") == b;
    assert b[3..] == [98, 97, 114];
    assert Sextets([98, 97, 114]) == [24, 38, 5, 50] by {
      assert [98, 97, 114][3..] == [];
    }
    assert Sextets(b) == [25, 38, 61, 47, 24, 38, 5, 50];
  }

  /** The two characters that differ in the URL alphabet, and no padding. */
  lemma EncodeUrlVector()
    ensures EncodeUrl([251, 255]) == "-_8"
  {
  }
}
