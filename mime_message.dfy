/** The raw message the send-email handler builds: header lines and the body joined
    by CRLF in the Internet Message Format (RFC 5322), with the subject carried as an
    RFC 2047 "B" encoded-word, and a reader that splits such a message back into its
    header lines and body at the first empty line (section 2.1 of RFC 5322). */
module MimeMessage {
  import opened Common
  import Base64

  const CRLF: Text := [CR, LF]

  /** `lines.join("\r\n")`. */
  function JoinCrlf(lines: seq<Text>): Text
  {
    if |lines| == 0 then []
    else if |lines| == 1 then lines[0]
    else lines[0] + CRLF + JoinCrlf(lines[1..])
  }

  /** `=?utf-8?B?` + base64 of the subject's UTF-8 bytes + `?=` (section 4.1 of RFC 2047). */
  function EncodedWord(subject: Text): Text
  {
    Ascii("=?utf-8?B?") + Ascii(Base64.Encode(subject)) + Ascii("?=")
  }

  /** The five header lines, in the order the handler lists them. */
  function HeaderLines(recipient: Text, subject: Text): seq<Text>
  {
    [ Ascii("To: ") + recipient,
      Ascii("Subject: ") + EncodedWord(subject),
      Ascii("MIME-Version: 1.0"),
      Ascii("Content-Type: text/plain; charset=\"UTF-8\""),
      Ascii("Content-Transfer-Encoding: 7bit") ]
  }

  /** The message: the header lines, an empty line, then the body, joined by CRLF. */
  function RawMessage(recipient: Text, subject: Text, body: Text): Text
  {
    JoinCrlf(HeaderLines(recipient, subject) + [[], body])
  }

  /** The index of the first CRLF pair. */
  function FindCrlf(m: Text): (r: Option<nat>)
    ensures r.Some? ==> r.value + 1 < |m| && m[r.value] == CR && m[r.value + 1] == LF
    ensures r.Some? ==> forall i | 0 <= i < r.value :: !(m[i] == CR && m[i + 1] == LF)
    ensures r.None? ==> forall i | 0 <= i < |m| - 1 :: !(m[i] == CR && m[i + 1] == LF)
    decreases |m|
  {
    if |m| < 2 then None
    else if m[0] == CR && m[1] == LF then Some(0)
    else
      match FindCrlf(m[1..])
      case None => None
      case Some(i) => Some(i + 1)
  }

  /** Reads header lines up to the first empty line and returns them with the rest of
      the message, the body; None when the message has no empty line. */
  function SplitHeaderBody(m: Text): Option<(seq<Text>, Text)>
    decreases |m|
  {
    match FindCrlf(m)
    case None => None
    case Some(i) =>
      if i == 0 then Some(([], m[2..]))
      else
        match SplitHeaderBody(m[i + 2..])
        case None => None
        case Some((headers, body)) => Some(([m[..i]] + headers, body))
  }

  /** A line without CR ends at the CRLF that follows it. */
  lemma {:induction false} FindCrlfAfterLine(line: Text, rest: Text)
    requires CR !in line
    ensures FindCrlf(line + CRLF + rest) == Some(|line|)
    decreases |line|
  {
    var m := line + CRLF + rest;
    if line != [] {
      assert m[1..] == line[1..] + CRLF + rest;
      FindCrlfAfterLine(line[1..], rest);
    }
  }

  /** A non-empty line without CR followed by CRLF is read as the first header line, and
      the reader goes on with the rest. */
  lemma SplitAfterLine(line: Text, rest: Text, headers: seq<Text>, body: Text)
    requires line != [] && CR !in line
    requires SplitHeaderBody(rest) == Some((headers, body))
    ensures SplitHeaderBody(line + CRLF + rest) == Some(([line] + headers, body))
  {
    var m := line + CRLF + rest;
    FindCrlfAfterLine(line, rest);
    assert m[|line| + 2..] == rest;
    assert m[..|line|] == line;
  }

  /** Non-empty header lines without CR, an empty line and any body are read back
      exactly: the body may hold anything, even CRLF and empty lines of its own. */
  lemma {:induction false} SplitJoin(headers: seq<Text>, body: Text)
    requires forall i | 0 <= i < |headers| :: headers[i] != [] && CR !in headers[i]
    ensures SplitHeaderBody(JoinCrlf(headers + [[], body])) == Some((headers, body))
    decreases |headers|
  {
    if headers == [] {
      var lines := headers + [[], body];
      assert JoinCrlf(lines) == [] + CRLF + body;
      FindCrlfAfterLine([], body);
    } else {
      var tail := headers[1..];
      forall i | 0 <= i < |tail| ensures tail[i] != [] && CR !in tail[i] {
        assert tail[i] == headers[i + 1];
      }
      SplitJoin(tail, body);
      SplitJoinStep(headers[0], tail, body);
      assert [headers[0]] + tail == headers;
    }
  }

  /** One more header line in front of a message that reads back keeps it reading back. */
  lemma SplitJoinStep(h: Text, tail: seq<Text>, body: Text)
    requires h != [] && CR !in h
    requires SplitHeaderBody(JoinCrlf(tail + [[], body])) == Some((tail, body))
    ensures SplitHeaderBody(JoinCrlf([h] + tail + [[], body])) == Some(([h] + tail, body))
  {
    var lines := [h] + tail + [[], body];
    var rest := JoinCrlf(tail + [[], body]);
    assert JoinCrlf(lines) == h + CRLF + rest by {
      assert lines[1..] == tail + [[], body];
    }
    SplitAfterLine(h, rest, tail, body);
  }

  lemma EncodedWordHasNoCr(subject: Text)
    ensures CR !in EncodedWord(subject) && LF !in EncodedWord(subject)
  {
    var e := Base64.Encode(subject);
    forall i | 0 <= i < |e| ensures e[i] as int < 128 && e[i] != '\r' && e[i] != '\n' {
      assert Base64.IsStandardChar(e[i]);
    }
    AsciiIsOneLine("=?utf-8?B?");
    AsciiIsOneLine(e);
    AsciiIsOneLine("?=");
  }

  /** The encoded word is the RFC 2047 prefix, the subject's base64 text and the suffix,
      and that text decodes to exactly the subject's bytes. */
  lemma EncodedWordCarriesSubject(subject: Text)
    ensures var w := EncodedWord(subject);
            var e := Base64.Encode(subject);
            && |w| == 12 + |e|
            && w[..10] == Ascii("=?utf-8?B?")
            && w[10..|w| - 2] == Ascii(e)
            && w[|w| - 2..] == Ascii("?=")
            && Base64.DecodeUrl(Base64.UrlSafe(e)) == Some(subject)
  {
    var e := Base64.Encode(subject);
    var w := EncodedWord(subject);
    assert w == Ascii("=?utf-8?B?") + Ascii(e) + Ascii("?=");
    Base64.UrlSafeOfEncode(subject);
    Base64.DecodeUrlOfEncodeUrl(subject);
  }

  // The three fixed header lines, one lemma each to keep every proof small.
  lemma MimeVersionLineHasNoCr()
    ensures CR !in Ascii("MIME-Version: 1.0")
  {
    AsciiIsOneLine("MIME-Version: 1.0");
  }

  lemma ContentTypeLineHasNoCr()
    ensures CR !in Ascii("Content-Type: text/plain; charset=\"UTF-8\"")
  {
    AsciiIsOneLine("Content-Type: text/plain; charset=\"UTF-8\"");
  }

  lemma EncodingLineHasNoCr()
    ensures CR !in Ascii("Content-Transfer-Encoding: 7bit")
  {
    AsciiIsOneLine("Content-Transfer-Encoding: 7bit");
  }

  /** For a recipient without CR the message is five header lines, one empty line and
      the body; a reader splitting at the first empty line recovers both exactly. */
  lemma RawMessageSplits(recipient: Text, subject: Text, body: Text)
    requires CR !in recipient
    ensures SplitHeaderBody(RawMessage(recipient, subject, body))
            == Some((HeaderLines(recipient, subject), body))
  {
    var hs := HeaderLines(recipient, subject);
    EncodedWordHasNoCr(subject);
    AsciiIsOneLine("To: ");
    AsciiIsOneLine("Subject: ");
    MimeVersionLineHasNoCr();
    ContentTypeLineHasNoCr();
    EncodingLineHasNoCr();
    assert |Ascii("To: ")| > 0 && |Ascii("MIME-Version: 1.0")| > 0;
    forall i | 0 <= i < |hs| ensures hs[i] != [] && CR !in hs[i] {
      if i == 1 {
        assert hs[1] == Ascii("Subject: ") + EncodedWord(subject);
      }
    }
    SplitJoin(hs, body);
  }
}
