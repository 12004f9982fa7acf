/**
 * One synchronous transaction with the printer: frame the command, send it,
 * read the reply frame byte by byte, and classify the reply as a normal
 * response or as one of the registered error replies.
 * The TCP stream is a finite sequence of bytes; a read of zero bytes is the
 * end of that sequence.
 */
module Command {
  import opened Wrappers
  import opened Wire
  import opened Connection
  import opened ErrorResponses

  const CarriageReturn: char := '\r'
  const StartOfText: char := 2 as char
  const EndOfText: char := 3 as char

  /** The character that ends a frame under each discipline. */
  function Terminator(d: Delimiter): char
  {
    match d
    case CR => CarriageReturn
    case ETX => EndOfText
  }

  /** The framed form of a command body. */
  function Frame(body: string, d: Delimiter): (framed: string)
    ensures d == CR ==> framed == body + [CarriageReturn]
    ensures d == ETX ==> framed == [StartOfText] + body + [EndOfText]
  {
    match d
    case CR => body + [CarriageReturn]
    case ETX => [StartOfText] + body + [EndOfText]
  }

  /** Rewrites the command string into its framed form; CR appends one 0x0D, ETX wraps in 0x02 .. 0x03. */
  method AddDelimiter(rawCommandString: string, delimiter: Delimiter) returns (framed: string)
    ensures framed == Frame(rawCommandString, delimiter)
    ensures delimiter == CR ==> |framed| == |rawCommandString| + 1 && framed[|framed| - 1] == CarriageReturn
    ensures delimiter == ETX ==> |framed| == |rawCommandString| + 2 && framed[0] == StartOfText
                                 && framed[1..|framed| - 1] == rawCommandString && CarriageReturn !in framed[..1] + framed[|framed| - 1..]
  {
    framed := rawCommandString;
    match delimiter {
      case CR =>
        framed := framed + [CarriageReturn];
      case ETX =>
        framed := [StartOfText] + framed + [EndOfText];
        assert framed[1..|framed| - 1] == rawCommandString;
    }
  }

  /** Encoding.ASCII decoding of one byte: bytes above 0x7F become '?'. */
  function AsciiChar(b: Byte): char
  {
    if b < 0x80 then b as char else '?'
  }

  /** Encoding.ASCII.GetBytes of one character: characters above 0x7F become '?'. */
  function AsciiByte(c: char): Byte
  {
    if c as int < 0x80 then c as int else '?' as int
  }

  function AsciiString(bytes: seq<Byte>): (s: string)
    ensures |s| == |bytes| && forall i :: 0 <= i < |bytes| ==> s[i] == AsciiChar(bytes[i])
  {
    if |bytes| == 0 then "" else [AsciiChar(bytes[0])] + AsciiString(bytes[1..])
  }

  function AsciiBytes(s: string): (bytes: seq<Byte>)
    ensures |bytes| == |s| && forall i :: 0 <= i < |s| ==> bytes[i] == AsciiByte(s[i])
  {
    if |s| == 0 then [] else [AsciiByte(s[0])] + AsciiBytes(s[1..])
  }

  predicate IsAscii(s: string) { forall i :: 0 <= i < |s| ==> s[i] as int < 0x80 }

  /** The reply frame: decoded bytes up to and including the first terminator, or all of them if none comes. */
  function ReadFrame(source: seq<Byte>, d: Delimiter): string
    decreases |source|
  {
    if |source| == 0 then ""
    else
      var c := AsciiChar(source[0]);
      if c == Terminator(d) then [c] else [c] + ReadFrame(source[1..], d)
  }

  /** Reads one byte at a time, appending its character, and stops right after the terminator. */
  method GetRawResponseString(source: seq<Byte>, delimiter: Delimiter) returns (rawResponseString: string)
    ensures rawResponseString == ReadFrame(source, delimiter)
  {
    rawResponseString := "";
    var i := 0;
    while i < |source|
      invariant 0 <= i <= |source|
      invariant rawResponseString + ReadFrame(source[i..], delimiter) == ReadFrame(source, delimiter)
      decreases |source| - i
    {
      var c := AsciiChar(source[i]);
      ReadFrameStep(source, delimiter, i);
      AppendAssociative(rawResponseString, [c], ReadFrame(source[i + 1..], delimiter));
      rawResponseString := rawResponseString + [c];
      i := i + 1;
      if c == Terminator(delimiter) {
        assert rawResponseString == ReadFrame(source, delimiter);
        break;
      }
    }
    if i == |source| {
      assert source[i..] == [];
    }
  }

  /** One byte read: the frame from byte i is that byte's character, then more unless it was the terminator. */
  lemma ReadFrameStep(source: seq<Byte>, d: Delimiter, i: nat)
    requires i < |source|
    ensures var c := AsciiChar(source[i]);
            ReadFrame(source[i..], d) == if c == Terminator(d) then [c] else [c] + ReadFrame(source[i + 1..], d)
  {
    assert source[i..][0] == source[i];
    assert source[i..][1..] == source[i + 1..];
  }

  /** The reader returns a decoded prefix of the stream. */
  lemma {:induction false} ReadFrameIsPrefix(source: seq<Byte>, d: Delimiter)
    ensures |ReadFrame(source, d)| <= |source|
    ensures forall i :: 0 <= i < |ReadFrame(source, d)| ==> ReadFrame(source, d)[i] == AsciiChar(source[i])
    decreases |source|
  {
    if |source| > 0 && AsciiChar(source[0]) != Terminator(d) {
      ReadFrameIsPrefix(source[1..], d);
    }
  }

  /** The reader stops at the first terminator: none occurs before the last character. */
  lemma {:induction false} ReadFrameStopsAtFirst(source: seq<Byte>, d: Delimiter)
    ensures forall i :: 0 <= i < |ReadFrame(source, d)| - 1 ==> ReadFrame(source, d)[i] != Terminator(d)
    decreases |source|
  {
    if |source| > 0 && AsciiChar(source[0]) != Terminator(d) {
      ReadFrameStopsAtFirst(source[1..], d);
    }
  }

  /**
   * The frame ends in a terminator exactly when the stream holds one; a stream
   * without one is returned whole, as the partial string of a zero-byte read.
   */
  lemma {:induction false} ReadFrameEnds(source: seq<Byte>, d: Delimiter)
    ensures Terminator(d) in AsciiString(source)
            <==> |ReadFrame(source, d)| > 0 && ReadFrame(source, d)[|ReadFrame(source, d)| - 1] == Terminator(d)
    ensures Terminator(d) !in AsciiString(source) ==> ReadFrame(source, d) == AsciiString(source)
    decreases |source|
  {
    if |source| > 0 {
      var c := AsciiChar(source[0]);
      assert AsciiString(source) == [c] + AsciiString(source[1..]);
      if c != Terminator(d) {
        ReadFrameEnds(source[1..], d);
      }
    }
  }

  /** A frame written by AddDelimiter is read back whole, whatever follows it on the stream. */
  lemma ReadFrameOfFrame(body: string, d: Delimiter, rest: seq<Byte>)
    requires IsAscii(body) && Terminator(d) !in body
    ensures ReadFrame(AsciiBytes(Frame(body, d)) + rest, d) == Frame(body, d)
  {
    var f := Frame(body, d);
    var bytes := AsciiBytes(f) + rest;
    assert forall i :: 0 <= i < |f| ==> AsciiChar(bytes[i]) == f[i] by {
      forall i | 0 <= i < |f| ensures AsciiChar(bytes[i]) == f[i] {
        assert bytes[i] == AsciiByte(f[i]);
        assert f[i] as int < 0x80 by {
          if d == ETX && 0 < i < |f| - 1 {
            assert f[i] == body[i - 1];
          } else if d == CR && i < |body| {
            assert f[i] == body[i];
          }
        }
      }
    }
    assert forall i :: 0 <= i < |f| - 1 ==> f[i] != Terminator(d) by {
      forall i | 0 <= i < |f| - 1 ensures f[i] != Terminator(d) {
        if d == ETX && 0 < i {
          assert f[i] == body[i - 1];
        } else if d == CR {
          assert f[i] == body[i];
        }
      }
    }
    ReadFramePrefix(bytes, f, d);
  }

  lemma {:induction false} ReadFramePrefix(bytes: seq<Byte>, f: string, d: Delimiter)
    requires |f| >= 1 && |f| <= |bytes| && f[|f| - 1] == Terminator(d)
    requires forall i :: 0 <= i < |f| ==> AsciiChar(bytes[i]) == f[i]
    requires forall i :: 0 <= i < |f| - 1 ==> f[i] != Terminator(d)
    ensures ReadFrame(bytes, d) == f
    decreases |f|
  {
    if |f| > 1 {
      ReadFramePrefix(bytes[1..], f[1..], d);
      assert f == [f[0]] + f[1..];
    }
  }

  /**
   * A character that the culture-sensitive string comparison gives no weight:
   * the C0 and C1 control characters, except the white-space ones (tab to
   * carriage return, and next line U+0085).
   */
  predicate IsIgnorable(c: char)
  {
    c as int <= 0x08 || 0x0E <= c as int <= 0x1F || (0x7F <= c as int <= 0x9F && c as int != 0x85)
  }

  /** The characters the culture-sensitive comparison sees, in order. */
  function Weighted(s: string): (w: string)
    ensures |w| <= |s|
    ensures forall i :: 0 <= i < |w| ==> !IsIgnorable(w[i])
    decreases |s|
  {
    if |s| == 0 then ""
    else if IsIgnorable(s[0]) then Weighted(s[1..])
    else [s[0]] + Weighted(s[1..])
  }

  /**
   * rawResponseString.StartsWith("ER"): with a string argument the test runs
   * under the current culture, which skips the characters of no weight.
   */
  predicate IsErrorReply(raw: string) { var w := Weighted(raw); |w| >= 2 && w[..2] == "ER" }

  /** A reply whose first two characters are "ER" passes the test. */
  lemma {:induction false} OrdinalErrorReply(raw: string)
    requires |raw| >= 2 && raw[..2] == "ER"
    ensures IsErrorReply(raw)
  {
    assert raw[0] == 'E' && raw[1..][0] == 'R';
    assert Weighted(raw) == ['E'] + Weighted(raw[1..]);
    assert Weighted(raw[1..]) == ['R'] + Weighted(raw[1..][1..]);
  }

  /** A leading character of no weight, such as STX, does not change the outcome of the test. */
  lemma IgnorableLeadIgnored(c: char, raw: string)
    requires IsIgnorable(c)
    ensures IsErrorReply([c] + raw) <==> IsErrorReply(raw)
  {
    assert ([c] + raw)[1..] == raw;
  }

  /** A reply that does not begin with "ER", once the characters of no weight are skipped, is not an error reply. */
  lemma {:induction false} NonErrorReply(raw: string)
    requires |raw| > 0 && !IsIgnorable(raw[0]) && raw[0] != 'E'
    ensures !IsErrorReply(raw)
  {
    assert Weighted(raw) == [raw[0]] + Weighted(raw[1..]);
    assert Weighted(raw)[0] == raw[0];
  }

  /** The registered error whose code is field 2 of the reply. */
  function GetErrorResponse(rawResponseString: string): (r: Result<ErrorResponse>)
    ensures r.Ok? <==> var split := Split(rawResponseString);
                       |split| > 2 && ParseInt(split[2]).Some? && Lookup(ParseInt(split[2]).value).Some?
    ensures r.Ok? ==> r.value in Data && r.value.errorCode == ParseInt(Split(rawResponseString)[2]).value
    ensures |Split(rawResponseString)| <= 2 ==> r == Err(MissingField(2))
    ensures var split := Split(rawResponseString);
            |split| > 2 && ParseInt(split[2]).None? ==> r == Err(BadFormat)
    ensures var split := Split(rawResponseString);
            |split| > 2 && ParseInt(split[2]).Some? && Lookup(ParseInt(split[2]).value).None? ==> r == Err(NoMatch)
  {
    var split := Split(rawResponseString);
    var errorCode :- IntField(split, 2);
    match Lookup(errorCode)
    case Some(e) =>
      LookupDomain(errorCode);
      Ok(e)
    case None => Err(NoMatch)
  }

  /** The library's reply pair: exactly one side is set. */
  datatype Reply = Reply(response: Option<string>, error: Option<ErrorResponse>)

  /** An "ER" reply becomes its registered error and every other reply is returned unchanged. */
  function Classify(rawResponseString: string): (r: Result<Reply>)
    ensures !IsErrorReply(rawResponseString) ==> r == Ok(Reply(Some(rawResponseString), None))
    ensures IsErrorReply(rawResponseString) ==>
              match GetErrorResponse(rawResponseString)
              case Ok(e) => r == Ok(Reply(None, Some(e)))
              case Err(f) => r == Err(f)
  {
    if IsErrorReply(rawResponseString) then
      var e :- GetErrorResponse(rawResponseString);
      Ok(Reply(None, Some(e)))
    else
      Ok(Reply(Some(rawResponseString), None))
  }

  /**
   * Sends identificationCode + parameters framed under the connection's delimiter
   * and classifies the reply read from `printer`; the serial transport is not
   * implemented and sends nothing.
   */
  method SendCommand(connection: Connection, identificationCode: string, parameters: string, printer: seq<Byte>)
    returns (sent: seq<Byte>, reply: Result<Reply>)
    ensures connection.transport.Rs232C? ==> sent == [] && reply == Err(NotImplemented)
    ensures connection.transport.Ethernet? ==>
              && sent == AsciiBytes(Frame(identificationCode + parameters, connection.delimiter))
              && reply == Classify(ReadFrame(printer, connection.delimiter))
  {
    var rawCommandString := identificationCode + parameters;
    rawCommandString := AddDelimiter(rawCommandString, connection.delimiter);
    if connection.transport.Ethernet? {
      sent := AsciiBytes(rawCommandString);
      var rawResponseString := GetRawResponseString(printer, connection.delimiter);
      reply := Classify(rawResponseString);
    } else {
      sent := [];
      reply := Err(NotImplemented);
    }
  }

  /** The error reply the printer sends for a rejected command. */
  function ErrorReplyBody(id: string, code: Int32): string
  {
    "ER," + id + "," + IntToString(code)
  }

  predicate PlainField(s: string) { IsAscii(s) && CommaFree(s) && CarriageReturn !in s && EndOfText !in s }

  lemma TrimTrailingCarriageReturn(n: Int32)
    ensures Trim(IntToString(n) + [CarriageReturn]) == IntToString(n)
  {
    var s := IntToString(n);
    var t := s + [CarriageReturn];
    assert !IsWhite(t[0]);
    assert TrimStart(t) == t;
    assert t[..|t| - 1] == s;
    assert TrimEnd(s) == s;
  }

  lemma IntToStringPlain(n: int)
    ensures PlainField(IntToString(n))
  {
    var s := IntToString(n);
    assert forall i :: 0 <= i < |s| ==> s[i] != ',' && s[i] != CarriageReturn && s[i] != EndOfText && s[i] as int < 0x80;
  }

  /** The fields of a CR-framed error reply: the echoed code and the error code, which keeps the CR. */
  lemma ErrorReplyFields(id: string, code: Int32)
    requires PlainField(id)
    ensures Split(Frame(ErrorReplyBody(id, code), CR)) == ["ER", id, IntToString(code) + [CarriageReturn]]
  {
    var digits := IntToString(code);
    IntToStringPlain(code);
    var last := digits + [CarriageReturn];
    assert Prefixed([last]) == "," + last + Prefixed([]);
    assert Prefixed([id, last]) == "," + id + Prefixed([last]) by {
      assert [id, last][1..] == [last];
    }
    assert Frame(ErrorReplyBody(id, code), CR) == "ER" + Prefixed([id, last]);
    assert CommaFree(last);
    SplitPrefixed("ER", [id, last]);
  }

  lemma ErrorReplyBodyPlain(id: string, code: Int32)
    requires PlainField(id)
    ensures IsAscii(ErrorReplyBody(id, code)) && CarriageReturn !in ErrorReplyBody(id, code)
    ensures EndOfText !in ErrorReplyBody(id, code)
  {
    var body := ErrorReplyBody(id, code);
    var digits := IntToString(code);
    IntToStringPlain(code);
    assert body == "ER," + id + "," + digits;
    forall i | 0 <= i < |body| ensures body[i] as int < 0x80 && body[i] != CarriageReturn && body[i] != EndOfText {
      if i < 3 {
      } else if i < 3 + |id| {
        assert body[i] == id[i - 3];
      } else if i == 3 + |id| {
      } else {
        assert body[i] == digits[i - 4 - |id|];
      }
    }
  }

  /**
   * Under CR framing an error reply read from the stream is classified by its
   * code: the registered error when there is one, and a failed lookup otherwise.
   */
  lemma ErrorReplyClassifiedUnderCR(id: string, code: Int32, rest: seq<Byte>)
    requires PlainField(id)
    ensures var raw := ReadFrame(AsciiBytes(Frame(ErrorReplyBody(id, code), CR)) + rest, CR);
            Classify(raw) == match Lookup(code)
                             case Some(e) => Ok(Reply(None, Some(e)))
                             case None => Err(NoMatch)
  {
    var body := ErrorReplyBody(id, code);
    ErrorReplyBodyPlain(id, code);
    ReadFrameOfFrame(body, CR, rest);
    var raw := Frame(body, CR);
    ErrorReplyFields(id, code);
    TrimTrailingCarriageReturn(code);
    ParseSignedOfIntToString(code);
    assert ParseInt(IntToString(code) + [CarriageReturn]) == Some(code);
    assert raw[..2] == "ER";
    OrdinalErrorReply(raw);
  }

  /** An integer followed by ETX is not a number to int.Parse: ETX is not white space. */
  lemma ParseIntWithEndOfText(n: Int32)
    ensures ParseInt(IntToString(n) + [EndOfText]).None?
  {
    var t := IntToString(n) + [EndOfText];
    assert !IsWhite(t[0]) && !IsWhite(t[|t| - 1]);
    assert TrimStart(t) == t;
    assert TrimEnd(t) == t;
    assert !IsDigit(t[|t| - 1]);
    if t[0] == '-' {
      assert t[1..][|t[1..]| - 1] == EndOfText;
    }
  }

  /** The fields of an ETX-framed error reply: STX stays on the first, and ETX on the error code. */
  lemma ErrorReplyFieldsUnderETX(id: string, code: Int32)
    requires PlainField(id)
    ensures Split(Frame(ErrorReplyBody(id, code), ETX))
            == [[StartOfText] + "ER", id, IntToString(code) + [EndOfText]]
  {
    var digits := IntToString(code);
    IntToStringPlain(code);
    var last := digits + [EndOfText];
    assert Prefixed([last]) == "," + last + Prefixed([]);
    assert Prefixed([id, last]) == "," + id + Prefixed([last]) by {
      assert [id, last][1..] == [last];
    }
    assert Frame(ErrorReplyBody(id, code), ETX) == ([StartOfText] + "ER") + Prefixed([id, last]);
    assert CommaFree(last);
    SplitPrefixed([StartOfText] + "ER", [id, last]);
  }

  /**
   * Under ETX framing the reply read from the stream starts with STX. The
   * culture-sensitive "ER" test skips it and takes the error branch, but the
   * error code still carries ETX, so int.Parse fails: every error reply ends
   * in a format exception, whatever its code.
   */
  lemma ErrorReplyFailsUnderETX(id: string, code: Int32, rest: seq<Byte>)
    requires PlainField(id)
    ensures var raw := ReadFrame(AsciiBytes(Frame(ErrorReplyBody(id, code), ETX)) + rest, ETX);
            IsErrorReply(raw) && Classify(raw) == Err(BadFormat)
  {
    var body := ErrorReplyBody(id, code);
    ErrorReplyBodyPlain(id, code);
    ReadFrameOfFrame(body, ETX, rest);
    var raw := Frame(body, ETX);
    assert raw == [StartOfText] + (body + [EndOfText]);
    assert (body + [EndOfText])[..2] == "ER";
    OrdinalErrorReply(body + [EndOfText]);
    IgnorableLeadIgnored(StartOfText, body + [EndOfText]);
    ErrorReplyFieldsUnderETX(id, code);
    ParseIntWithEndOfText(code);
  }

  /** The reply with its framing characters removed; CR replies keep their CR, which int.Parse skips. */
  function Unframe(raw: string, d: Delimiter): string
  {
    match d
    case CR => raw
    case ETX =>
      var bare := if |raw| > 0 && raw[0] == StartOfText then raw[1..] else raw;
      if |bare| > 0 && bare[|bare| - 1] == EndOfText then bare[..|bare| - 1] else bare
  }

  /** Unframe undoes the ETX framing of AddDelimiter. */
  lemma UnframeOfFrame(body: string)
    ensures Unframe(Frame(body, ETX), ETX) == body
  {
    var f := Frame(body, ETX);
    assert f[1..] == body + [EndOfText];
    assert (body + [EndOfText])[..|body|] == body;
  }

  /** The classification the library evidently intends: the "ER" test applied inside the frame. */
  function ClassifyFramed(rawResponseString: string, d: Delimiter): Result<Reply>
  {
    Classify(Unframe(rawResponseString, d))
  }

  /** The intended classification changes nothing under CR framing. */
  lemma ClassifyFramedUnderCR(raw: string)
    ensures ClassifyFramed(raw, CR) == Classify(raw)
  {
  }

  lemma ErrorReplyBodyFields(id: string, code: Int32)
    requires PlainField(id)
    ensures Split(ErrorReplyBody(id, code)) == ["ER", id, IntToString(code)]
  {
    var digits := IntToString(code);
    IntToStringPlain(code);
    assert Prefixed([digits]) == "," + digits + Prefixed([]);
    assert Prefixed([id, digits]) == "," + id + Prefixed([digits]) by {
      assert [id, digits][1..] == [digits];
    }
    assert ErrorReplyBody(id, code) == "ER" + Prefixed([id, digits]);
    SplitPrefixed("ER", [id, digits]);
  }

  /** The error code is read from field 2 and looked up in the registry. */
  lemma GetErrorResponseOfBody(id: string, code: Int32)
    requires PlainField(id)
    ensures GetErrorResponse(ErrorReplyBody(id, code)) == match Lookup(code)
                                                          case Some(e) => Ok(e)
                                                          case None => Err(NoMatch)
  {
    ErrorReplyBodyFields(id, code);
    ParseIntOfIntToString(code);
    assert IntField(Split(ErrorReplyBody(id, code)), 2) == Ok(code);
  }

  /** The bare error reply is classified by its code. */
  lemma ClassifyErrorReplyBody(id: string, code: Int32)
    requires PlainField(id)
    ensures Classify(ErrorReplyBody(id, code)) == match Lookup(code)
                                                 case Some(e) => Ok(Reply(None, Some(e)))
                                                 case None => Err(NoMatch)
  {
    GetErrorResponseOfBody(id, code);
    assert ErrorReplyBody(id, code)[..2] == "ER";
    OrdinalErrorReply(ErrorReplyBody(id, code));
  }

  /** With the intended classification an error reply is recognised under both disciplines. */
  lemma ErrorReplyClassifiedFramed(id: string, code: Int32, rest: seq<Byte>, d: Delimiter)
    requires PlainField(id)
    ensures var raw := ReadFrame(AsciiBytes(Frame(ErrorReplyBody(id, code), d)) + rest, d);
            ClassifyFramed(raw, d) == match Lookup(code)
                                      case Some(e) => Ok(Reply(None, Some(e)))
                                      case None => Err(NoMatch)
  {
    match d
    case CR =>
      ErrorReplyClassifiedUnderCR(id, code, rest);
    case ETX =>
      var body := ErrorReplyBody(id, code);
      ErrorReplyBodyPlain(id, code);
      ReadFrameOfFrame(body, ETX, rest);
      UnframeOfFrame(body);
      ClassifyErrorReplyBody(id, code);
  }
}
