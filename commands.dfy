/**
 * The request builders of the command catalogue that hold logic of their own,
 * and the parser of the error-status reply. Each builder grows the parameter
 * string that follows the two-letter identification code; a failed guard is
 * the ArgumentException (or the int.Parse exception) the library throws
 * before anything is sent.
 */
module Commands {
  import opened Wrappers
  import opened Wire
  import opened Enums
  import opened Command
  import Counter
  import EncodedCharacters
  import LineSettings = LineSettingsAndPrintAdjustment

  /** A failed computation stays failed; a successful one gets `head` in front. */
  function Prepend<T>(head: seq<T>, r: Result<seq<T>>): Result<seq<T>>
  {
    match r
    case Ok(v) => Ok(head + v)
    case Err(e) => Err(e)
  }

  lemma PrependNothing<T>(r: Result<seq<T>>)
    ensures Prepend([], r) == r
  {
    if r.Ok? {
      assert [] + r.value == r.value;
    }
  }

  lemma PrependTwice<T>(a: seq<T>, b: seq<T>, r: Result<seq<T>>)
    ensures Prepend(a, Prepend(b, r)) == Prepend(a + b, r)
  {
    if r.Ok? {
      assert a + (b + r.value) == (a + b) + r.value;
    }
  }

  // ---------------------------------------------------------------------------
  // SetPrintCharacterStringAsciiCode ("H2")
  // ---------------------------------------------------------------------------

  /** One (message number, character string) pair of the ASCII-code setting. */
  datatype MessageData = MessageData(messageNumber: Int32, characterStringData: string)

  /** The most UTF-16 code units one H2 command may carry over all its messages. */
  const MaxCharacters: int := 999

  /** The number of UTF-16 code units in all strings of `data`, the sum of their `.Length`. */
  function TotalLength(data: seq<MessageData>): nat
  {
    if |data| == 0 then 0 else Utf16Length(data[0].characterStringData) + TotalLength(data[1..])
  }

  predicate MessageNumbersValid(data: seq<MessageData>)
  {
    forall k :: 0 <= k < |data| ==> 1 <= data[k].messageNumber <= 64
  }

  /** The fields the entries put on the wire: message number, then string, for each entry in order. */
  function EntryFields(data: seq<MessageData>): (fields: seq<string>)
    ensures |fields| == 2 * |data|
  {
    if |data| == 0 then []
    else [IntToString(data[0].messageNumber), data[0].characterStringData] + EntryFields(data[1..])
  }

  /**
   * The foreach loop over the entries, from the point where `processed`
   * code units have been counted: check the message number, add the string's
   * length to the running total, fail once the total passes 999.
   */
  function AsciiEntries(data: seq<MessageData>, processed: int): Result<string>
    decreases |data|
  {
    if |data| == 0 then Ok("")
    else
      var messageNumber := data[0].messageNumber;
      if !(1 <= messageNumber <= 64) then Err(InvalidArgument("messageNumber"))
      else
        var total := processed + Utf16Length(data[0].characterStringData);
        if total > MaxCharacters then Err(InvalidArgument("characterStringData"))
        else
          Prepend(Prefixed([IntToString(messageNumber), data[0].characterStringData]), AsciiEntries(data[1..], total))
  }

  /** The entries succeed exactly when every message number is valid and the grand total stays within 999. */
  lemma {:induction false} AsciiEntriesOk(data: seq<MessageData>, processed: int)
    requires processed <= MaxCharacters
    ensures AsciiEntries(data, processed).Ok? <==>
              MessageNumbersValid(data) && processed + TotalLength(data) <= MaxCharacters
    ensures AsciiEntries(data, processed).Ok? ==> AsciiEntries(data, processed).value == Prefixed(EntryFields(data))
    decreases |data|
  {
    if |data| > 0 {
      var total := processed + Utf16Length(data[0].characterStringData);
      if total <= MaxCharacters {
        AsciiEntriesOk(data[1..], total);
      }
      assert MessageNumbersValid(data) <==> 1 <= data[0].messageNumber <= 64 && MessageNumbersValid(data[1..]) by {
        if MessageNumbersValid(data) {
          forall k | 0 <= k < |data[1..]| ensures 1 <= data[1..][k].messageNumber <= 64 {
            assert data[1..][k] == data[k + 1];
          }
        }
        if 1 <= data[0].messageNumber <= 64 && MessageNumbersValid(data[1..]) {
          forall k | 0 <= k < |data| ensures 1 <= data[k].messageNumber <= 64 {
            if k > 0 { assert data[k] == data[1..][k - 1]; }
          }
        }
      }
      PrefixedAppend([IntToString(data[0].messageNumber), data[0].characterStringData], EntryFields(data[1..]));
    }
  }

  /** The parameters of SetPrintCharacterStringAsciiCode, as a value. */
  function AsciiCodeParameters(programNumber: Int32, data: seq<MessageData>): (r: Result<string>)
    ensures r.Ok? <==> && 1 <= programNumber <= 500 && |data| <= 64
                       && MessageNumbersValid(data) && TotalLength(data) <= MaxCharacters
    ensures r.Ok? ==> r.value == Prefixed([IntToString(programNumber)] + EntryFields(data))
    ensures !(1 <= programNumber <= 500) ==> r == Err(InvalidArgument("programNumber"))
    ensures 1 <= programNumber <= 500 && |data| > 64 ==> r == Err(InvalidArgument("data"))
  {
    AsciiEntriesOk(data, 0);
    PrefixedAppend([IntToString(programNumber)], EntryFields(data));
    if !(1 <= programNumber <= 500) then Err(InvalidArgument("programNumber"))
    else if |data| > 64 then Err(InvalidArgument("data"))
    else Prepend(Prefixed([IntToString(programNumber)]), AsciiEntries(data, 0))
  }

  /** The builder itself: the loop keeps the running total and the string built so far. */
  method SetPrintCharacterStringAsciiCode(programNumber: Int32, data: seq<MessageData>) returns (r: Result<string>)
    ensures r == AsciiCodeParameters(programNumber, data)
  {
    var processedCharacters := 0;
    var parameters := "";
    if !(1 <= programNumber <= 500) {
      return Err(InvalidArgument("programNumber"));
    }
    parameters := parameters + "," + IntToString(programNumber);
    PrefixedPair(IntToString(programNumber), "");
    if |data| > 64 {
      return Err(InvalidArgument("data"));
    }
    var i := 0;
    assert data[i..] == data;
    assert parameters == Prefixed([IntToString(programNumber)]);
    assert AsciiCodeParameters(programNumber, data) == Prepend(Prefixed([IntToString(programNumber)]), AsciiEntries(data, 0));
    while i < |data|
      invariant 0 <= i <= |data|
      invariant AsciiCodeParameters(programNumber, data) == Prepend(parameters, AsciiEntries(data[i..], processedCharacters))
    {
      var MessageData(messageNumber, characterStringData) := data[i];
      assert data[i..][0] == data[i] && data[i..][1..] == data[i + 1..];
      if !(1 <= messageNumber <= 64) {
        return Err(InvalidArgument("messageNumber"));
      }
      processedCharacters := processedCharacters + Utf16Length(characterStringData);
      if processedCharacters > MaxCharacters {
        return Err(InvalidArgument("characterStringData"));
      }
      var entry := "," + IntToString(messageNumber) + "," + characterStringData;
      PrefixedPair(IntToString(messageNumber), characterStringData);
      PrependTwice(parameters, entry, AsciiEntries(data[i + 1..], processedCharacters));
      parameters := parameters + entry;
      i := i + 1;
    }
    assert data[i..] == [];
    assert parameters + "" == parameters;
    r := Ok(parameters);
  }

  /** When no string holds a comma, the printer reads back the program number and the entries in input order. */
  lemma AsciiCodeLayout(id: string, programNumber: Int32, data: seq<MessageData>)
    requires CommaFree(id) && AsciiCodeParameters(programNumber, data).Ok?
    requires forall k :: 0 <= k < |data| ==> CommaFree(data[k].characterStringData)
    ensures Split(id + AsciiCodeParameters(programNumber, data).value)
            == [id, IntToString(programNumber)] + EntryFields(data)
  {
    ProgramAndEntriesCommaFree(programNumber, data);
    SplitPrefixed(id, [IntToString(programNumber)] + EntryFields(data));
  }

  lemma ProgramAndEntriesCommaFree(programNumber: Int32, data: seq<MessageData>)
    requires forall k :: 0 <= k < |data| ==> CommaFree(data[k].characterStringData)
    ensures AllCommaFree([IntToString(programNumber)] + EntryFields(data))
  {
    EntryFieldsCommaFree(data);
    assert AllCommaFree([IntToString(programNumber)]) by {
      IntToStringCommaFree(programNumber);
    }
    AllCommaFreeConcat([IntToString(programNumber)], EntryFields(data));
  }

  lemma {:induction false} EntryFieldsCommaFree(data: seq<MessageData>)
    requires forall k :: 0 <= k < |data| ==> CommaFree(data[k].characterStringData)
    ensures AllCommaFree(EntryFields(data))
    decreases |data|
  {
    if |data| > 0 {
      assert forall k :: 0 <= k < |data[1..]| ==> data[1..][k] == data[k + 1];
      EntryFieldsCommaFree(data[1..]);
      IntToStringCommaFree(data[0].messageNumber);
      var fields := EntryFields(data);
      forall k | 0 <= k < |fields| ensures CommaFree(fields[k]) {
        if k >= 2 { assert fields[k] == EntryFields(data[1..])[k - 2]; }
      }
    }
  }

  // ---------------------------------------------------------------------------
  // ChangeCurrentCharacterStringInOperation ("BK") and RequestPrintResult ("UZ")
  // ---------------------------------------------------------------------------

  /**
   * The longest string, in UTF-16 code units, the running message may be changed
   * to, by character code: 240 for the single-byte codes, 120 for the double-byte
   * ones, 80 for UTF-8; the code "as at the time of setting" has no cap
   * because it is not accepted here.
   */
  function OperationCap(characterCode: CharacterCode): Option<nat>
  {
    if characterCode == Ascii || characterCode == Latin9 then Some(240)
    else if characterCode == Gb2312 || characterCode == Shiftjis then Some(120)
    else if characterCode == Utf8 then Some(80)
    else None
  }

  /** The parameters of ChangeCurrentCharacterStringInOperation. */
  function ChangeCurrentCharacterStringParameters(messageNumber: Int32, characterCode: CharacterCode,
                                                  characterStringData: string): (r: Result<string>)
    ensures r.Ok? <==> && 1 <= messageNumber <= 64 && OperationCap(characterCode).Some?
                       && Utf16Length(characterStringData) <= OperationCap(characterCode).value
    ensures r.Ok? ==> r.value == Prefixed([IntToString(messageNumber), IntToString(characterCode), characterStringData])
    ensures !(1 <= messageNumber <= 64) ==> r == Err(InvalidArgument("messageNumber"))
    ensures characterCode == RequestAtTimeOfSetting ==> r.Err?
  {
    if !(1 <= messageNumber <= 64) then Err(InvalidArgument("messageNumber"))
    else
      var n := Utf16Length(characterStringData);
      if || ((characterCode == Ascii || characterCode == Latin9) && n <= 240)
         || (characterCode == Utf8 && n <= 80)
         || ((characterCode == Gb2312 || characterCode == Shiftjis) && n <= 120)
      then
        PrefixedTriple(IntToString(messageNumber), IntToString(characterCode), characterStringData);
        Ok("," + IntToString(messageNumber) + "," + IntToString(characterCode) + "," + characterStringData)
      else Err(InvalidArgument("characterStringData"))
  }

  /** The message and code come first; the string runs to the end of the command, commas and all. */
  lemma ChangeCurrentCharacterStringLayout(id: string, messageNumber: Int32, characterCode: CharacterCode,
                                           characterStringData: string)
    requires CommaFree(id) && ChangeCurrentCharacterStringParameters(messageNumber, characterCode, characterStringData).Ok?
    ensures Split(id + ChangeCurrentCharacterStringParameters(messageNumber, characterCode, characterStringData).value)
            == [id, IntToString(messageNumber), IntToString(characterCode)] + Split(characterStringData)
  {
    var m := IntToString(messageNumber);
    var c := IntToString(characterCode);
    assert AllCommaFree([m, c]) by {
      IntToStringCommaFree(messageNumber);
      IntToStringCommaFree(characterCode);
    }
    PrefixedTriple(m, c, characterStringData);
    PrefixedPair(m, c);
    assert id + Prefixed([m, c, characterStringData]) == id + Prefixed([m, c]) + "," + characterStringData;
    SplitPrefixedThen(id, [m, c], characterStringData);
  }

  /** The parameters of RequestPrintResult. */
  function RequestPrintResultParameters(messageNumber: Int32, characterCode: CharacterCode): (r: Result<string>)
    ensures r.Ok? <==> 1 <= messageNumber <= 64 && characterCode != RequestAtTimeOfSetting
    ensures r.Ok? ==> r.value == Prefixed([IntToString(messageNumber), IntToString(characterCode)])
    ensures !(1 <= messageNumber <= 64) ==> r == Err(InvalidArgument("messageNumber"))
  {
    if !(1 <= messageNumber <= 64) then Err(InvalidArgument("messageNumber"))
    else if characterCode == RequestAtTimeOfSetting then Err(InvalidArgument("characterCode"))
    else
      PrefixedPair(IntToString(messageNumber), IntToString(characterCode));
      Ok("," + IntToString(messageNumber) + "," + IntToString(characterCode))
  }

  /** The triple RequestPrintResult returns. */
  datatype PrintResult = PrintResult(messageNumber: Int32, characterCode: CharacterCode, characterStringData: string)

  /** The reply of UZ: message number, character code and string at split[1..3]. */
  function PrintResultFromResponseString(rawResponseString: string): (r: Result<PrintResult>)
    ensures r.Ok? <==> var split := Split(rawResponseString);
                       |split| > 3 && ParseInt(split[1]).Some? && ParseEnum(split[2], []).Some?
    ensures r.Ok? ==> r.value.messageNumber == ParseInt(Split(rawResponseString)[1]).value
                      && r.value.characterCode == ParseEnum(Split(rawResponseString)[2], []).value
                      && r.value.characterStringData == Split(rawResponseString)[3]
  {
    var split := Split(rawResponseString);
    var messageNumber :- IntField(split, 1);
    var characterCode :- EnumField(split, 2);
    var characterStringData :- Field(split, 3);
    Ok(PrintResult(messageNumber, characterCode, characterStringData))
  }

  /**
   * A reply laid out as the BK command lays out its parameters reads back as
   * the triple that produced it, provided the string holds no comma.
   */
  lemma PrintResultRoundTrip(id: string, result: PrintResult)
    requires CommaFree(id) && CommaFree(result.characterStringData)
    ensures PrintResultFromResponseString(
              id + Prefixed([IntToString(result.messageNumber), IntToString(result.characterCode), result.characterStringData]))
            == Ok(result)
  {
    var fields := [IntToString(result.messageNumber), IntToString(result.characterCode), result.characterStringData];
    IntToStringCommaFree(result.messageNumber);
    IntToStringCommaFree(result.characterCode);
    SplitPrefixed(id, fields);
    var split := [id] + fields;
    IntFieldOfIntToString(split, 1, result.messageNumber);
    EnumFieldOfIntToString(split, 2, result.characterCode);
  }

  /** Every string the BK command accepts for a print-result code is read back unchanged through UZ. */
  lemma ChangedStringReportedBack(id: string, messageNumber: Int32, characterCode: CharacterCode, characterStringData: string)
    requires ChangeCurrentCharacterStringParameters(messageNumber, characterCode, characterStringData).Ok?
    requires CommaFree(id) && CommaFree(characterStringData)
    ensures RequestPrintResultParameters(messageNumber, characterCode).Ok?
    ensures PrintResultFromResponseString(id + ChangeCurrentCharacterStringParameters(messageNumber, characterCode, characterStringData).value)
            == Ok(PrintResult(messageNumber, characterCode, characterStringData))
  {
    PrintResultRoundTrip(id, PrintResult(messageNumber, characterCode, characterStringData));
  }

  // ---------------------------------------------------------------------------
  // InitializeLineSettingsAndPrintAdjustment ("FZ")
  // ---------------------------------------------------------------------------

  /**
   * The parameters of InitializeLineSettingsAndPrintAdjustment as written:
   * "ALL", "CMN" and numbers 1 to 500 are sent; a string that is no number
   * makes int.Parse throw; a number outside 1 to 500 is dropped without an
   * error, so the command goes out with no setting number at all.
   */
  function InitializeLineSettingsParameters(settingNumber: string): (r: Result<string>)
    ensures r.Err? <==> settingNumber != "ALL" && settingNumber != "CMN" && ParseInt(settingNumber).None?
    ensures r.Err? ==> r.error == BadFormat
    ensures r.Ok? && r.value != "" ==> r.value == Prefixed([settingNumber])
    ensures settingNumber == "ALL" || settingNumber == "CMN" ==> r == Ok(Prefixed([settingNumber]))
    ensures settingNumber != "ALL" && settingNumber != "CMN" && ParseInt(settingNumber).Some? ==>
              r == Ok(if 1 <= ParseInt(settingNumber).value <= 500 then Prefixed([settingNumber]) else "")
  {
    if settingNumber == "ALL" || settingNumber == "CMN" then Ok("," + settingNumber)
    else
      var n :- OrBadFormat(ParseInt(settingNumber));
      if 1 <= n <= 500 then Ok("," + settingNumber) else Ok("")
  }

  /** Setting number 600 is silently left out of the FZ command. */
  lemma InitializeLineSettingsOmitsOutOfRange()
    ensures InitializeLineSettingsParameters("600") == Ok("")
  {
    assert !IsWhite('6') && !IsWhite('0');
    assert TrimStart("600") == "600";
    assert TrimEnd("600") == "600";
    assert AllDigits("600");
    assert DigitsValue("600") == 600 by {
      assert "600"[..2] == "60";
      assert "60"[..1] == "6";
      assert "6"[..0] == "";
    }
    assert ParseSigned("600") == Some(600);
  }

  /**
   * The evidently intended check: the setting number is "ALL", or what the
   * line-settings record accepts as its program number ("CMN" or 1 to 500);
   * any other number is refused.
   */
  function CorrectedInitializeLineSettingsParameters(settingNumber: string): (r: Result<string>)
    ensures r.Ok? <==> settingNumber == "ALL" || settingNumber == "CMN"
                       || (ParseInt(settingNumber).Some? && 1 <= ParseInt(settingNumber).value <= 500)
    ensures r.Ok? ==> r.value == Prefixed([settingNumber]) && CommaFree(settingNumber)
  {
    if settingNumber == "ALL" then Ok(Prefixed([settingNumber]))
    else
      var s :- LineSettings.CheckProgramNumber(settingNumber);
      Ok(Prefixed([s]))
  }

  /**
   * The corrected builder agrees with the library wherever the library sends a
   * setting number, and an accepted setting number always reaches the printer
   * as field 1 of the command.
   */
  lemma CorrectedInitializeLineSettingsSendsNumber(id: string, settingNumber: string)
    requires CommaFree(id)
    ensures InitializeLineSettingsParameters(settingNumber).Ok? && InitializeLineSettingsParameters(settingNumber).value != ""
            ==> CorrectedInitializeLineSettingsParameters(settingNumber) == InitializeLineSettingsParameters(settingNumber)
    ensures CorrectedInitializeLineSettingsParameters(settingNumber).Ok?
            ==> InitializeLineSettingsParameters(settingNumber) == CorrectedInitializeLineSettingsParameters(settingNumber)
    ensures CorrectedInitializeLineSettingsParameters(settingNumber).Ok? ==>
              Split(id + CorrectedInitializeLineSettingsParameters(settingNumber).value) == [id, settingNumber]
  {
    if CorrectedInitializeLineSettingsParameters(settingNumber).Ok? {
      SplitPrefixed(id, [settingNumber]);
    }
  }

  // ---------------------------------------------------------------------------
  // Encoded-character settings: SetEncodedCharacters ("RA" ... "RS") and
  // SetShiftCodeEncodedCharacters ("RS")
  // ---------------------------------------------------------------------------

  /**
   * The command text SetEncodedCharacters sends: the type's set code, then the
   * record's parameters. The parameter's static type is the base record, so
   * the base ParameterString writes them, and a shift-code record goes out
   * with its header only.
   */
  function SetEncodedCharactersCommand(parameters: EncodedCharacters.EncodedCharactersParameters,
                                       encodedType: EncodedCharacters.EncodedType): (r: Result<string>)
    ensures r.Ok? <==> !encodedType.AllTypesIncludingShift?
    ensures r.Ok? && parameters.Flat? ==>
              r.value == EncodedCharacters.SetIdentificationCodeString(encodedType).value + parameters.ParameterString()
    ensures r.Ok? && parameters.ShiftCoded? ==>
              r.value == EncodedCharacters.SetIdentificationCodeString(encodedType).value + Prefixed(parameters.Header())
  {
    EncodedCharacters.BaseParameterStringOf(parameters);
    var code :- EncodedCharacters.SetIdentificationCodeString(encodedType);
    Ok(code + parameters.BaseParameterString())
  }

  /** The command text SetShiftCodeEncodedCharacters sends: "RS", then the shift-code record's own parameters. */
  function SetShiftCodeEncodedCharactersCommand(parameters: EncodedCharacters.EncodedCharactersParameters): (r: string)
    requires parameters.ShiftCoded?
    ensures r == EncodedCharacters.SetIdentificationCodeString(EncodedCharacters.ShiftCode).value
                 + Prefixed(parameters.Header() + EncodedCharacters.DivisionFields(parameters.division))
  {
    "RS" + parameters.ParameterString()
  }

  /**
   * A shift-code record sent through SetEncodedCharacters goes out under the
   * same code as through SetShiftCodeEncodedCharacters, but without its
   * divisions, so the two commands agree exactly when there are none.
   */
  lemma SetEncodedCharactersDropsDivisions(parameters: EncodedCharacters.EncodedCharactersParameters)
    requires parameters.ShiftCoded?
    ensures SetEncodedCharactersCommand(parameters, EncodedCharacters.ShiftCode) == Ok("RS" + Prefixed(parameters.Header()))
    ensures (SetEncodedCharactersCommand(parameters, EncodedCharacters.ShiftCode)
               == Ok(SetShiftCodeEncodedCharactersCommand(parameters)))
            <==> |parameters.division| == 0
  {
    EncodedCharacters.BaseParameterStringOf(parameters);
    if |parameters.division| == 0 {
      assert parameters.Header() + EncodedCharacters.DivisionFields(parameters.division) == parameters.Header();
    }
  }

  // ---------------------------------------------------------------------------
  // Encoded-character requests ("RB" ... "RT") and initialisation ("RX")
  // ---------------------------------------------------------------------------

  /** The parameters of RequestEncodedCharacters and its per-type variants: ",n, cc". */
  function RequestEncodedCharactersParameters(encodedCharacters: Int32, characterCode: CharacterCode): (r: Result<string>)
    ensures r.Ok? <==> 1 <= encodedCharacters <= 10
    ensures r.Ok? ==> r.value == Prefixed([IntToString(encodedCharacters), " " + IntToString(characterCode)])
  {
    PrefixedPair(IntToString(encodedCharacters), " " + IntToString(characterCode));
    if 1 <= encodedCharacters <= 10 then Ok("," + IntToString(encodedCharacters) + ", " + IntToString(characterCode))
    else Err(InvalidArgument("encodedCharacters"))
  }

  /** The space in front of the character code is white space that int.Parse trims, so both numbers read back. */
  lemma RequestEncodedCharactersReadBack(id: string, encodedCharacters: Int32, characterCode: CharacterCode)
    requires CommaFree(id) && 1 <= encodedCharacters <= 10
    ensures var split := Split(id + RequestEncodedCharactersParameters(encodedCharacters, characterCode).value);
            && split == [id, IntToString(encodedCharacters), " " + IntToString(characterCode)]
            && ParseInt(split[1]) == Some(encodedCharacters)
            && ParseInt(split[2]) == Some(characterCode)
  {
    var n := IntToString(encodedCharacters);
    var code := IntToString(characterCode);
    assert RequestEncodedCharactersParameters(encodedCharacters, characterCode).value == Prefixed([n, " " + code]);
    assert Split(id + Prefixed([n, " " + code])) == [id, n, " " + code] by {
      assert AllCommaFree([n, " " + code]) by {
        IntToStringCommaFree(encodedCharacters);
        IntToStringCommaFree(characterCode);
        LeadingSpace(code);
      }
      SplitPrefixed(id, [n, " " + code]);
    }
    assert ParseInt(n) == Some(encodedCharacters) by {
      ParseIntOfIntToString(encodedCharacters);
    }
    assert ParseInt(" " + code) == Some(characterCode) by {
      ParseIntOfIntToString(characterCode);
      LeadingSpace(code);
    }
  }

  /** A space in front adds no comma and is trimmed away before a number is read. */
  lemma LeadingSpace(s: string)
    ensures CommaFree(s) ==> CommaFree(" " + s)
    ensures ParseInt(" " + s) == ParseInt(s)
  {
    assert (" " + s)[1..] == s;
    assert TrimStart(" " + s) == TrimStart(s);
  }

  /** The parameters of InitializeEncodedCharacters: the type's token, then "AL" or a number 1 to 10. */
  function InitializeEncodedCharactersParameters(encodedType: EncodedCharacters.EncodedType, encodedNumber: string): (r: Result<string>)
    ensures r.Ok? <==> encodedNumber == "AL" || (ParseInt(encodedNumber).Some? && 1 <= ParseInt(encodedNumber).value <= 10)
    ensures r.Ok? ==> r.value == Prefixed([EncodedCharacters.EncodedTypeToString(encodedType), encodedNumber])
    ensures encodedNumber != "AL" && ParseInt(encodedNumber).None? ==> r == Err(BadFormat)
  {
    var parameters := "," + EncodedCharacters.EncodedTypeToString(encodedType);
    PrefixedPair(EncodedCharacters.EncodedTypeToString(encodedType), encodedNumber);
    if encodedNumber == "AL" then Ok(parameters + "," + encodedNumber)
    else
      var n :- OrBadFormat(ParseInt(encodedNumber));
      if 1 <= n <= 10 then Ok(parameters + "," + encodedNumber) else Err(InvalidArgument("encodedNumber"))
  }

  /** The printer reads the type back from its token and the number as sent. */
  lemma InitializeEncodedCharactersReadBack(id: string, encodedType: EncodedCharacters.EncodedType, encodedNumber: string)
    requires CommaFree(id) && InitializeEncodedCharactersParameters(encodedType, encodedNumber).Ok?
    ensures var split := Split(id + InitializeEncodedCharactersParameters(encodedType, encodedNumber).value);
            && split == [id, EncodedCharacters.EncodedTypeToString(encodedType), encodedNumber]
            && EncodedCharacters.StringToEncodedType(split[1]) == Some(encodedType)
  {
    var token := EncodedCharacters.EncodedTypeToString(encodedType);
    assert EncodedCharacters.StringToEncodedType(token) == Some(encodedType) by {
      EncodedCharacters.EncodedTypeTokensInverse(encodedType, "");
    }
    assert AllCommaFree([token, encodedNumber]) by {
      if encodedNumber != "AL" {
        ParsedIsCommaFree(encodedNumber);
      }
    }
    SplitPrefixed(id, [token, encodedNumber]);
  }

  // ---------------------------------------------------------------------------
  // Counter requests ("CP" and "CZ")
  // ---------------------------------------------------------------------------

  /** The letters RequestCounterConditions accepts: A to J, without the L the counter records allow. */
  predicate IsRequestCounterLetter(s: string)
  {
    |s| == 1 && 'A' <= s[0] <= 'J'
  }

  /** The parameters of RequestCounterConditions. */
  function RequestCounterConditionsParameters(programNumber: Int32, counterNumber: string): (r: Result<string>)
    ensures r.Ok? <==> && 0 <= programNumber <= 500
                       && (IsRequestCounterLetter(counterNumber)
                           || (ParseInt(counterNumber).Some? && 1 <= ParseInt(counterNumber).value <= 9))
    ensures r.Ok? ==> r.value == Prefixed([IntToString(programNumber), counterNumber])
    ensures 0 <= programNumber <= 500 && !IsRequestCounterLetter(counterNumber) && ParseInt(counterNumber).None?
            ==> r == Err(BadFormat)
  {
    if !(0 <= programNumber <= 500) then Err(InvalidArgument("programNumber"))
    else
      var parameters := "," + IntToString(programNumber);
      PrefixedPair(IntToString(programNumber), counterNumber);
      if IsRequestCounterLetter(counterNumber) then Ok(parameters + "," + counterNumber)
      else
        var n :- OrBadFormat(ParseInt(counterNumber));
        if 1 <= n <= 9 then Ok(parameters + "," + counterNumber) else Err(InvalidArgument("counterNumber"))
  }

  /** The parameters of InitializeCounterConditions: the counter records' program and counter checks. */
  function InitializeCounterConditionsParameters(programNumber: string, counterNumber: string): (r: Result<string>)
    ensures r.Ok? <==> Counter.CheckProgramNumber(programNumber).Ok? && Counter.CheckCounterNumber(counterNumber).Ok?
    ensures r.Ok? ==> r.value == Prefixed([programNumber, counterNumber])
  {
    var p :- Counter.CheckProgramNumber(programNumber);
    var c :- Counter.CheckCounterNumber(counterNumber);
    PrefixedPair(p, c);
    Ok("," + p + "," + c)
  }

  /**
   * Every counter RequestCounterConditions accepts is one the counter records
   * accept, and the printer reads program and counter back as fields 1 and 2.
   */
  lemma RequestCounterWithinCounterDomain(id: string, programNumber: Int32, counterNumber: string)
    requires CommaFree(id) && RequestCounterConditionsParameters(programNumber, counterNumber).Ok?
    ensures Counter.CheckCounterNumber(counterNumber).Ok?
    ensures Split(id + RequestCounterConditionsParameters(programNumber, counterNumber).value)
            == [id, IntToString(programNumber), counterNumber]
  {
    assert AllCommaFree([IntToString(programNumber), counterNumber]) by {
      IntToStringCommaFree(programNumber);
      if !IsRequestCounterLetter(counterNumber) {
        ParsedIsCommaFree(counterNumber);
      }
    }
    SplitPrefixed(id, [IntToString(programNumber), counterNumber]);
  }

  /** Counter "L" can be initialised and set, but RequestCounterConditions refuses it in int.Parse. */
  lemma CounterLOnlyOutsideRequest(programNumber: Int32)
    requires 0 <= programNumber <= 500
    ensures RequestCounterConditionsParameters(programNumber, "L") == Err(BadFormat)
    ensures Counter.CheckCounterNumber("L") == Ok("L")
    ensures InitializeCounterConditionsParameters(IntToString(programNumber), "L")
            == Ok(Prefixed([IntToString(programNumber), "L"]))
  {
    assert ParseInt("L").None? by {
      assert !IsWhite('L');
      assert TrimStart("L") == "L";
      assert TrimEnd("L") == "L";
      assert !IsDigit("L"[0]);
    }
    assert Counter.IsCounterLetter("L");
    assert IntToString(programNumber) != "ALL" by {
      assert IntToString(programNumber)[0] != 'A';
    }
    ParseIntOfIntToString(programNumber);
  }

  // ---------------------------------------------------------------------------
  // RequestErrorStatus ("EV")
  // ---------------------------------------------------------------------------

  /** An entry of the printer's error-status catalogue: its level, code and text. */
  datatype ErrorStatus = ErrorStatus(errorLevel: Int32, code: Int32, message: string)

  /**
   * `ErrorStatuses.Data.First(x => x.Code == code)`, with None where First
   * would throw.
   */
  function FirstStatusWithCode(table: seq<ErrorStatus>, code: Int32): (r: Option<ErrorStatus>)
    ensures r.Some? ==> r.value in table && r.value.code == code
    ensures r.None? ==> forall i :: 0 <= i < |table| ==> table[i].code != code
  {
    if |table| == 0 then None
    else if table[0].code == code then Some(table[0])
    else
      assert forall i :: 1 <= i < |table| ==> table[i] == table[1..][i - 1];
      FirstStatusWithCode(table[1..], code)
  }

  /**
   * The entry found is the first one carrying the code; the catalogue lists
   * code 102 twice, and the lookup always answers with the earlier entry.
   */
  lemma {:induction false} FirstStatusIsFirst(table: seq<ErrorStatus>, code: Int32, i: nat)
    requires i < |table| && table[i].code == code
    requires forall j :: 0 <= j < i ==> table[j].code != code
    ensures FirstStatusWithCode(table, code) == Some(table[i])
    decreases i
  {
    if i > 0 {
      assert table[1..][i - 1] == table[i];
      assert forall j :: 0 <= j < i - 1 ==> table[1..][j] == table[j + 1];
      FirstStatusIsFirst(table[1..], code, i - 1);
    }
  }

  /** A status field reads as a number that the catalogue knows. */
  predicate StatusFieldOk(table: seq<ErrorStatus>, field: string)
  {
    ParseInt(field).Some? && FirstStatusWithCode(table, ParseInt(field).value).Some?
  }

  /** The exception a bad status field raises: int.Parse's, or First's when the number is unknown. */
  function StatusFieldFault(table: seq<ErrorStatus>, field: string): Fault
  {
    if ParseInt(field).None? then BadFormat else NoMatch
  }

  /** The catalogue entry a good status field stands for. */
  function StatusOfField(table: seq<ErrorStatus>, field: string): ErrorStatus
    requires StatusFieldOk(table, field)
  {
    FirstStatusWithCode(table, ParseInt(field).value).value
  }

  /**
   * The loop of RequestErrorStatus over split[i] .. split[end - 1]: parse the
   * field, look its code up, go on with the next field; the first field that
   * fails ends the loop with its exception.
   */
  function StatusesFrom(split: seq<string>, table: seq<ErrorStatus>, i: nat, end: int): Result<seq<ErrorStatus>>
    requires end <= |split|
    decreases end - i
  {
    if i >= end then Ok([])
    else if !StatusFieldOk(table, split[i]) then Err(StatusFieldFault(table, split[i]))
    else Prepend([StatusOfField(table, split[i])], StatusesFrom(split, table, i + 1, end))
  }

  /** The fields all parse and are catalogued exactly when the loop succeeds, and then it yields their entries in order. */
  lemma {:induction false} StatusesFromOk(split: seq<string>, table: seq<ErrorStatus>, i: nat, end: int)
    requires end <= |split|
    ensures StatusesFrom(split, table, i, end).Ok? <==> forall k :: i <= k < end ==> StatusFieldOk(table, split[k])
    ensures var r := StatusesFrom(split, table, i, end);
            r.Ok? ==> && |r.value| == (if i < end then end - i else 0)
                      && forall k :: i <= k < end ==> r.value[k - i] == StatusOfField(table, split[k])
    decreases end - i
  {
    if i < end {
      StatusesFromOk(split, table, i + 1, end);
      var r := StatusesFrom(split, table, i, end);
      if r.Ok? {
        var rest := StatusesFrom(split, table, i + 1, end).value;
        assert r.value == [StatusOfField(table, split[i])] + rest;
        forall k | i <= k < end ensures r.value[k - i] == StatusOfField(table, split[k]) {
          if k > i {
            assert r.value[k - i] == rest[k - (i + 1)];
          }
        }
      }
    }
  }

  /** The first bad field decides the exception. */
  lemma {:induction false} StatusesFromFirstFault(split: seq<string>, table: seq<ErrorStatus>, i: nat, end: int, k: nat)
    requires end <= |split| && i <= k < end && !StatusFieldOk(table, split[k])
    requires forall j :: i <= j < k ==> StatusFieldOk(table, split[j])
    ensures StatusesFrom(split, table, i, end) == Err(StatusFieldFault(table, split[k]))
    decreases k - i
  {
    if i < k {
      StatusesFromFirstFault(split, table, i + 1, end, k);
    }
  }

  /** `length` slots: the catalogue entries first, unset slots after them. */
  function Filled(statuses: seq<ErrorStatus>, length: nat): (slots: seq<Option<ErrorStatus>>)
    ensures |slots| == length
  {
    seq(length, k requires 0 <= k < length => if k < |statuses| then Some(statuses[k]) else None)
  }

  /** Storing the next entry in the first unset slot. */
  lemma FilledStep(statuses: seq<ErrorStatus>, next: ErrorStatus, length: nat)
    requires |statuses| < length
    ensures Filled(statuses, length)[|statuses| := Some(next)] == Filled(statuses + [next], length)
  {
  }

  /**
   * The array RequestErrorStatus fills from the split reply, as a value: one
   * slot per field after the identification code, the loop visiting
   * split[1] up to, not including, split[Length - 2].
   */
  function SlotsOf(split: seq<string>, table: seq<ErrorStatus>): Result<seq<Option<ErrorStatus>>>
    requires |split| >= 1
  {
    var statuses :- StatusesFrom(split, table, 1, |split| - 2);
    Ok(Filled(statuses, |split| - 1))
  }

  /** The array RequestErrorStatus returns for a normal reply, as a value. */
  function ErrorStatusesOf(response: string, table: seq<ErrorStatus>): Result<seq<Option<ErrorStatus>>>
  {
    SlotsOf(Split(response), table)
  }

  /**
   * One slot per field after the identification code; slot i - 1 holds the
   * entry for split[i] for 1 <= i < Length - 2, and the slots after those
   * stay unset.
   */
  lemma ErrorStatusesSlots(split: seq<string>, table: seq<ErrorStatus>)
    requires |split| >= 1
    ensures SlotsOf(split, table).Ok? <==> forall i :: 1 <= i < |split| - 2 ==> StatusFieldOk(table, split[i])
    ensures var r := SlotsOf(split, table);
            r.Ok? ==> && |r.value| == |split| - 1
                      && (forall i :: 1 <= i < |split| - 2 ==> r.value[i - 1] == Some(StatusOfField(table, split[i])))
                      && (forall i :: 0 <= i < |split| - 1 && i >= |split| - 3 ==> r.value[i].None?)
  {
    StatusesFromOk(split, table, 1, |split| - 2);
    var r := StatusesFrom(split, table, 1, |split| - 2);
    if r.Ok? {
      var slots := Filled(r.value, |split| - 1);
      assert SlotsOf(split, table) == Ok(slots);
      forall i | 1 <= i < |split| - 2 ensures slots[i - 1] == Some(StatusOfField(table, split[i])) {
        assert slots[i - 1] == Some(r.value[i - 1]);
      }
      forall i | 0 <= i < |split| - 1 && i >= |split| - 3 ensures slots[i].None? {
        assert i >= |r.value|;
      }
    }
  }

  /**
   * RequestErrorStatus on the classified reply: an error reply gives an empty
   * array and the error; a normal reply is parsed by the loop that fills the
   * array; no reply at all gives an empty array.
   */
  method RequestErrorStatus(reply: Reply, table: seq<ErrorStatus>)
    returns (statuses: Result<seq<Option<ErrorStatus>>>, error: Option<ErrorResponses.ErrorResponse>)
    ensures reply.error.Some? ==> statuses == Ok([]) && error == reply.error
    ensures reply.error.None? && reply.response.Some? ==>
              statuses == ErrorStatusesOf(reply.response.value, table) && error.None?
    ensures reply.error.None? && reply.response.None? ==> statuses == Ok([]) && error.None?
  {
    if reply.error.Some? {
      return Ok([]), reply.error;
    }
    if reply.response.None? {
      return Ok([]), None;
    }
    error := None;
    statuses := ParseErrorStatuses(Split(reply.response.value), table);
  }

  /** The loop of RequestErrorStatus: parse each status field of the split reply and store its catalogue entry. */
  method ParseErrorStatuses(split: seq<string>, table: seq<ErrorStatus>) returns (statuses: Result<seq<Option<ErrorStatus>>>)
    requires |split| >= 1
    ensures statuses == SlotsOf(split, table)
  {
    // Split never returns an empty array, so the library's Length == 0 branch cannot run.
    var len := |split| - 2;
    var errorStatuses := new Option<ErrorStatus>[|split| - 1](_ => None);
    ghost var done: seq<ErrorStatus> := [];
    var i := 1;
    PrependNothing(StatusesFrom(split, table, 1, len));
    while i < len
      invariant 1 <= i && (len >= 1 ==> i <= len)
      invariant |done| == i - 1 <= errorStatuses.Length
      invariant errorStatuses[..] == Filled(done, errorStatuses.Length)
      invariant StatusesFrom(split, table, 1, len) == Prepend(done, StatusesFrom(split, table, i, len))
    {
      var code := ParseInt(split[i]);
      if code.None? {
        return Err(BadFormat);
      }
      var errorStatus := FirstStatusWithCode(table, code.value);
      if errorStatus.None? {
        return Err(NoMatch);
      }
      errorStatuses[i - 1] := errorStatus;
      FilledStep(done, errorStatus.value, errorStatuses.Length);
      PrependTwice(done, [errorStatus.value], StatusesFrom(split, table, i + 1, len));
      done := done + [errorStatus.value];
      i := i + 1;
    }
    assert done + [] == done;
    statuses := Ok(errorStatuses[..]);
  }

  /**
   * A reply whose status codes are all catalogued, followed by two more
   * fields: every code yields its entry in order, and the last two fields
   * are never parsed, so their slots stay unset whatever they hold.
   */
  lemma ErrorStatusesOfCodes(id: string, codes: seq<Int32>, tail: seq<string>, table: seq<ErrorStatus>)
    requires CommaFree(id) && |tail| == 2 && AllCommaFree(tail)
    requires forall k :: 0 <= k < |codes| ==> FirstStatusWithCode(table, codes[k]).Some?
    ensures var r := ErrorStatusesOf(id + Prefixed(IntStrings(codes) + tail), table);
            && r.Ok? && |r.value| == |codes| + 2
            && (forall k :: 0 <= k < |codes| ==> r.value[k] == FirstStatusWithCode(table, codes[k]))
            && r.value[|codes|] == None && r.value[|codes| + 1] == None
  {
    var fields := IntStrings(codes) + tail;
    assert Split(id + Prefixed(fields)) == [id] + fields by {
      IntStringsCommaFree([], codes);
      assert [] + IntStrings(codes) == IntStrings(codes);
      AllCommaFreeConcat(IntStrings(codes), tail);
      SplitPrefixed(id, fields);
    }
    ErrorStatusesOfCodedSplit(id + Prefixed(fields), [id] + fields, codes, table);
  }

  lemma ErrorStatusesOfCodedSplit(response: string, split: seq<string>, codes: seq<Int32>, table: seq<ErrorStatus>)
    requires Split(response) == split && |split| == |codes| + 3
    requires forall k :: 0 <= k < |codes| ==> split[k + 1] == IntToString(codes[k])
    requires forall k :: 0 <= k < |codes| ==> FirstStatusWithCode(table, codes[k]).Some?
    ensures var r := ErrorStatusesOf(response, table);
            && r.Ok? && |r.value| == |codes| + 2
            && (forall k :: 0 <= k < |codes| ==> r.value[k] == FirstStatusWithCode(table, codes[k]))
            && r.value[|codes|] == None && r.value[|codes| + 1] == None
  {
    ErrorStatusesSlots(split, table);
    assert forall i :: 1 <= i < |split| - 2 ==>
             StatusFieldOk(table, split[i]) && Some(StatusOfField(table, split[i])) == FirstStatusWithCode(table, codes[i - 1]) by {
      forall i | 1 <= i < |split| - 2
        ensures StatusFieldOk(table, split[i]) && Some(StatusOfField(table, split[i])) == FirstStatusWithCode(table, codes[i - 1])
      {
        assert split[i] == IntToString(codes[i - 1]);
        ParseIntOfIntToString(codes[i - 1]);
      }
    }
  }
}
