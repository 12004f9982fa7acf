/**
 * Print character strings: the set command (program, message, character code
 * and the data itself), the request command (program, message, update format
 * and character code) and the printer's response to the request, which echoes
 * the request's fields followed by the data.
 */
module PrintCharacterString {
  import opened Wrappers
  import opened Wire
  import opened Enums

  type UpdateCharacterFormat = Int32
  const UpdateCharacters: UpdateCharacterFormat := 0
  const CharactersToActuallyPrint: UpdateCharacterFormat := 1

  datatype PrintCharacterStringSetCommandParameters = PrintCharacterStringSetCommandParameters(
    programNumber: Int32,
    messageNumber: Int32,
    characterCode: CharacterCode,
    characterStringData: string)
  {
    function ParameterString(): string
    {
      Prefixed([IntToString(programNumber), IntToString(messageNumber), IntToString(characterCode),
                characterStringData])
    }
  }

  datatype PrintCharacterStringRequestCommandParameters = PrintCharacterStringRequestCommandParameters(
    programNumber: Int32,
    messageNumber: Int32,
    updateCharacterFormat: UpdateCharacterFormat,
    characterCode: CharacterCode)
  {
    function ParameterString(): string
    {
      Prefixed([IntToString(programNumber), IntToString(messageNumber), IntToString(updateCharacterFormat),
                IntToString(characterCode)])
    }
  }

  datatype PrintCharacterStringRequestResponseParameters = PrintCharacterStringRequestResponseParameters(
    programNumber: Int32,
    messageNumber: Int32,
    updateCharacterFormat: UpdateCharacterFormat,
    characterCode: CharacterCode,
    characterStringData: string)
  {
    function ParameterString(): string
    {
      Prefixed([IntToString(programNumber), IntToString(messageNumber), IntToString(updateCharacterFormat),
                IntToString(characterCode), characterStringData])
    }
  }

  function CreatePrintCharacterStringRequestResponseParametersFromResponseString(rawResponseString: string)
    : Result<PrintCharacterStringRequestResponseParameters>
  {
    var split := Split(rawResponseString);
    var programNumber :- IntField(split, 1);
    var messageNumber :- IntField(split, 2);
    var updateCharacterFormat :- EnumField(split, 3);
    var characterCode :- EnumField(split, 4);
    var characterStringData :- Field(split, 5);
    Ok(PrintCharacterStringRequestResponseParameters(programNumber, messageNumber, updateCharacterFormat,
      characterCode, characterStringData))
  }

  /** Program 1 to 500, message 1 to 64 and data of at most 999 UTF-16 code units, stored unchanged. */
  function CreateSetCommandParameters(programNumber: Int32, messageNumber: Int32, characterCode: CharacterCode,
                                      characterStringData: string)
    : (r: Result<PrintCharacterStringSetCommandParameters>)
    ensures r.Ok? <==> && 1 <= programNumber <= 500 && 1 <= messageNumber <= 64
                       && Utf16Length(characterStringData) <= 999
    ensures r.Ok? ==> r.value == PrintCharacterStringSetCommandParameters(programNumber, messageNumber,
                                   characterCode, characterStringData)
  {
    if !(1 <= programNumber <= 500) then Err(InvalidArgument("programNumber"))
    else if !(1 <= messageNumber <= 64) then Err(InvalidArgument("messageNumber"))
    else if !(Utf16Length(characterStringData) <= 999) then Err(InvalidArgument("characterStringData"))
    else Ok(PrintCharacterStringSetCommandParameters(programNumber, messageNumber, characterCode,
      characterStringData))
  }

  /** Program 1 to 500 and message 1 to 64; the format and the character code pass through. */
  function CreateRequestCommandParameters(programNumber: Int32, messageNumber: Int32,
                                          updateCharacterFormat: UpdateCharacterFormat,
                                          characterCode: CharacterCode)
    : (r: Result<PrintCharacterStringRequestCommandParameters>)
    ensures r.Ok? <==> 1 <= programNumber <= 500 && 1 <= messageNumber <= 64
    ensures r.Ok? ==> r.value == PrintCharacterStringRequestCommandParameters(programNumber, messageNumber,
                                   updateCharacterFormat, characterCode)
  {
    if !(1 <= programNumber <= 500) then Err(InvalidArgument("programNumber"))
    else if !(1 <= messageNumber <= 64) then Err(InvalidArgument("messageNumber"))
    else Ok(PrintCharacterStringRequestCommandParameters(programNumber, messageNumber, updateCharacterFormat,
      characterCode))
  }

  /**
   * The data of a set command is its last field and is written as it is, so
   * the command splits into the three numbers followed by the data's own
   * comma-separated pieces.
   */
  lemma SetCommandLayout(id: string, p: PrintCharacterStringSetCommandParameters)
    requires CommaFree(id)
    ensures Split(id + p.ParameterString())
            == [id, IntToString(p.programNumber), IntToString(p.messageNumber), IntToString(p.characterCode)]
               + Split(p.characterStringData)
  {
    var head := [IntToString(p.programNumber), IntToString(p.messageNumber), IntToString(p.characterCode)];
    IntToStringCommaFree(p.programNumber);
    IntToStringCommaFree(p.messageNumber);
    IntToStringCommaFree(p.characterCode);
    var d := p.characterStringData;
    PrefixedAppend(head, [d]);
    assert head + [d] == [head[0], head[1], head[2], d];
    assert Prefixed([d]) == "," + d by {
      assert [d][1..] == [];
    }
    assert id + p.ParameterString() == id + Prefixed(head) + "," + d;
    SplitPrefixedThen(id, head, d);
  }

  /** The response writes the request's four fields and then the data. */
  lemma ResponseExtendsRequest(q: PrintCharacterStringRequestCommandParameters, data: string)
    ensures PrintCharacterStringRequestResponseParameters(q.programNumber, q.messageNumber,
              q.updateCharacterFormat, q.characterCode, data).ParameterString()
            == q.ParameterString() + Prefixed([data])
  {
    var fields := [IntToString(q.programNumber), IntToString(q.messageNumber), IntToString(q.updateCharacterFormat),
                   IntToString(q.characterCode)];
    PrefixedAppend(fields, [data]);
    assert fields + [data] == [IntToString(q.programNumber), IntToString(q.messageNumber),
      IntToString(q.updateCharacterFormat), IntToString(q.characterCode), data];
  }

  lemma ResponseOfSplit(raw: string, split: seq<string>, p: PrintCharacterStringRequestResponseParameters)
    requires |split| >= 6 && Split(raw) == split
    requires split[1] == IntToString(p.programNumber) && split[2] == IntToString(p.messageNumber)
    requires split[3] == IntToString(p.updateCharacterFormat) && split[4] == IntToString(p.characterCode)
    requires split[5] == p.characterStringData
    ensures CreatePrintCharacterStringRequestResponseParametersFromResponseString(raw) == Ok(p)
  {
    IntFieldOfIntToString(split, 1, p.programNumber);
    IntFieldOfIntToString(split, 2, p.messageNumber);
    EnumFieldOfIntToString(split, 3, p.updateCharacterFormat);
    EnumFieldOfIntToString(split, 4, p.characterCode);
  }

  /** The fields sit where the encoder writes them, so the decoder inverts the encoder when the data has no comma. */
  lemma ResponseRoundTrip(id: string, p: PrintCharacterStringRequestResponseParameters)
    requires CommaFree(id) && CommaFree(p.characterStringData)
    ensures CreatePrintCharacterStringRequestResponseParametersFromResponseString(id + p.ParameterString()) == Ok(p)
  {
    var fields := [IntToString(p.programNumber), IntToString(p.messageNumber), IntToString(p.updateCharacterFormat),
                   IntToString(p.characterCode), p.characterStringData];
    IntToStringCommaFree(p.programNumber);
    IntToStringCommaFree(p.messageNumber);
    IntToStringCommaFree(p.updateCharacterFormat);
    IntToStringCommaFree(p.characterCode);
    SplitFive(id, fields[0], fields[1], fields[2], fields[3], fields[4]);
    ResponseOfSplit(id + p.ParameterString(), [id] + fields, p);
  }

  lemma SplitFive(id: string, a: string, b: string, c: string, d: string, e: string)
    requires CommaFree(id) && CommaFree(a) && CommaFree(b) && CommaFree(c) && CommaFree(d) && CommaFree(e)
    ensures Split(id + Prefixed([a, b, c, d, e])) == [id, a, b, c, d, e]
  {
    SplitPrefixed(id, [a, b, c, d, e]);
  }

  /** A comma in the data splits it, and the decoder keeps only the part before the first comma. */
  lemma CommaInDataTruncates(id: string, q: PrintCharacterStringRequestCommandParameters, a: string, b: string)
    requires CommaFree(id) && CommaFree(a) && CommaFree(b)
    ensures var p := PrintCharacterStringRequestResponseParameters(q.programNumber, q.messageNumber,
                       q.updateCharacterFormat, q.characterCode, a + "," + b);
            CreatePrintCharacterStringRequestResponseParametersFromResponseString(id + p.ParameterString())
              == Ok(p.(characterStringData := a))
  {
    var p := PrintCharacterStringRequestResponseParameters(q.programNumber, q.messageNumber,
               q.updateCharacterFormat, q.characterCode, a + "," + b);
    var head := [IntToString(q.programNumber), IntToString(q.messageNumber), IntToString(q.updateCharacterFormat),
                 IntToString(q.characterCode)];
    IntToStringCommaFree(q.programNumber);
    IntToStringCommaFree(q.messageNumber);
    IntToStringCommaFree(q.updateCharacterFormat);
    IntToStringCommaFree(q.characterCode);
    assert head + [a + "," + b] == [head[0], head[1], head[2], head[3], a + "," + b];
    assert head + [a, b] == [head[0], head[1], head[2], head[3], a, b];
    PrefixedLastComma(head, a, b);
    assert AllCommaFree(head + [a, b]);
    SplitPrefixed(id, head + [a, b]);
    ResponseOfSplit(id + p.ParameterString(), [id] + head + [a, b], p.(characterStringData := a));
  }
}
