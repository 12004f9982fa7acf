/**
 * Barcode conditions: the symbology (written as a one-character wire token),
 * the bar geometry and the human-readable line, with their validating
 * constructor, the encoder and the decoder of the printer's reply.
 */
module BarcodeConditions {
  import opened Wrappers
  import opened Wire
  import opened Enums

  datatype BarcodeType =
    | Itf | Code39 | TwoOfFive | Nw7Codabar | Code128
    | ItfCheckDigitOn | Code39CheckDigitOn | Nw7CodabarCheckDigitOn
    | UpcE | Jan8 | UpcA | Jan13

  /** Defined outside these sources; only its integer is ever written or read. */
  type PrintType = Int32

  type HumanReadable = Int32
  const Off: HumanReadable := 0
  const On5X5: HumanReadable := 1
  const On7X5: HumanReadable := 2

  /** The wire token of each barcode type: digits for the first eight, letters for the UPC/JAN family. */
  function BarcodeTypeToString(barcodeType: BarcodeType): string
  {
    match barcodeType
    case Itf => "0"
    case Code39 => "1"
    case TwoOfFive => "2"
    case Nw7Codabar => "3"
    case Code128 => "4"
    case ItfCheckDigitOn => "5"
    case Code39CheckDigitOn => "6"
    case Nw7CodabarCheckDigitOn => "7"
    case UpcE => "E"
    case Jan8 => "F"
    case UpcA => "G"
    case Jan13 => "H"
  }

  /** The type a wire token stands for; any other string is refused. */
  function StringToBarcodeType(s: string): Option<BarcodeType>
  {
    match s
    case "0" => Some(Itf)
    case "1" => Some(Code39)
    case "2" => Some(TwoOfFive)
    case "3" => Some(Nw7Codabar)
    case "4" => Some(Code128)
    case "5" => Some(ItfCheckDigitOn)
    case "6" => Some(Code39CheckDigitOn)
    case "7" => Some(Nw7CodabarCheckDigitOn)
    case "E" => Some(UpcE)
    case "F" => Some(Jan8)
    case "G" => Some(UpcA)
    case "H" => Some(Jan13)
    case _ => None
  }

  /** The two token maps are mutual inverses: every type's token reads back, and only tokens read at all. */
  lemma BarcodeTokensInverse(barcodeType: BarcodeType, s: string)
    ensures StringToBarcodeType(BarcodeTypeToString(barcodeType)) == Some(barcodeType)
    ensures StringToBarcodeType(s).Some? ==> BarcodeTypeToString(StringToBarcodeType(s).value) == s
  {
  }

  /** The tokens are exactly "0" to "7" and "E" to "H". */
  lemma BarcodeTokens(s: string)
    ensures StringToBarcodeType(s).Some? <==> s in {"0", "1", "2", "3", "4", "5", "6", "7", "E", "F", "G", "H"}
  {
  }

  lemma BarcodeTokenCommaFree(barcodeType: BarcodeType)
    ensures CommaFree(BarcodeTypeToString(barcodeType))
  {
  }

  datatype BarcodeConditionsParameters = BarcodeConditionsParameters(
    programNumber: Int32,
    barcodeNumber: Int32,
    barcodeType: BarcodeType,
    printType: PrintType,
    barcodeHeight: Int32,
    narrowBarWidth: Int32,
    narrowSpaceWidth: Int32,
    wideBarWidth: Int32,
    wideBarSpaceWidth: Int32,
    humanReadable: HumanReadable,
    quietZone: Int32)
  {
    /** The fields in wire order, split[1] to split[11]. */
    function Fields(): seq<string>
    {
      [IntToString(programNumber), IntToString(barcodeNumber), BarcodeTypeToString(barcodeType),
       IntToString(printType), IntToString(barcodeHeight), IntToString(narrowBarWidth),
       IntToString(narrowSpaceWidth), IntToString(wideBarWidth), IntToString(wideBarSpaceWidth),
       IntToString(humanReadable), IntToString(quietZone)]
    }

    function ParameterString(): string
    {
      Prefixed(Fields())
    }
  }

  function CreateParametersFromResponseString(rawResponseString: string): Result<BarcodeConditionsParameters>
  {
    var split := Split(rawResponseString);
    var programNumber :- IntField(split, 1);
    var barcodeNumber :- IntField(split, 2);
    var typeToken :- Field(split, 3);
    var barcodeType :- OrBadFormat(StringToBarcodeType(typeToken));
    var printType :- EnumField(split, 4);
    var barcodeHeight :- IntField(split, 5);
    var narrowBarWidth :- IntField(split, 6);
    var narrowSpaceWidth :- IntField(split, 7);
    var wideBarWidth :- IntField(split, 8);
    var wideBarSpaceWidth :- IntField(split, 9);
    var humanReadable :- EnumField(split, 10);
    var quietZone :- IntField(split, 11);
    Ok(BarcodeConditionsParameters(programNumber, barcodeNumber, barcodeType, printType, barcodeHeight,
      narrowBarWidth, narrowSpaceWidth, wideBarWidth, wideBarSpaceWidth, humanReadable, quietZone))
  }

  /**
   * Accepts exactly the documented ranges, stores every argument unchanged and
   * passes the three enums through unchecked.
   */
  function CreateParameters(
    programNumber: Int32, barcodeNumber: Int32, barcodeType: BarcodeType, printType: PrintType,
    barcodeHeight: Int32, narrowBarWidth: Int32, narrowSpaceWidth: Int32, wideBarWidth: Int32,
    wideBarSpaceWidth: Int32, humanReadable: HumanReadable, quietZone: Int32): (r: Result<BarcodeConditionsParameters>)
    ensures r.Ok? <==> && 1 <= programNumber <= 500 && 1 <= barcodeNumber <= 4 && 1 <= barcodeHeight <= 32
                       && 1 <= narrowBarWidth <= 4 && 1 <= narrowSpaceWidth <= 4
                       && 2 <= wideBarWidth <= 9 && 2 <= wideBarSpaceWidth <= 9 && 0 <= quietZone <= 99
    ensures r.Ok? ==> r.value == BarcodeConditionsParameters(programNumber, barcodeNumber, barcodeType, printType,
                        barcodeHeight, narrowBarWidth, narrowSpaceWidth, wideBarWidth, wideBarSpaceWidth,
                        humanReadable, quietZone)
  {
    if !(1 <= programNumber <= 500) then Err(InvalidArgument("programNumber"))
    else if !(1 <= barcodeNumber <= 4) then Err(InvalidArgument("barcodeNumber"))
    else if !(1 <= barcodeHeight <= 32) then Err(InvalidArgument("barcodeHeight"))
    else if !(1 <= narrowBarWidth <= 4) then Err(InvalidArgument("narrowBarWidth"))
    else if !(1 <= narrowSpaceWidth <= 4) then Err(InvalidArgument("narrowSpaceWidth"))
    else if !(2 <= wideBarWidth <= 9) then Err(InvalidArgument("wideBarWidth"))
    else if !(2 <= wideBarSpaceWidth <= 9) then Err(InvalidArgument("wideBarSpaceWidth"))
    else if !(0 <= quietZone <= 99) then Err(InvalidArgument("quietZone"))
    else Ok(BarcodeConditionsParameters(programNumber, barcodeNumber, barcodeType, printType, barcodeHeight,
      narrowBarWidth, narrowSpaceWidth, wideBarWidth, wideBarSpaceWidth, humanReadable, quietZone))
  }

  lemma SplitParameterString(id: string, p: BarcodeConditionsParameters)
    requires CommaFree(id)
    ensures Split(id + p.ParameterString()) == [id] + p.Fields()
  {
    BarcodeTokenCommaFree(p.barcodeType);
    assert AllCommaFree(p.Fields());
    SplitPrefixed(id, p.Fields());
  }

  /** Each field of the encoded form reads back as the value it was written from. */
  lemma FieldsReadBack(split: seq<string>, p: BarcodeConditionsParameters)
    requires |split| == 12
    requires split[1] == IntToString(p.programNumber) && split[2] == IntToString(p.barcodeNumber)
    requires split[3] == BarcodeTypeToString(p.barcodeType) && split[4] == IntToString(p.printType)
    requires split[5] == IntToString(p.barcodeHeight) && split[6] == IntToString(p.narrowBarWidth)
    requires split[7] == IntToString(p.narrowSpaceWidth) && split[8] == IntToString(p.wideBarWidth)
    requires split[9] == IntToString(p.wideBarSpaceWidth) && split[10] == IntToString(p.humanReadable)
    requires split[11] == IntToString(p.quietZone)
    ensures IntField(split, 1) == Ok(p.programNumber)
    ensures IntField(split, 2) == Ok(p.barcodeNumber)
    ensures Field(split, 3) == Ok(BarcodeTypeToString(p.barcodeType))
    ensures EnumField(split, 4) == Ok(p.printType)
    ensures IntField(split, 5) == Ok(p.barcodeHeight)
    ensures IntField(split, 6) == Ok(p.narrowBarWidth)
    ensures IntField(split, 7) == Ok(p.narrowSpaceWidth)
    ensures IntField(split, 8) == Ok(p.wideBarWidth)
    ensures IntField(split, 9) == Ok(p.wideBarSpaceWidth)
    ensures EnumField(split, 10) == Ok(p.humanReadable)
    ensures IntField(split, 11) == Ok(p.quietZone)
  {
    IntFieldOfIntToString(split, 1, p.programNumber);
    IntFieldOfIntToString(split, 2, p.barcodeNumber);
    EnumFieldOfIntToString(split, 4, p.printType);
    IntFieldOfIntToString(split, 5, p.barcodeHeight);
    IntFieldOfIntToString(split, 6, p.narrowBarWidth);
    IntFieldOfIntToString(split, 7, p.narrowSpaceWidth);
    IntFieldOfIntToString(split, 8, p.wideBarWidth);
    IntFieldOfIntToString(split, 9, p.wideBarSpaceWidth);
    EnumFieldOfIntToString(split, 10, p.humanReadable);
    IntFieldOfIntToString(split, 11, p.quietZone);
  }

  /** The decoder reads back what the encoder writes, behind any comma-free identification code. */
  lemma RoundTrip(id: string, p: BarcodeConditionsParameters)
    requires CommaFree(id)
    ensures CreateParametersFromResponseString(id + p.ParameterString()) == Ok(p)
  {
    SplitParameterString(id, p);
    var split := [id] + p.Fields();
    FieldsReadBack(split, p);
    BarcodeTokensInverse(p.barcodeType, "");
  }
}

/** The characters a barcode encodes: program, barcode slot and contents. */
module BarcodeCharacterString {
  import opened Wrappers
  import opened Wire

  datatype BarcodeCharacterStringParameters = BarcodeCharacterStringParameters(
    programNumber: Int32,
    barcodeNumber: Int32,
    barcodeContents: string)
  {
    function ParameterString(): string
    {
      Prefixed([IntToString(programNumber), IntToString(barcodeNumber), barcodeContents])
    }
  }

  function CreateParametersFromResponseString(rawResponseString: string): Result<BarcodeCharacterStringParameters>
  {
    var split := Split(rawResponseString);
    var programNumber :- IntField(split, 1);
    var barcodeNumber :- IntField(split, 2);
    var barcodeContents :- Field(split, 3);
    Ok(BarcodeCharacterStringParameters(programNumber, barcodeNumber, barcodeContents))
  }

  /** Program 1 to 500, barcode 1 to 4 and contents of at most 70 UTF-16 code units, stored unchanged. */
  function CreateParameters(programNumber: Int32, barcodeNumber: Int32, barcodeContents: string)
    : (r: Result<BarcodeCharacterStringParameters>)
    ensures r.Ok? <==> 1 <= programNumber <= 500 && 1 <= barcodeNumber <= 4 && Utf16Length(barcodeContents) <= 70
    ensures r.Ok? ==> r.value == BarcodeCharacterStringParameters(programNumber, barcodeNumber, barcodeContents)
  {
    if !(1 <= programNumber <= 500) then Err(InvalidArgument("programNumber"))
    else if !(1 <= barcodeNumber <= 4) then Err(InvalidArgument("barcodeNumber"))
    else if !(Utf16Length(barcodeContents) <= 70) then Err(InvalidArgument("barcodeContents"))
    else Ok(BarcodeCharacterStringParameters(programNumber, barcodeNumber, barcodeContents))
  }

  /** Forty characters outside the Basic Multilingual Plane are 80 code units, too many for the cap. */
  lemma SupplementaryContentsRefused(programNumber: Int32, barcodeNumber: Int32, barcodeContents: string)
    requires |barcodeContents| == 40 && forall i :: 0 <= i < 40 ==> IsSupplementary(barcodeContents[i])
    ensures CreateParameters(programNumber, barcodeNumber, barcodeContents).Err?
  {
    Utf16LengthOfSupplementary(barcodeContents);
  }

  /** The decoder inverts the encoder whenever the contents hold no comma. */
  lemma RoundTrip(id: string, p: BarcodeCharacterStringParameters)
    requires CommaFree(id) && CommaFree(p.barcodeContents)
    ensures CreateParametersFromResponseString(id + p.ParameterString()) == Ok(p)
  {
    var fields := [IntToString(p.programNumber), IntToString(p.barcodeNumber), p.barcodeContents];
    SplitPrefixed(id, fields);
    var split := [id] + fields;
    IntFieldOfIntToString(split, 1, p.programNumber);
    IntFieldOfIntToString(split, 2, p.barcodeNumber);
  }

  lemma ParameterStringWithComma(programNumber: Int32, barcodeNumber: Int32, a: string, b: string)
    ensures BarcodeCharacterStringParameters(programNumber, barcodeNumber, a + "," + b).ParameterString()
            == Prefixed([IntToString(programNumber), IntToString(barcodeNumber), a, b])
  {
    var head := [IntToString(programNumber), IntToString(barcodeNumber)];
    assert [IntToString(programNumber), IntToString(barcodeNumber), a + "," + b] == head + [a + "," + b];
    assert [IntToString(programNumber), IntToString(barcodeNumber), a, b] == head + [a, b];
    PrefixedLastComma(head, a, b);
  }

  /** A comma in the contents splits them, and the decoder keeps only the part before it. */
  lemma CommaInContentsTruncates(id: string, programNumber: Int32, barcodeNumber: Int32, a: string, b: string)
    requires CommaFree(id) && CommaFree(a) && CommaFree(b)
    ensures var p := BarcodeCharacterStringParameters(programNumber, barcodeNumber, a + "," + b);
            CreateParametersFromResponseString(id + p.ParameterString())
              == Ok(BarcodeCharacterStringParameters(programNumber, barcodeNumber, a))
  {
    var fields := [IntToString(programNumber), IntToString(barcodeNumber), a, b];
    ParameterStringWithComma(programNumber, barcodeNumber, a, b);
    SplitPrefixed(id, fields);
    var split := [id] + fields;
    IntFieldOfIntToString(split, 1, programNumber);
    IntFieldOfIntToString(split, 2, barcodeNumber);
  }
}
