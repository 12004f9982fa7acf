/**
 * 2D-code conditions: the symbology (a one-character wire token), symbol size,
 * cell size, error correction, password and quiet zone. The constructor also
 * checks that the symbol size, error correction and password suit the symbology.
 */
module TwoDCodeConditions {
  import opened Wrappers
  import opened Wire
  import opened Enums

  datatype TwoDCodeType = QrMode1Auto | QrMode1Manual | QrMode2Auto | QrMode2Manual | MicroQr | DataMatrix

  /** The four QR code modes, which share every compatibility rule. */
  predicate IsQr(t: TwoDCodeType)
  {
    t.QrMode1Auto? || t.QrMode1Manual? || t.QrMode2Auto? || t.QrMode2Manual?
  }

  /** Defined outside these sources; only its integer is ever written or read. */
  type PrintType = Int32

  /**
   * Symbol sizes. The enum gives several names to one number (QR's only size
   * and the first Data Matrix and Micro QR sizes are all 1), so every check is
   * on the number.
   */
  type SymbolSize = Int32
  const DataMatrix10X10: SymbolSize := 1
  const DataMatrix12X12: SymbolSize := 2
  const DataMatrix14X14: SymbolSize := 3
  const DataMatrix16X16: SymbolSize := 4
  const DataMatrix18X18: SymbolSize := 5
  const DataMatrix20X20: SymbolSize := 6
  const DataMatrix22X22: SymbolSize := 7
  const DataMatrix24X24: SymbolSize := 8
  const DataMatrix26X26: SymbolSize := 9
  const DataMatrix32X32: SymbolSize := 10
  const DataMatrix8X18: SymbolSize := 11
  const DataMatrix8X32: SymbolSize := 12
  const DataMatrix12X26: SymbolSize := 13
  const DataMatrix12X36: SymbolSize := 14
  const DataMatrix16X36: SymbolSize := 15
  const DataMatrix16X48: SymbolSize := 16
  const QrCodeFixedSize: SymbolSize := 1
  const MicroQrVersion1: SymbolSize := 1
  const MicroQrVersion2: SymbolSize := 2
  const MicroQrVersion3: SymbolSize := 3
  const MicroQrVersion4: SymbolSize := 4

  /** QR error-correction levels, or the Data Matrix 06 macro switch; again shared numbers. */
  type ErrorCorrectionLevelOr06Macro = Int32
  const QrL7Percent: ErrorCorrectionLevelOr06Macro := 0
  const QrM15Percent: ErrorCorrectionLevelOr06Macro := 1
  const QrQ25Percent: ErrorCorrectionLevelOr06Macro := 2
  const QrH30Percent: ErrorCorrectionLevelOr06Macro := 3
  const MicroQrCannotBeSpecified: ErrorCorrectionLevelOr06Macro := 3
  const DataMatrix06MacroNotSupported: ErrorCorrectionLevelOr06Macro := 0
  const DataMatrix06MacroSupported: ErrorCorrectionLevelOr06Macro := 1

  type PasswordOnOff = Int32
  const QrNotToSet: PasswordOnOff := 0
  const QrSet: PasswordOnOff := 1
  const MicroQrDataMatrixFixedValue: PasswordOnOff := 0

  function TwoDCodeTypeToString(t: TwoDCodeType): string
  {
    match t
    case QrMode1Auto => "8"
    case QrMode1Manual => "9"
    case QrMode2Auto => "A"
    case QrMode2Manual => "B"
    case MicroQr => "C"
    case DataMatrix => "D"
  }

  /** The type a wire token stands for; any other string is refused. */
  function StringToTwoDCodeType(s: string): Option<TwoDCodeType>
  {
    match s
    case "8" => Some(QrMode1Auto)
    case "9" => Some(QrMode1Manual)
    case "A" => Some(QrMode2Auto)
    case "B" => Some(QrMode2Manual)
    case "C" => Some(MicroQr)
    case "D" => Some(DataMatrix)
    case _ => None
  }

  /** The two token maps are mutual inverses, and the tokens are exactly "8", "9" and "A" to "D". */
  lemma TwoDCodeTokensInverse(t: TwoDCodeType, s: string)
    ensures StringToTwoDCodeType(TwoDCodeTypeToString(t)) == Some(t)
    ensures StringToTwoDCodeType(s).Some? ==> TwoDCodeTypeToString(StringToTwoDCodeType(s).value) == s
    ensures StringToTwoDCodeType(s).Some? <==> s in {"8", "9", "A", "B", "C", "D"}
  {
  }

  /** The symbol sizes the constructor's first switch accepts for each type, name by name. */
  predicate SymbolSizeMatches(t: TwoDCodeType, symbolSize: SymbolSize)
  {
    match t
    case MicroQr =>
      symbolSize == MicroQrVersion1 || symbolSize == MicroQrVersion2
      || symbolSize == MicroQrVersion3 || symbolSize == MicroQrVersion4
    case DataMatrix =>
      symbolSize == DataMatrix8X18 || symbolSize == DataMatrix8X32 || symbolSize == DataMatrix10X10
      || symbolSize == DataMatrix12X12 || symbolSize == DataMatrix12X26 || symbolSize == DataMatrix12X36
      || symbolSize == DataMatrix14X14 || symbolSize == DataMatrix16X16 || symbolSize == DataMatrix16X36
      || symbolSize == DataMatrix16X48 || symbolSize == DataMatrix18X18 || symbolSize == DataMatrix20X20
      || symbolSize == DataMatrix22X22 || symbolSize == DataMatrix24X24 || symbolSize == DataMatrix26X26
      || symbolSize == DataMatrix32X32
    case _ => symbolSize == QrCodeFixedSize
  }

  /** The levels the second switch accepts for each type. */
  predicate ErrorCorrectionMatches(t: TwoDCodeType, level: ErrorCorrectionLevelOr06Macro)
  {
    match t
    case MicroQr => level == MicroQrCannotBeSpecified
    case DataMatrix => level == DataMatrix06MacroNotSupported || level == DataMatrix06MacroSupported
    case _ => level == QrL7Percent || level == QrM15Percent || level == QrQ25Percent || level == QrH30Percent
  }

  /** The password settings the third switch accepts for each type. */
  predicate PasswordMatches(t: TwoDCodeType, password: PasswordOnOff)
  {
    match t
    case MicroQr => password == MicroQrDataMatrixFixedValue
    case DataMatrix => password == MicroQrDataMatrixFixedValue
    case _ => password == QrNotToSet || password == QrSet
  }

  /** The compatibility rules as numeric ranges: what the switches over enum names amount to. */
  lemma CompatibilityAsRanges(t: TwoDCodeType, symbolSize: SymbolSize, level: ErrorCorrectionLevelOr06Macro,
                              password: PasswordOnOff)
    ensures SymbolSizeMatches(t, symbolSize) <==>
              || (IsQr(t) && symbolSize == 1)
              || (t == MicroQr && 1 <= symbolSize <= 4)
              || (t == DataMatrix && 1 <= symbolSize <= 16)
    ensures ErrorCorrectionMatches(t, level) <==>
              || (IsQr(t) && 0 <= level <= 3)
              || (t == MicroQr && level == 3)
              || (t == DataMatrix && 0 <= level <= 1)
    ensures PasswordMatches(t, password) <==>
              || (IsQr(t) && 0 <= password <= 1)
              || (!IsQr(t) && password == 0)
  {
  }

  datatype TwoDCodeConditionsParameters = TwoDCodeConditionsParameters(
    programNumber: Int32,
    barcodeNumber: Int32,
    twoDCodeType: TwoDCodeType,
    printType: PrintType,
    symbolSize: SymbolSize,
    cellSize: Int32,
    errorCorrectionLevelOr06Macro: ErrorCorrectionLevelOr06Macro,
    passwordOnOff: PasswordOnOff,
    quietZone: Int32)
  {
    /** The fields in wire order, split[1] to split[9]. */
    function Fields(): seq<string>
    {
      [IntToString(programNumber), IntToString(barcodeNumber), TwoDCodeTypeToString(twoDCodeType),
       IntToString(printType), IntToString(symbolSize), IntToString(cellSize),
       IntToString(errorCorrectionLevelOr06Macro), IntToString(passwordOnOff), IntToString(quietZone)]
    }

    function ParameterString(): string
    {
      Prefixed(Fields())
    }
  }

  function CreateParametersFromResponseString(rawResponseString: string): Result<TwoDCodeConditionsParameters>
  {
    var split := Split(rawResponseString);
    var programNumber :- IntField(split, 1);
    var barcodeNumber :- IntField(split, 2);
    var typeToken :- Field(split, 3);
    var twoDCodeType :- OrBadFormat(StringToTwoDCodeType(typeToken));
    var printType :- EnumField(split, 4);
    var symbolSize :- EnumField(split, 5);
    var cellSize :- IntField(split, 6);
    var errorCorrection :- EnumField(split, 7);
    var passwordOnOff :- EnumField(split, 8);
    var quietZone :- IntField(split, 9);
    Ok(TwoDCodeConditionsParameters(programNumber, barcodeNumber, twoDCodeType, printType, symbolSize,
      cellSize, errorCorrection, passwordOnOff, quietZone))
  }

  /**
   * Accepts program 1 to 500, barcode 1 to 4, cell size 1 to 2 and quiet zone
   * 0 to 5, and a symbol size, error correction and password that suit the
   * type: QR takes size 1, levels 0 to 3 and password 0 or 1; Micro QR takes
   * sizes 1 to 4, level 3 and password 0; Data Matrix takes sizes 1 to 16,
   * macro 0 or 1 and password 0. Accepted values are stored unchanged.
   */
  function CreateParameters(
    programNumber: Int32, barcodeNumber: Int32, twoDCodeType: TwoDCodeType, printType: PrintType,
    symbolSize: SymbolSize, cellSize: Int32, errorCorrectionLevelOr06Macro: ErrorCorrectionLevelOr06Macro,
    passwordOnOff: PasswordOnOff, quietZone: Int32): (r: Result<TwoDCodeConditionsParameters>)
    ensures r.Ok? <==>
              && 1 <= programNumber <= 500 && 1 <= barcodeNumber <= 4 && 1 <= cellSize <= 2 && 0 <= quietZone <= 5
              && (|| (IsQr(twoDCodeType) && symbolSize == 1 && 0 <= errorCorrectionLevelOr06Macro <= 3
                      && 0 <= passwordOnOff <= 1)
                  || (twoDCodeType == MicroQr && 1 <= symbolSize <= 4 && errorCorrectionLevelOr06Macro == 3
                      && passwordOnOff == 0)
                  || (twoDCodeType == DataMatrix && 1 <= symbolSize <= 16 && 0 <= errorCorrectionLevelOr06Macro <= 1
                      && passwordOnOff == 0))
    ensures r.Ok? ==> r.value == TwoDCodeConditionsParameters(programNumber, barcodeNumber, twoDCodeType,
                        printType, symbolSize, cellSize, errorCorrectionLevelOr06Macro, passwordOnOff, quietZone)
  {
    CompatibilityAsRanges(twoDCodeType, symbolSize, errorCorrectionLevelOr06Macro, passwordOnOff);
    if !(1 <= programNumber <= 500) then Err(InvalidArgument("programNumber"))
    else if !(1 <= barcodeNumber <= 4) then Err(InvalidArgument("barcodeNumber"))
    else if !(1 <= cellSize <= 2) then Err(InvalidArgument("cellSize"))
    else if !(0 <= quietZone <= 5) then Err(InvalidArgument("quietZone"))
    else if !SymbolSizeMatches(twoDCodeType, symbolSize) then Err(InvalidArgument("symbolSize"))
    else if !ErrorCorrectionMatches(twoDCodeType, errorCorrectionLevelOr06Macro) then
      Err(InvalidArgument("errorCorrectionLevelOr06Macro"))
    else if !PasswordMatches(twoDCodeType, passwordOnOff) then Err(InvalidArgument("passwordOnOff"))
    else Ok(TwoDCodeConditionsParameters(programNumber, barcodeNumber, twoDCodeType, printType, symbolSize,
      cellSize, errorCorrectionLevelOr06Macro, passwordOnOff, quietZone))
  }

  lemma SplitParameterString(id: string, p: TwoDCodeConditionsParameters)
    requires CommaFree(id)
    ensures Split(id + p.ParameterString()) == [id] + p.Fields()
  {
    assert AllCommaFree(p.Fields());
    SplitPrefixed(id, p.Fields());
  }

  /** Each field of the encoded form reads back as the value it was written from. */
  lemma FieldsReadBack(split: seq<string>, p: TwoDCodeConditionsParameters)
    requires |split| == 10
    requires split[1] == IntToString(p.programNumber) && split[2] == IntToString(p.barcodeNumber)
    requires split[3] == TwoDCodeTypeToString(p.twoDCodeType) && split[4] == IntToString(p.printType)
    requires split[5] == IntToString(p.symbolSize) && split[6] == IntToString(p.cellSize)
    requires split[7] == IntToString(p.errorCorrectionLevelOr06Macro)
    requires split[8] == IntToString(p.passwordOnOff) && split[9] == IntToString(p.quietZone)
    ensures IntField(split, 1) == Ok(p.programNumber)
    ensures IntField(split, 2) == Ok(p.barcodeNumber)
    ensures Field(split, 3) == Ok(TwoDCodeTypeToString(p.twoDCodeType))
    ensures EnumField(split, 4) == Ok(p.printType)
    ensures EnumField(split, 5) == Ok(p.symbolSize)
    ensures IntField(split, 6) == Ok(p.cellSize)
    ensures EnumField(split, 7) == Ok(p.errorCorrectionLevelOr06Macro)
    ensures EnumField(split, 8) == Ok(p.passwordOnOff)
    ensures IntField(split, 9) == Ok(p.quietZone)
  {
    IntFieldOfIntToString(split, 1, p.programNumber);
    IntFieldOfIntToString(split, 2, p.barcodeNumber);
    EnumFieldOfIntToString(split, 4, p.printType);
    EnumFieldOfIntToString(split, 5, p.symbolSize);
    IntFieldOfIntToString(split, 6, p.cellSize);
    EnumFieldOfIntToString(split, 7, p.errorCorrectionLevelOr06Macro);
    EnumFieldOfIntToString(split, 8, p.passwordOnOff);
    IntFieldOfIntToString(split, 9, p.quietZone);
  }

  /** The decoder reads split[1..9], where the encoder writes, so it inverts the encoder. */
  lemma RoundTrip(id: string, p: TwoDCodeConditionsParameters)
    requires CommaFree(id)
    ensures CreateParametersFromResponseString(id + p.ParameterString()) == Ok(p)
  {
    SplitParameterString(id, p);
    FieldsReadBack([id] + p.Fields(), p);
    TwoDCodeTokensInverse(p.twoDCodeType, "");
  }
}
