/**
 * Line settings and print adjustment: program, character code, title, head and
 * text direction, trigger timing and character scaling, with the validating
 * constructor, the encoder (which writes a constant print mode before the
 * encoder type) and the decoder of the printer's reply.
 */
module LineSettingsAndPrintAdjustment {
  import opened Wrappers
  import opened Wire
  import opened Enums

  /** The enums of this record are only passed through and written as integers. */
  type HeadDirection = Int32
  type TextDirection = Int32
  type HeadTargetDistance = Int32
  type PrintMethod = Int32
  type EncoderType = Int32

  /** `SpecifiedByCommonSettings`, shared by four of the enums, and the "same as common settings" number. */
  const SpecifiedByCommonSettings: Int32 := -1

  /** The print mode the encoder always writes in the slot before the encoder type. */
  const PrintMode: Int32 := 0

  datatype LineSettingsAndPrintAdjustmentParameters = LineSettingsAndPrintAdjustmentParameters(
    programNumber: string,
    characterCode: CharacterCode,
    title: string,
    headDirection: HeadDirection,
    textDirection: TextDirection,
    headTargetDistance: HeadTargetDistance,
    printMethod: PrintMethod,
    printCountN: Int32,
    numberOfEncoderPulses: Int32,
    lineSpeed: Int32,
    normalTriggerDelay: Int32,
    reverseTriggerDelay: Int32,
    messageInterval: Int32,
    characterHeightAdjustment: Int32,
    characterWidthAdjustment: Int32,
    ignoreTriggersLessThan: Int32,
    triggerOnTimeLimit: Int32,
    encoderType: EncoderType)
  {
    /** The integers written at split[4..19]: every numeric field, then the print mode, then the encoder type. */
    function Numbers(): seq<int>
    {
      [headDirection, textDirection, headTargetDistance, printMethod, printCountN, numberOfEncoderPulses,
       lineSpeed, normalTriggerDelay, reverseTriggerDelay, messageInterval, characterHeightAdjustment,
       characterWidthAdjustment, ignoreTriggersLessThan, triggerOnTimeLimit, PrintMode, encoderType]
    }

    /** The 19 fields in wire order, split[1] to split[19]. */
    function Fields(): seq<string>
    {
      [programNumber, IntToString(characterCode), title] + IntStrings(Numbers())
    }

    function ParameterString(): string
    {
      Prefixed(Fields())
    }
  }

  /** "CMN", or a string int.Parse reads as 1 to 500; an unparsable string is the parse's exception. */
  function CheckProgramNumber(programNumber: string): (r: Result<string>)
    ensures r.Ok? <==> programNumber == "CMN"
                       || (ParseInt(programNumber).Some? && 1 <= ParseInt(programNumber).value <= 500)
    ensures r.Ok? ==> r.value == programNumber && CommaFree(programNumber)
    ensures programNumber != "CMN" && ParseInt(programNumber).None? ==> r == Err(BadFormat)
  {
    if programNumber == "CMN" then Ok(programNumber)
    else
      var n :- OrBadFormat(ParseInt(programNumber));
      ParsedIsCommaFree(programNumber);
      if 1 <= n <= 500 then Ok(programNumber) else Err(InvalidArgument("programNumber"))
  }

  /** The ranges the constructor enforces on the numeric fields, in its order. */
  predicate ValidNumbers(printCountN: Int32, numberOfEncoderPulses: Int32, lineSpeed: Int32,
                         normalTriggerDelay: Int32, reverseTriggerDelay: Int32, messageInterval: Int32,
                         characterHeightAdjustment: Int32, characterWidthAdjustment: Int32,
                         ignoreTriggersLessThan: Int32, triggerOnTimeLimit: Int32)
  {
    && (printCountN == -1 || 0 <= printCountN <= 99)
    && (numberOfEncoderPulses == -1 || 1 <= numberOfEncoderPulses <= 9999)
    && (lineSpeed == -1 || 10 <= lineSpeed <= 99999)
    && 10 <= normalTriggerDelay <= 99999
    && 10 <= reverseTriggerDelay <= 99999
    && 10 <= messageInterval <= 99999
    && 40 <= characterHeightAdjustment <= 200
    && 40 <= characterWidthAdjustment <= 500
    && 0 <= ignoreTriggersLessThan <= 9999
    && 0 <= triggerOnTimeLimit <= 999
  }

  /**
   * Checks the program, a title of at most 32 UTF-16 code units and the numeric
   * ranges, failing at the first bad one; the character code and the five
   * enums pass through unchecked.
   */
  function CreateParameters(
    programNumber: string, characterCode: CharacterCode, title: string, headDirection: HeadDirection,
    textDirection: TextDirection, headTargetDistance: HeadTargetDistance, printMethod: PrintMethod,
    printCountN: Int32, numberOfEncoderPulses: Int32, lineSpeed: Int32, normalTriggerDelay: Int32,
    reverseTriggerDelay: Int32, messageInterval: Int32, characterHeightAdjustment: Int32,
    characterWidthAdjustment: Int32, ignoreTriggersLessThan: Int32, triggerOnTimeLimit: Int32,
    encoderType: EncoderType)
    : (r: Result<LineSettingsAndPrintAdjustmentParameters>)
    ensures r.Ok? <==> && CheckProgramNumber(programNumber).Ok? && Utf16Length(title) <= 32
                       && ValidNumbers(printCountN, numberOfEncoderPulses, lineSpeed, normalTriggerDelay,
                            reverseTriggerDelay, messageInterval, characterHeightAdjustment,
                            characterWidthAdjustment, ignoreTriggersLessThan, triggerOnTimeLimit)
    ensures r.Ok? ==> r.value == LineSettingsAndPrintAdjustmentParameters(programNumber, characterCode, title,
                        headDirection, textDirection, headTargetDistance, printMethod, printCountN,
                        numberOfEncoderPulses, lineSpeed, normalTriggerDelay, reverseTriggerDelay, messageInterval,
                        characterHeightAdjustment, characterWidthAdjustment, ignoreTriggersLessThan,
                        triggerOnTimeLimit, encoderType)
  {
    var checkedProgram :- CheckProgramNumber(programNumber);
    if Utf16Length(title) > 32 then Err(InvalidArgument("title"))
    else if !(printCountN == -1 || 0 <= printCountN <= 99) then Err(InvalidArgument("printCountN"))
    else if !(numberOfEncoderPulses == -1 || 1 <= numberOfEncoderPulses <= 9999) then
      Err(InvalidArgument("numberOfEncoderPulses"))
    else if !(lineSpeed == -1 || 10 <= lineSpeed <= 99999) then Err(InvalidArgument("lineSpeed"))
    else if !(10 <= normalTriggerDelay <= 99999) then Err(InvalidArgument("normalTriggerDelay"))
    else if !(10 <= reverseTriggerDelay <= 99999) then Err(InvalidArgument("reverseTriggerDelay"))
    else if !(10 <= messageInterval <= 99999) then Err(InvalidArgument("messageInterval"))
    else if !(40 <= characterHeightAdjustment <= 200) then Err(InvalidArgument("characterHeightAdjustment"))
    else if !(40 <= characterWidthAdjustment <= 500) then Err(InvalidArgument("characterWidthAdjustment"))
    else if !(0 <= ignoreTriggersLessThan <= 9999) then Err(InvalidArgument("ignoreTriggersLessThan"))
    else if !(0 <= triggerOnTimeLimit <= 999) then Err(InvalidArgument("triggerOnTimeLimit"))
    else Ok(LineSettingsAndPrintAdjustmentParameters(checkedProgram, characterCode, title, headDirection,
      textDirection, headTargetDistance, printMethod, printCountN, numberOfEncoderPulses, lineSpeed,
      normalTriggerDelay, reverseTriggerDelay, messageInterval, characterHeightAdjustment,
      characterWidthAdjustment, ignoreTriggersLessThan, triggerOnTimeLimit, encoderType))
  }

  /**
   * The decoder, with the index it takes the encoder type from as a parameter:
   * the library reads it from split[18], the slot where the encoder writes the
   * print mode; split[19] is where the encoder writes it.
   */
  function DecodeWithEncoderTypeAt(rawResponseString: string, encoderTypeIndex: nat)
    : Result<LineSettingsAndPrintAdjustmentParameters>
  {
    var split := Split(rawResponseString);
    var programNumber :- Field(split, 1);
    var characterCode :- EnumField(split, 2);
    var title :- Field(split, 3);
    var headDirection :- EnumField(split, 4);
    var textDirection :- EnumField(split, 5);
    var headTargetDistance :- EnumField(split, 6);
    var printMethod :- EnumField(split, 7);
    var printCountN :- IntField(split, 8);
    var numberOfEncoderPulses :- IntField(split, 9);
    var lineSpeed :- IntField(split, 10);
    var normalTriggerDelay :- IntField(split, 11);
    var reverseTriggerDelay :- IntField(split, 12);
    var messageInterval :- IntField(split, 13);
    var characterHeightAdjustment :- IntField(split, 14);
    var characterWidthAdjustment :- IntField(split, 15);
    var ignoreTriggersLessThan :- IntField(split, 16);
    var triggerOnTimeLimit :- IntField(split, 17);
    var encoderType :- EnumField(split, encoderTypeIndex);
    Ok(LineSettingsAndPrintAdjustmentParameters(programNumber, characterCode, title, headDirection,
      textDirection, headTargetDistance, printMethod, printCountN, numberOfEncoderPulses, lineSpeed,
      normalTriggerDelay, reverseTriggerDelay, messageInterval, characterHeightAdjustment,
      characterWidthAdjustment, ignoreTriggersLessThan, triggerOnTimeLimit, encoderType))
  }

  /** The library's decoder: the encoder type comes from split[18]. */
  function CreateParametersFromResponseString(rawResponseString: string)
    : Result<LineSettingsAndPrintAdjustmentParameters>
  {
    DecodeWithEncoderTypeAt(rawResponseString, 18)
  }

  /** The decoder as evidently intended: the encoder type comes from split[19], where it is written. */
  function CorrectedCreateParametersFromResponseString(rawResponseString: string)
    : Result<LineSettingsAndPrintAdjustmentParameters>
  {
    DecodeWithEncoderTypeAt(rawResponseString, 19)
  }

  lemma SplitParameterString(id: string, p: LineSettingsAndPrintAdjustmentParameters)
    requires CommaFree(id) && CommaFree(p.programNumber) && CommaFree(p.title)
    ensures Split(id + p.ParameterString()) == [id] + p.Fields()
  {
    IntToStringCommaFree(p.characterCode);
    var head := [p.programNumber, IntToString(p.characterCode), p.title];
    assert AllCommaFree(head);
    IntStringsCommaFree(head, p.Numbers());
    SplitPrefixed(id, p.Fields());
  }

  /** Reading a split reply whose fields are those of p, with the given string in the print-mode slot. */
  lemma DecodeOfSplit(raw: string, split: seq<string>, p: LineSettingsAndPrintAdjustmentParameters,
                      encoderTypeIndex: nat, encoderType: EncoderType)
    requires 18 <= encoderTypeIndex < |split| && Split(raw) == split
    requires split[1] == p.programNumber && split[2] == IntToString(p.characterCode) && split[3] == p.title
    requires split[4] == IntToString(p.headDirection) && split[5] == IntToString(p.textDirection)
    requires split[6] == IntToString(p.headTargetDistance) && split[7] == IntToString(p.printMethod)
    requires split[8] == IntToString(p.printCountN) && split[9] == IntToString(p.numberOfEncoderPulses)
    requires split[10] == IntToString(p.lineSpeed) && split[11] == IntToString(p.normalTriggerDelay)
    requires split[12] == IntToString(p.reverseTriggerDelay) && split[13] == IntToString(p.messageInterval)
    requires split[14] == IntToString(p.characterHeightAdjustment)
    requires split[15] == IntToString(p.characterWidthAdjustment)
    requires split[16] == IntToString(p.ignoreTriggersLessThan) && split[17] == IntToString(p.triggerOnTimeLimit)
    requires split[encoderTypeIndex] == IntToString(encoderType)
    ensures DecodeWithEncoderTypeAt(raw, encoderTypeIndex) == Ok(p.(encoderType := encoderType))
  {
    EnumFieldOfIntToString(split, 2, p.characterCode);
    EnumFieldOfIntToString(split, 4, p.headDirection);
    EnumFieldOfIntToString(split, 5, p.textDirection);
    EnumFieldOfIntToString(split, 6, p.headTargetDistance);
    EnumFieldOfIntToString(split, 7, p.printMethod);
    IntFieldOfIntToString(split, 8, p.printCountN);
    IntFieldOfIntToString(split, 9, p.numberOfEncoderPulses);
    IntFieldOfIntToString(split, 10, p.lineSpeed);
    IntFieldOfIntToString(split, 11, p.normalTriggerDelay);
    IntFieldOfIntToString(split, 12, p.reverseTriggerDelay);
    IntFieldOfIntToString(split, 13, p.messageInterval);
    IntFieldOfIntToString(split, 14, p.characterHeightAdjustment);
    IntFieldOfIntToString(split, 15, p.characterWidthAdjustment);
    IntFieldOfIntToString(split, 16, p.ignoreTriggersLessThan);
    IntFieldOfIntToString(split, 17, p.triggerOnTimeLimit);
    EnumFieldOfIntToString(split, encoderTypeIndex, encoderType);
  }

  /** The numbers of the encoded form, one by one. */
  lemma NumbersAt(p: LineSettingsAndPrintAdjustmentParameters)
    ensures var n := p.Numbers();
            && |n| == 16
            && n[0] == p.headDirection && n[1] == p.textDirection && n[2] == p.headTargetDistance
            && n[3] == p.printMethod && n[4] == p.printCountN && n[5] == p.numberOfEncoderPulses
            && n[6] == p.lineSpeed && n[7] == p.normalTriggerDelay && n[8] == p.reverseTriggerDelay
            && n[9] == p.messageInterval && n[10] == p.characterHeightAdjustment
            && n[11] == p.characterWidthAdjustment && n[12] == p.ignoreTriggersLessThan
            && n[13] == p.triggerOnTimeLimit && n[14] == PrintMode && n[15] == p.encoderType
  {
  }

  /** The encoded form: the program, the character code and the title, then the numbers. */
  lemma EncodedLayout(id: string, p: LineSettingsAndPrintAdjustmentParameters)
    ensures var split := [id] + p.Fields();
            && |split| == 20
            && split[1] == p.programNumber && split[2] == IntToString(p.characterCode) && split[3] == p.title
            && forall k :: 4 <= k < 20 ==> split[k] == IntToString(p.Numbers()[k - 4])
  {
    var head := [id, p.programNumber, IntToString(p.characterCode), p.title];
    var split := [id] + p.Fields();
    assert split == head + IntStrings(p.Numbers());
    forall k | 4 <= k < 20 ensures split[k] == IntToString(p.Numbers()[k - 4]) {
      IntStringsAt(head, p.Numbers(), k);
    }
  }

  /** The fields of the encoded form, one by one, in three groups. */
  lemma EncodedFieldsFirst(id: string, p: LineSettingsAndPrintAdjustmentParameters)
    ensures var split := [id] + p.Fields();
            && |split| == 20
            && split[1] == p.programNumber && split[2] == IntToString(p.characterCode) && split[3] == p.title
            && split[4] == IntToString(p.headDirection) && split[5] == IntToString(p.textDirection)
            && split[6] == IntToString(p.headTargetDistance) && split[7] == IntToString(p.printMethod)
  {
    EncodedLayout(id, p);
    NumbersAt(p);
  }

  lemma EncodedFieldsSecond(id: string, p: LineSettingsAndPrintAdjustmentParameters)
    ensures var split := [id] + p.Fields();
            && |split| == 20
            && split[8] == IntToString(p.printCountN) && split[9] == IntToString(p.numberOfEncoderPulses)
            && split[10] == IntToString(p.lineSpeed) && split[11] == IntToString(p.normalTriggerDelay)
            && split[12] == IntToString(p.reverseTriggerDelay) && split[13] == IntToString(p.messageInterval)
  {
    EncodedLayout(id, p);
    NumbersAt(p);
  }

  lemma EncodedFieldsThird(id: string, p: LineSettingsAndPrintAdjustmentParameters)
    ensures var split := [id] + p.Fields();
            && |split| == 20
            && split[14] == IntToString(p.characterHeightAdjustment)
            && split[15] == IntToString(p.characterWidthAdjustment)
            && split[16] == IntToString(p.ignoreTriggersLessThan)
            && split[17] == IntToString(p.triggerOnTimeLimit)
            && split[18] == IntToString(PrintMode) && split[19] == IntToString(p.encoderType)
  {
    EncodedLayout(id, p);
    NumbersAt(p);
  }

  /**
   * What the library's decoder makes of the encoded form: every field but the
   * encoder type reads back, and the encoder type becomes the constant print
   * mode 0, so a record whose encoder type is not 0 does not survive.
   */
  lemma DecodeOfEncode(id: string, p: LineSettingsAndPrintAdjustmentParameters)
    requires CommaFree(id) && CommaFree(p.programNumber) && CommaFree(p.title)
    ensures CreateParametersFromResponseString(id + p.ParameterString()) == Ok(p.(encoderType := PrintMode))
    ensures p.encoderType != PrintMode ==> CreateParametersFromResponseString(id + p.ParameterString()) != Ok(p)
  {
    SplitParameterString(id, p);
    EncodedFieldsFirst(id, p);
    EncodedFieldsSecond(id, p);
    EncodedFieldsThird(id, p);
    DecodeOfSplit(id + p.ParameterString(), [id] + p.Fields(), p, 18, PrintMode);
  }

  /** With the encoder type read from split[19], the decoder inverts the encoder. */
  lemma CorrectedRoundTrip(id: string, p: LineSettingsAndPrintAdjustmentParameters)
    requires CommaFree(id) && CommaFree(p.programNumber) && CommaFree(p.title)
    ensures CorrectedCreateParametersFromResponseString(id + p.ParameterString()) == Ok(p)
  {
    SplitParameterString(id, p);
    EncodedFieldsFirst(id, p);
    EncodedFieldsSecond(id, p);
    EncodedFieldsThird(id, p);
    DecodeOfSplit(id + p.ParameterString(), [id] + p.Fields(), p, 19, p.encoderType);
  }
}
