/**
 * Message conditions: program and message numbers, scaling, font, base
 * position, spacing, print and angle settings and the lock flag, with the
 * validating constructor, the encoder (which writes a constant link number
 * before the lock) and the decoder of the printer's reply.
 */
module MessageConditions {
  import opened Wrappers
  import opened Wire
  import opened Enums

  /** The enums of this record are only passed through and written as integers. */
  type FontNumber = Int32
  type Print = Int32
  type PrintAngle = Int32
  type Lock = Int32

  /** The link number the encoder always writes in the slot before the lock. */
  const LinkNumber: Int32 := 0

  datatype MessageConditionsParameters = MessageConditionsParameters(
    programNumber: Int32,
    messageNumber: Int32,
    lateralScaling: Int32,
    fontNumber: FontNumber,
    baseX: Int32,
    baseY: Int32,
    characterSpacing: Int32,
    lineSpacing: Int32,
    printSetting: Print,
    printAngle: PrintAngle,
    lock: Lock)
  {
    /** The integers written at split[1..12]: every field, with the link number before the lock. */
    function Numbers(): seq<int>
    {
      [programNumber, messageNumber, lateralScaling, fontNumber, baseX, baseY, characterSpacing, lineSpacing,
       printSetting, printAngle, LinkNumber, lock]
    }

    function ParameterString(): string
    {
      Prefixed(IntStrings(Numbers()))
    }
  }

  /** The ranges the constructor's messages announce for the numeric fields of a record. */
  predicate InRange(r: MessageConditionsParameters)
  {
    && 1 <= r.programNumber <= 500 && 1 <= r.messageNumber <= 64 && 1 <= r.lateralScaling <= 10
    && 0 <= r.baseX <= 4095 && 0 <= r.baseY <= 31 && 0 <= r.characterSpacing <= 4095 && 0 <= r.lineSpacing <= 31
  }

  /**
   * The library's constructor: program 1 to 500, message 1 to 64, lateral
   * scaling 1 to 10, base X 0 to 4095, base Y 0 to 31, character spacing 0 to
   * 4095 and line spacing 0 to 31, failing at the first bad one; the four
   * enums pass through. Once base Y is accepted it is base X that is stored
   * as base Y.
   */
  function CreateParameters(programNumber: Int32, messageNumber: Int32, lateralScaling: Int32,
                            fontNumber: FontNumber, baseX: Int32, baseY: Int32, characterSpacing: Int32,
                            lineSpacing: Int32, printSetting: Print, printAngle: PrintAngle, lock: Lock)
    : (r: Result<MessageConditionsParameters>)
    ensures r.Ok? <==> InRange(MessageConditionsParameters(programNumber, messageNumber, lateralScaling,
                         fontNumber, baseX, baseY, characterSpacing, lineSpacing, printSetting, printAngle, lock))
    ensures r.Ok? ==> r.value == MessageConditionsParameters(programNumber, messageNumber, lateralScaling,
                        fontNumber, baseX, baseX, characterSpacing, lineSpacing, printSetting, printAngle, lock)
  {
    if !(1 <= programNumber <= 500) then Err(InvalidArgument("programNumber"))
    else if !(1 <= messageNumber <= 64) then Err(InvalidArgument("messageNumber"))
    else if !(1 <= lateralScaling <= 10) then Err(InvalidArgument("lateralScaling"))
    else if !(0 <= baseX <= 4095) then Err(InvalidArgument("baseX"))
    else if !(0 <= baseY <= 31) then Err(InvalidArgument("baseY"))
    else if !(0 <= characterSpacing <= 4095) then Err(InvalidArgument("characterSpacing"))
    else if !(0 <= lineSpacing <= 31) then Err(InvalidArgument("lineSpacing"))
    else Ok(MessageConditionsParameters(programNumber, messageNumber, lateralScaling, fontNumber, baseX, baseX,
      characterSpacing, lineSpacing, printSetting, printAngle, lock))
  }

  /** An accepted base X of 100 comes back as base Y, outside the 0 to 31 that base Y was checked against. */
  lemma BaseYTakesBaseX()
    ensures var r := CreateParameters(1, 1, 1, 0, 100, 5, 0, 0, 0, 0, 0);
            && r.Ok? && r.value.baseY == 100 && !InRange(r.value)
  {
  }

  /** The constructor as evidently intended: the checked base Y is the one stored. */
  function CorrectedCreateParameters(programNumber: Int32, messageNumber: Int32, lateralScaling: Int32,
                                     fontNumber: FontNumber, baseX: Int32, baseY: Int32, characterSpacing: Int32,
                                     lineSpacing: Int32, printSetting: Print, printAngle: PrintAngle, lock: Lock)
    : (r: Result<MessageConditionsParameters>)
    ensures r.Ok? ==> InRange(r.value)
  {
    var created :- CreateParameters(programNumber, messageNumber, lateralScaling, fontNumber, baseX, baseY,
                                    characterSpacing, lineSpacing, printSetting, printAngle, lock);
    Ok(created.(baseY := baseY))
  }

  /** The corrected constructor accepts exactly the in-range arguments and stores each of them unchanged. */
  lemma CorrectedCreateParametersExact(programNumber: Int32, messageNumber: Int32, lateralScaling: Int32,
                                       fontNumber: FontNumber, baseX: Int32, baseY: Int32, characterSpacing: Int32,
                                       lineSpacing: Int32, printSetting: Print, printAngle: PrintAngle, lock: Lock)
    ensures var p := MessageConditionsParameters(programNumber, messageNumber, lateralScaling, fontNumber, baseX,
                       baseY, characterSpacing, lineSpacing, printSetting, printAngle, lock);
            var r := CorrectedCreateParameters(programNumber, messageNumber, lateralScaling, fontNumber, baseX,
                       baseY, characterSpacing, lineSpacing, printSetting, printAngle, lock);
            (r.Ok? <==> InRange(p)) && (r.Ok? ==> r.value == p)
  {
  }

  /**
   * The decoder, with the index it takes the lock from as a parameter: the
   * library reads it from split[11], the slot where the encoder writes the
   * link number; split[12] is where the encoder writes it.
   */
  function DecodeWithLockAt(rawResponseString: string, lockIndex: nat): Result<MessageConditionsParameters>
  {
    var split := Split(rawResponseString);
    var programNumber :- IntField(split, 1);
    var messageNumber :- IntField(split, 2);
    var lateralScaling :- IntField(split, 3);
    var fontNumber :- EnumField(split, 4);
    var baseX :- IntField(split, 5);
    var baseY :- IntField(split, 6);
    var characterSpacing :- IntField(split, 7);
    var lineSpacing :- IntField(split, 8);
    var printSetting :- EnumField(split, 9);
    var printAngle :- EnumField(split, 10);
    var lock :- EnumField(split, lockIndex);
    Ok(MessageConditionsParameters(programNumber, messageNumber, lateralScaling, fontNumber, baseX, baseY,
      characterSpacing, lineSpacing, printSetting, printAngle, lock))
  }

  /** The library's decoder: the lock comes from split[11]. */
  function CreateParametersFromResponseString(rawResponseString: string): Result<MessageConditionsParameters>
  {
    DecodeWithLockAt(rawResponseString, 11)
  }

  /** The decoder as evidently intended: the lock comes from split[12], where it is written. */
  function CorrectedCreateParametersFromResponseString(rawResponseString: string)
    : Result<MessageConditionsParameters>
  {
    DecodeWithLockAt(rawResponseString, 12)
  }

  lemma SplitParameterString(id: string, p: MessageConditionsParameters)
    requires CommaFree(id)
    ensures Split(id + p.ParameterString()) == [id] + IntStrings(p.Numbers())
  {
    IntStringsCommaFree([], p.Numbers());
    assert [] + IntStrings(p.Numbers()) == IntStrings(p.Numbers());
    SplitPrefixed(id, IntStrings(p.Numbers()));
  }

  /** The numbers of the encoded form, one by one. */
  lemma NumbersAt(p: MessageConditionsParameters)
    ensures var n := p.Numbers();
            && |n| == 12
            && n[0] == p.programNumber && n[1] == p.messageNumber && n[2] == p.lateralScaling
            && n[3] == p.fontNumber && n[4] == p.baseX && n[5] == p.baseY && n[6] == p.characterSpacing
            && n[7] == p.lineSpacing && n[8] == p.printSetting && n[9] == p.printAngle && n[10] == LinkNumber
            && n[11] == p.lock
  {
  }

  /** The encoded form: each number at one past its position in Numbers. */
  lemma EncodedLayout(id: string, p: MessageConditionsParameters)
    ensures var split := [id] + IntStrings(p.Numbers());
            && |split| == 13
            && forall k :: 1 <= k < 13 ==> split[k] == IntToString(p.Numbers()[k - 1])
  {
    var split := [id] + IntStrings(p.Numbers());
    forall k | 1 <= k < 13 ensures split[k] == IntToString(p.Numbers()[k - 1]) {
      IntStringsAt([id], p.Numbers(), k);
    }
  }

  lemma EncodedFieldsFirst(id: string, p: MessageConditionsParameters)
    ensures var split := [id] + IntStrings(p.Numbers());
            && |split| == 13
            && split[1] == IntToString(p.programNumber) && split[2] == IntToString(p.messageNumber)
            && split[3] == IntToString(p.lateralScaling) && split[4] == IntToString(p.fontNumber)
            && split[5] == IntToString(p.baseX) && split[6] == IntToString(p.baseY)
  {
    EncodedLayout(id, p);
    NumbersAt(p);
  }

  lemma EncodedFieldsSecond(id: string, p: MessageConditionsParameters)
    ensures var split := [id] + IntStrings(p.Numbers());
            && |split| == 13
            && split[7] == IntToString(p.characterSpacing) && split[8] == IntToString(p.lineSpacing)
            && split[9] == IntToString(p.printSetting) && split[10] == IntToString(p.printAngle)
            && split[11] == IntToString(LinkNumber) && split[12] == IntToString(p.lock)
  {
    EncodedLayout(id, p);
    NumbersAt(p);
  }

  /** Reading a split reply whose fields are those of p, with the given number in the lock's slot. */
  lemma DecodeOfSplit(raw: string, split: seq<string>, p: MessageConditionsParameters, lockIndex: nat, lock: Lock)
    requires 11 <= lockIndex < |split| && Split(raw) == split
    requires split[1] == IntToString(p.programNumber) && split[2] == IntToString(p.messageNumber)
    requires split[3] == IntToString(p.lateralScaling) && split[4] == IntToString(p.fontNumber)
    requires split[5] == IntToString(p.baseX) && split[6] == IntToString(p.baseY)
    requires split[7] == IntToString(p.characterSpacing) && split[8] == IntToString(p.lineSpacing)
    requires split[9] == IntToString(p.printSetting) && split[10] == IntToString(p.printAngle)
    requires split[lockIndex] == IntToString(lock)
    ensures DecodeWithLockAt(raw, lockIndex) == Ok(p.(lock := lock))
  {
    IntFieldOfIntToString(split, 1, p.programNumber);
    IntFieldOfIntToString(split, 2, p.messageNumber);
    IntFieldOfIntToString(split, 3, p.lateralScaling);
    EnumFieldOfIntToString(split, 4, p.fontNumber);
    IntFieldOfIntToString(split, 5, p.baseX);
    IntFieldOfIntToString(split, 6, p.baseY);
    IntFieldOfIntToString(split, 7, p.characterSpacing);
    IntFieldOfIntToString(split, 8, p.lineSpacing);
    EnumFieldOfIntToString(split, 9, p.printSetting);
    EnumFieldOfIntToString(split, 10, p.printAngle);
    EnumFieldOfIntToString(split, lockIndex, lock);
  }

  /**
   * What the library's decoder makes of the encoded form: every field but the
   * lock reads back, and the lock becomes the constant link number 0, so a
   * locked message does not survive.
   */
  lemma DecodeOfEncode(id: string, p: MessageConditionsParameters)
    requires CommaFree(id)
    ensures CreateParametersFromResponseString(id + p.ParameterString()) == Ok(p.(lock := LinkNumber))
    ensures p.lock != LinkNumber ==> CreateParametersFromResponseString(id + p.ParameterString()) != Ok(p)
  {
    SplitParameterString(id, p);
    EncodedFieldsFirst(id, p);
    EncodedFieldsSecond(id, p);
    DecodeOfSplit(id + p.ParameterString(), [id] + IntStrings(p.Numbers()), p, 11, LinkNumber);
  }

  /** With the lock read from split[12], the decoder inverts the encoder. */
  lemma CorrectedRoundTrip(id: string, p: MessageConditionsParameters)
    requires CommaFree(id)
    ensures CorrectedCreateParametersFromResponseString(id + p.ParameterString()) == Ok(p)
  {
    SplitParameterString(id, p);
    EncodedFieldsFirst(id, p);
    EncodedFieldsSecond(id, p);
    DecodeOfSplit(id + p.ParameterString(), [id] + IntStrings(p.Numbers()), p, 12, p.lock);
  }
}
