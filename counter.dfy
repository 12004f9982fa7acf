/**
 * Counters: the current value and current repeat count of one counter, and a
 * counter's conditions (digits, number system, range, step, repetitions and
 * timings). A counter is named by a letter A to J or L, or by a number 1 to 9.
 */
module Counter {
  import opened Wrappers
  import opened Wire
  import opened Enums

  type CountTiming = Int32
  const PerPrint: CountTiming := 0
  const CountOnSensor: CountTiming := 1

  /** The members of CountTiming, whose names interpolation writes. */
  const CountTimingMembers: seq<Member> := [Member("PerPrint", 0), Member("Sensor", 1)]

  type ResetTiming = Int32
  const NoReset: ResetTiming := 0
  const ResetOnSensor: ResetTiming := 1

  /** The members of ResetTiming; the first is named "None". */
  const ResetTimingMembers: seq<Member> := [Member("None", 0), Member("Sensor", 1)]

  lemma TimingMembersWellNamed()
    ensures WellNamed(CountTimingMembers) && WellNamed(ResetTimingMembers)
  {
    assert !IsWhite('P') && !IsWhite('t') && !IsWhite('S') && !IsWhite('r') && !IsWhite('N') && !IsWhite('e');
  }

  /** The one-letter names of a counter: A to J, and L. */
  predicate IsCounterLetter(s: string)
  {
    |s| == 1 && ('A' <= s[0] <= 'J' || s[0] == 'L')
  }

  /**
   * The counter-number check shared by the three constructors: a letter passes
   * as it is; anything else goes through int.Parse, whose failure is the
   * exception, and must then lie in 1 to 9.
   */
  function CheckCounterNumber(counterNumber: string): (r: Result<string>)
    ensures r.Ok? <==> IsCounterLetter(counterNumber)
                       || (ParseInt(counterNumber).Some? && 1 <= ParseInt(counterNumber).value <= 9)
    ensures r.Ok? ==> r.value == counterNumber && CommaFree(counterNumber)
    ensures !IsCounterLetter(counterNumber) && ParseInt(counterNumber).None? ==> r == Err(BadFormat)
  {
    if IsCounterLetter(counterNumber) then Ok(counterNumber)
    else
      var n :- OrBadFormat(ParseInt(counterNumber));
      ParsedIsCommaFree(counterNumber);
      if 1 <= n <= 9 then Ok(counterNumber) else Err(InvalidArgument("counterNumber"))
  }

  /** "K" is no counter letter and no number, so the check fails in the parse rather than in the range test. */
  lemma CounterNumberK()
    ensures CheckCounterNumber("K") == Err(BadFormat)
  {
    assert !IsWhite('K');
    assert TrimStart("K") == "K";
    assert TrimEnd("K") == "K";
    assert ParseSigned("K") == None by {
      assert !IsDigit("K"[0]);
    }
    assert ParseInt("K") == None;
  }

  datatype CounterCurrentValueParameters = CounterCurrentValueParameters(
    programNumber: Int32,
    counterNumber: string,
    currentCounterValue: UInt32)
  {
    function ParameterString(): string
    {
      Prefixed([IntToString(programNumber), counterNumber, IntToString(currentCounterValue)])
    }
  }

  /** Program 0 to 500 and a valid counter number; the value passes through. */
  function CreateCounterCurrentValueParameters(programNumber: Int32, counterNumber: string,
                                               currentCounterValue: UInt32): (r: Result<CounterCurrentValueParameters>)
    ensures r.Ok? <==> 0 <= programNumber <= 500 && CheckCounterNumber(counterNumber).Ok?
    ensures r.Ok? ==> r.value == CounterCurrentValueParameters(programNumber, counterNumber, currentCounterValue)
  {
    if !(0 <= programNumber <= 500) then Err(InvalidArgument("programNumber"))
    else
      var checked :- CheckCounterNumber(counterNumber);
      Ok(CounterCurrentValueParameters(programNumber, checked, currentCounterValue))
  }

  /** Reads the program from split[2], the counter from split[3] and the value from split[4]. */
  function CounterCurrentValueFromResponseString(rawResponseString: string): Result<CounterCurrentValueParameters>
  {
    var split := Split(rawResponseString);
    var programNumber :- IntField(split, 2);
    var counterNumber :- Field(split, 3);
    var currentCounterValue :- UIntField(split, 4);
    Ok(CounterCurrentValueParameters(programNumber, counterNumber, currentCounterValue))
  }

  datatype CounterCurrentRepeatCountParameters = CounterCurrentRepeatCountParameters(
    programNumber: Int32,
    counterNumber: string,
    currentRepeatCountValue: UInt32)
  {
    function ParameterString(): string
    {
      Prefixed([IntToString(programNumber), counterNumber, IntToString(currentRepeatCountValue)])
    }
  }

  /** Program 0 to 500 and a valid counter number; the count passes through. */
  function CreateCounterCurrentRepeatCountParameters(programNumber: Int32, counterNumber: string,
                                                     currentRepeatCountValue: UInt32)
    : (r: Result<CounterCurrentRepeatCountParameters>)
    ensures r.Ok? <==> 0 <= programNumber <= 500 && CheckCounterNumber(counterNumber).Ok?
    ensures r.Ok? ==> r.value == CounterCurrentRepeatCountParameters(programNumber, counterNumber,
                                                                     currentRepeatCountValue)
  {
    if !(0 <= programNumber <= 500) then Err(InvalidArgument("programNumber"))
    else
      var checked :- CheckCounterNumber(counterNumber);
      Ok(CounterCurrentRepeatCountParameters(programNumber, checked, currentRepeatCountValue))
  }

  /** Reads the program from split[2], the counter from split[3] and the count from split[4]. */
  function CounterCurrentRepeatCountFromResponseString(rawResponseString: string)
    : Result<CounterCurrentRepeatCountParameters>
  {
    var split := Split(rawResponseString);
    var programNumber :- IntField(split, 2);
    var counterNumber :- Field(split, 3);
    var currentRepeatCountValue :- UIntField(split, 4);
    Ok(CounterCurrentRepeatCountParameters(programNumber, counterNumber, currentRepeatCountValue))
  }

  /** The split form of a reply of three fields, with and without one extra field ahead of them. */
  lemma SplitThreeFields(id: string, extra: string, a: string, b: string, c: string)
    requires CommaFree(id) && CommaFree(extra) && CommaFree(a) && CommaFree(b) && CommaFree(c)
    ensures Split(id + Prefixed([extra]) + Prefixed([a, b, c])) == [id, extra, a, b, c]
    ensures Split(id + Prefixed([a, b, c])) == [id, a, b, c]
  {
    assert Prefixed([extra]) + Prefixed([a, b, c]) == Prefixed([extra, a, b, c]) by {
      assert [extra, a, b, c][1..] == [a, b, c];
      assert [extra][1..] == [];
    }
    assert id + Prefixed([extra]) + Prefixed([a, b, c]) == id + (Prefixed([extra]) + Prefixed([a, b, c]));
    SplitPrefixed(id, [extra, a, b, c]);
    SplitPrefixed(id, [a, b, c]);
  }

  /** The three fields the two records share read back from split[2..4]. */
  lemma ThreeFieldsReadBack(split: seq<string>, programNumber: Int32, counterNumber: string, value: UInt32)
    requires |split| == 5
    requires split[2] == IntToString(programNumber) && split[3] == counterNumber && split[4] == IntToString(value)
    ensures IntField(split, 2) == Ok(programNumber) && Field(split, 3) == Ok(counterNumber)
    ensures UIntField(split, 4) == Ok(value)
  {
    IntFieldOfIntToString(split, 2, programNumber);
    UIntFieldOfIntToString(split, 4, value);
  }

  /**
   * The encoder writes the value at split[1..3] but the decoder reads
   * split[2..4], so what the encoder writes never decodes: the counter lands in
   * the program slot and the value slot is missing.
   */
  lemma CurrentValueDecodeOfEncodeFails(id: string, p: CounterCurrentValueParameters)
    requires CommaFree(id) && CommaFree(p.counterNumber)
    ensures CounterCurrentValueFromResponseString(id + p.ParameterString()).Err?
  {
    IntToStringCommaFree(p.programNumber);
    IntToStringCommaFree(p.currentCounterValue);
    SplitThreeFields(id, "", IntToString(p.programNumber), p.counterNumber, IntToString(p.currentCounterValue));
  }

  /** Behind one extra field, such as the reply's status, the decoder reads back what the encoder wrote. */
  lemma CurrentValueOfSplit(raw: string, split: seq<string>, p: CounterCurrentValueParameters)
    requires |split| == 5 && Split(raw) == split
    requires split[2] == IntToString(p.programNumber) && split[3] == p.counterNumber
    requires split[4] == IntToString(p.currentCounterValue)
    ensures CounterCurrentValueFromResponseString(raw) == Ok(p)
  {
    ThreeFieldsReadBack(split, p.programNumber, p.counterNumber, p.currentCounterValue);
  }

  lemma CurrentValueShiftedRoundTrip(id: string, extra: string, p: CounterCurrentValueParameters)
    requires CommaFree(id) && CommaFree(extra) && CommaFree(p.counterNumber)
    ensures CounterCurrentValueFromResponseString(id + Prefixed([extra]) + p.ParameterString()) == Ok(p)
  {
    var fields := [IntToString(p.programNumber), p.counterNumber, IntToString(p.currentCounterValue)];
    IntToStringCommaFree(p.programNumber);
    IntToStringCommaFree(p.currentCounterValue);
    SplitThreeFields(id, extra, fields[0], fields[1], fields[2]);
    CurrentValueOfSplit(id + Prefixed([extra]) + p.ParameterString(), [id, extra] + fields, p);
  }

  lemma RepeatCountDecodeOfEncodeFails(id: string, p: CounterCurrentRepeatCountParameters)
    requires CommaFree(id) && CommaFree(p.counterNumber)
    ensures CounterCurrentRepeatCountFromResponseString(id + p.ParameterString()).Err?
  {
    IntToStringCommaFree(p.programNumber);
    IntToStringCommaFree(p.currentRepeatCountValue);
    SplitThreeFields(id, "", IntToString(p.programNumber), p.counterNumber, IntToString(p.currentRepeatCountValue));
  }

  lemma RepeatCountOfSplit(raw: string, split: seq<string>, p: CounterCurrentRepeatCountParameters)
    requires |split| == 5 && Split(raw) == split
    requires split[2] == IntToString(p.programNumber) && split[3] == p.counterNumber
    requires split[4] == IntToString(p.currentRepeatCountValue)
    ensures CounterCurrentRepeatCountFromResponseString(raw) == Ok(p)
  {
    ThreeFieldsReadBack(split, p.programNumber, p.counterNumber, p.currentRepeatCountValue);
  }

  lemma RepeatCountShiftedRoundTrip(id: string, extra: string, p: CounterCurrentRepeatCountParameters)
    requires CommaFree(id) && CommaFree(extra) && CommaFree(p.counterNumber)
    ensures CounterCurrentRepeatCountFromResponseString(id + Prefixed([extra]) + p.ParameterString()) == Ok(p)
  {
    var fields := [IntToString(p.programNumber), p.counterNumber, IntToString(p.currentRepeatCountValue)];
    IntToStringCommaFree(p.programNumber);
    IntToStringCommaFree(p.currentRepeatCountValue);
    SplitThreeFields(id, extra, fields[0], fields[1], fields[2]);
    RepeatCountOfSplit(id + Prefixed([extra]) + p.ParameterString(), [id, extra] + fields, p);
  }

  datatype CounterConditionsParameters = CounterConditionsParameters(
    programNumber: string,
    counterNumber: string,
    numberOfDigits: Int32,
    numberSystem: Int32,
    initialValue: UInt32,
    finalValue: UInt32,
    initialValueFromSecondCycle: UInt32,
    step: Int32,
    numberOfRepetitions: UInt32,
    countTiming: CountTiming,
    resetTiming: ResetTiming)
  {
    /** The fields in wire order, split[1] to split[11]; the two timings are written by member name. */
    function Fields(): seq<string>
    {
      [programNumber, counterNumber, IntToString(numberOfDigits), IntToString(numberSystem),
       IntToString(initialValue), IntToString(finalValue), IntToString(initialValueFromSecondCycle),
       IntToString(step), IntToString(numberOfRepetitions),
       EnumToString(countTiming, CountTimingMembers), EnumToString(resetTiming, ResetTimingMembers)]
    }

    function ParameterString(): string
    {
      Prefixed(Fields())
    }
  }

  /** "ALL", or a string int.Parse reads as 0 to 500; an unparsable string is the parse's exception. */
  function CheckProgramNumber(programNumber: string): (r: Result<string>)
    ensures r.Ok? <==> programNumber == "ALL"
                       || (ParseInt(programNumber).Some? && 0 <= ParseInt(programNumber).value <= 500)
    ensures r.Ok? ==> r.value == programNumber && CommaFree(programNumber)
    ensures programNumber != "ALL" && ParseInt(programNumber).None? ==> r == Err(BadFormat)
  {
    if programNumber == "ALL" then Ok(programNumber)
    else
      var n :- OrBadFormat(ParseInt(programNumber));
      ParsedIsCommaFree(programNumber);
      if 0 <= n <= 500 then Ok(programNumber) else Err(InvalidArgument("programNumber"))
  }

  /**
   * Checks the program and counter strings, digits 1 to 10, number system 2
   * to 36 and step 0 to 9999; the four values, the repetitions and both
   * timings pass through unchecked.
   */
  function CreateCounterConditionsParameters(
    programNumber: string, counterNumber: string, numberOfDigits: Int32, numberSystem: Int32,
    initialValue: UInt32, finalValue: UInt32, initialValueFromSecondCycle: UInt32, step: Int32,
    numberOfRepetitions: UInt32, countTiming: CountTiming, resetTiming: ResetTiming)
    : (r: Result<CounterConditionsParameters>)
    ensures r.Ok? <==> && CheckProgramNumber(programNumber).Ok? && CheckCounterNumber(counterNumber).Ok?
                       && 1 <= numberOfDigits <= 10 && 2 <= numberSystem <= 36 && 0 <= step <= 9999
    ensures r.Ok? ==> r.value == CounterConditionsParameters(programNumber, counterNumber, numberOfDigits,
                        numberSystem, initialValue, finalValue, initialValueFromSecondCycle, step,
                        numberOfRepetitions, countTiming, resetTiming)
  {
    var checkedProgram :- CheckProgramNumber(programNumber);
    var checkedCounter :- CheckCounterNumber(counterNumber);
    if !(1 <= numberOfDigits <= 10) then Err(InvalidArgument("numberOfDigits"))
    else if !(2 <= numberSystem <= 36) then Err(InvalidArgument("numberSystem"))
    else if !(0 <= step <= 9999) then Err(InvalidArgument("step"))
    else Ok(CounterConditionsParameters(checkedProgram, checkedCounter, numberOfDigits, numberSystem, initialValue,
      finalValue, initialValueFromSecondCycle, step, numberOfRepetitions, countTiming, resetTiming))
  }

  function CounterConditionsFromResponseString(rawResponseString: string): Result<CounterConditionsParameters>
  {
    var split := Split(rawResponseString);
    var programNumber :- Field(split, 1);
    var counterNumber :- Field(split, 2);
    var numberOfDigits :- IntField(split, 3);
    var numberSystem :- IntField(split, 4);
    var initialValue :- UIntField(split, 5);
    var finalValue :- UIntField(split, 6);
    var initialValueFromSecondCycle :- UIntField(split, 7);
    var step :- IntField(split, 8);
    var numberOfRepetitions :- UIntField(split, 9);
    var countTiming :- NamedEnumField(split, 10, CountTimingMembers);
    var resetTiming :- NamedEnumField(split, 11, ResetTimingMembers);
    Ok(CounterConditionsParameters(programNumber, counterNumber, numberOfDigits, numberSystem, initialValue,
      finalValue, initialValueFromSecondCycle, step, numberOfRepetitions, countTiming, resetTiming))
  }

  lemma TimingNamesCommaFree(c: CountTiming, r: ResetTiming)
    ensures CommaFree(EnumToString(c, CountTimingMembers)) && CommaFree(EnumToString(r, ResetTimingMembers))
  {
    TimingMembersWellNamed();
    EnumToStringCommaFree(c, CountTimingMembers);
    EnumToStringCommaFree(r, ResetTimingMembers);
  }

  lemma CommaFreeEleven(a0: string, a1: string, a2: string, a3: string, a4: string, a5: string, a6: string,
                        a7: string, a8: string, a9: string, a10: string)
    requires CommaFree(a0) && CommaFree(a1) && CommaFree(a2) && CommaFree(a3) && CommaFree(a4) && CommaFree(a5)
    requires CommaFree(a6) && CommaFree(a7) && CommaFree(a8) && CommaFree(a9) && CommaFree(a10)
    ensures AllCommaFree([a0, a1, a2, a3, a4, a5, a6, a7, a8, a9, a10])
  {
  }

  lemma SplitCounterConditions(id: string, p: CounterConditionsParameters)
    requires CommaFree(id) && CommaFree(p.programNumber) && CommaFree(p.counterNumber)
    ensures Split(id + p.ParameterString()) == [id] + p.Fields()
  {
    TimingNamesCommaFree(p.countTiming, p.resetTiming);
    var f := p.Fields();
    IntToStringCommaFree(p.numberOfDigits);
    IntToStringCommaFree(p.numberSystem);
    IntToStringCommaFree(p.initialValue);
    IntToStringCommaFree(p.finalValue);
    IntToStringCommaFree(p.initialValueFromSecondCycle);
    IntToStringCommaFree(p.step);
    IntToStringCommaFree(p.numberOfRepetitions);
    CommaFreeEleven(f[0], f[1], f[2], f[3], f[4], f[5], f[6], f[7], f[8], f[9], f[10]);
    SplitPrefixed(id, f);
  }

  lemma CounterConditionsOfSplit(raw: string, split: seq<string>, p: CounterConditionsParameters)
    requires |split| == 12 && Split(raw) == split
    requires split[1] == p.programNumber && split[2] == p.counterNumber
    requires split[3] == IntToString(p.numberOfDigits) && split[4] == IntToString(p.numberSystem)
    requires split[5] == IntToString(p.initialValue) && split[6] == IntToString(p.finalValue)
    requires split[7] == IntToString(p.initialValueFromSecondCycle) && split[8] == IntToString(p.step)
    requires split[9] == IntToString(p.numberOfRepetitions)
    requires split[10] == EnumToString(p.countTiming, CountTimingMembers)
    requires split[11] == EnumToString(p.resetTiming, ResetTimingMembers)
    ensures IntField(split, 3) == Ok(p.numberOfDigits) && IntField(split, 4) == Ok(p.numberSystem)
    ensures UIntField(split, 5) == Ok(p.initialValue) && UIntField(split, 6) == Ok(p.finalValue)
    ensures UIntField(split, 7) == Ok(p.initialValueFromSecondCycle) && IntField(split, 8) == Ok(p.step)
    ensures UIntField(split, 9) == Ok(p.numberOfRepetitions)
    ensures NamedEnumField(split, 10, CountTimingMembers) == Ok(p.countTiming)
    ensures NamedEnumField(split, 11, ResetTimingMembers) == Ok(p.resetTiming)
    ensures CounterConditionsFromResponseString(raw) == Ok(p)
  {
    TimingMembersWellNamed();
    IntFieldOfIntToString(split, 3, p.numberOfDigits);
    IntFieldOfIntToString(split, 4, p.numberSystem);
    UIntFieldOfIntToString(split, 5, p.initialValue);
    UIntFieldOfIntToString(split, 6, p.finalValue);
    UIntFieldOfIntToString(split, 7, p.initialValueFromSecondCycle);
    IntFieldOfIntToString(split, 8, p.step);
    UIntFieldOfIntToString(split, 9, p.numberOfRepetitions);
    NamedEnumFieldOfEnumToString(split, 10, p.countTiming, CountTimingMembers);
    NamedEnumFieldOfEnumToString(split, 11, p.resetTiming, ResetTimingMembers);
  }

  /**
   * The decoder reads split[1..11], where the encoder writes, and reads the
   * timings back by name, so it inverts the encoder whenever the program and
   * counter strings hold no comma.
   */
  lemma CounterConditionsRoundTrip(id: string, p: CounterConditionsParameters)
    requires CommaFree(id) && CommaFree(p.programNumber) && CommaFree(p.counterNumber)
    ensures CounterConditionsFromResponseString(id + p.ParameterString()) == Ok(p)
  {
    SplitCounterConditions(id, p);
    CounterConditionsOfSplit(id + p.ParameterString(), [id] + p.Fields(), p);
  }

  /** Every record the constructor accepts reads back unchanged: its strings are "ALL", letters or numbers. */
  lemma CreatedCounterConditionsRoundTrip(
    id: string, programNumber: string, counterNumber: string, numberOfDigits: Int32, numberSystem: Int32,
    initialValue: UInt32, finalValue: UInt32, initialValueFromSecondCycle: UInt32, step: Int32,
    numberOfRepetitions: UInt32, countTiming: CountTiming, resetTiming: ResetTiming)
    requires CommaFree(id)
    ensures var r := CreateCounterConditionsParameters(programNumber, counterNumber, numberOfDigits, numberSystem,
                       initialValue, finalValue, initialValueFromSecondCycle, step, numberOfRepetitions,
                       countTiming, resetTiming);
            r.Ok? ==> CounterConditionsFromResponseString(id + r.value.ParameterString()) == r
  {
    var r := CreateCounterConditionsParameters(programNumber, counterNumber, numberOfDigits, numberSystem,
               initialValue, finalValue, initialValueFromSecondCycle, step, numberOfRepetitions,
               countTiming, resetTiming);
    if r.Ok? {
      CounterConditionsRoundTrip(id, r.value);
    }
  }
}
