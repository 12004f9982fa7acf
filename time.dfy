/**
 * Date and time settings: year, month, day, hour, minute and second, with the
 * validating constructor, the encoder and the decoder of the printer's reply,
 * which carries one field ahead of the time.
 */
module Time {
  import opened Wrappers
  import opened Wire

  type TimeType = Int32
  const Current: TimeType := 0
  const Hold: TimeType := 1

  datatype TimeParameters = TimeParameters(year: Int32, month: Int32, day: Int32, hour: Int32, minute: Int32,
                                           second: Int32)
  {
    /** The integers written at split[1..6]. */
    function Numbers(): seq<int>
    {
      [year, month, day, hour, minute, second]
    }

    function ParameterString(): string
    {
      Prefixed(IntStrings(Numbers()))
    }
  }

  /** Reads the time from split[2..7]. */
  function CreateParametersFromResponseString(rawResponseString: string): Result<TimeParameters>
  {
    var split := Split(rawResponseString);
    var year :- IntField(split, 2);
    var month :- IntField(split, 3);
    var day :- IntField(split, 4);
    var hour :- IntField(split, 5);
    var minute :- IntField(split, 6);
    var second :- IntField(split, 7);
    Ok(TimeParameters(year, month, day, hour, minute, second))
  }

  /** Each field in its own range, failing at the first bad one; the day is not checked against the month. */
  function CreateParameters(year: Int32, month: Int32, day: Int32, hour: Int32, minute: Int32, second: Int32)
    : (r: Result<TimeParameters>)
    ensures r.Ok? <==> && 0 <= year <= 99 && 1 <= month <= 12 && 1 <= day <= 31
                       && 0 <= hour <= 23 && 0 <= minute <= 59 && 0 <= second <= 59
    ensures r.Ok? ==> r.value == TimeParameters(year, month, day, hour, minute, second)
  {
    if !(0 <= year <= 99) then Err(InvalidArgument("year"))
    else if !(1 <= month <= 12) then Err(InvalidArgument("month"))
    else if !(1 <= day <= 31) then Err(InvalidArgument("day"))
    else if !(0 <= hour <= 23) then Err(InvalidArgument("hour"))
    else if !(0 <= minute <= 59) then Err(InvalidArgument("minute"))
    else if !(0 <= second <= 59) then Err(InvalidArgument("second"))
    else Ok(TimeParameters(year, month, day, hour, minute, second))
  }

  /** With no cross-field check, the 31st of February is accepted. */
  lemma ThirtyFirstOfFebruaryAccepted()
    ensures CreateParameters(24, 2, 31, 0, 0, 0) == Ok(TimeParameters(24, 2, 31, 0, 0, 0))
  {
  }

  lemma NumbersAt(p: TimeParameters)
    ensures var n := p.Numbers();
            && |n| == 6
            && n[0] == p.year && n[1] == p.month && n[2] == p.day && n[3] == p.hour && n[4] == p.minute
            && n[5] == p.second
  {
  }

  /** The fields of the reply one position after where the encoder writes them. */
  lemma DecodeOfSplit(raw: string, split: seq<string>, p: TimeParameters)
    requires |split| == 8 && Split(raw) == split
    requires split[2] == IntToString(p.year) && split[3] == IntToString(p.month)
    requires split[4] == IntToString(p.day) && split[5] == IntToString(p.hour)
    requires split[6] == IntToString(p.minute) && split[7] == IntToString(p.second)
    ensures CreateParametersFromResponseString(raw) == Ok(p)
  {
    IntFieldOfIntToString(split, 2, p.year);
    IntFieldOfIntToString(split, 3, p.month);
    IntFieldOfIntToString(split, 4, p.day);
    IntFieldOfIntToString(split, 5, p.hour);
    IntFieldOfIntToString(split, 6, p.minute);
    IntFieldOfIntToString(split, 7, p.second);
  }

  /** The encoder writes split[1..6] and the decoder reads split[2..7], so the encoded form lacks a last field. */
  lemma DecodeOfEncodeFails(id: string, p: TimeParameters)
    requires CommaFree(id)
    ensures CreateParametersFromResponseString(id + p.ParameterString()) == Err(MissingField(7))
  {
    SplitIntStrings(id, p.Numbers());
    NumbersAt(p);
    var split := [id] + IntStrings(p.Numbers());
    IntFieldOfIntToString(split, 2, p.month);
    IntFieldOfIntToString(split, 3, p.day);
    IntFieldOfIntToString(split, 4, p.hour);
    IntFieldOfIntToString(split, 5, p.minute);
    IntFieldOfIntToString(split, 6, p.second);
  }

  /** Behind one extra field, such as the reply's status, the decoder reads back what the encoder wrote. */
  lemma ShiftedRoundTrip(id: string, extra: string, p: TimeParameters)
    requires CommaFree(id) && CommaFree(extra)
    ensures CreateParametersFromResponseString(id + Prefixed([extra]) + p.ParameterString()) == Ok(p)
  {
    SplitIntStringsAfter(id, [extra], p.Numbers());
    IntStringsAfterAt([id] + [extra], p.Numbers());
    NumbersAt(p);
    DecodeOfSplit(id + Prefixed([extra]) + p.ParameterString(), [id] + [extra] + IntStrings(p.Numbers()), p);
  }
}
