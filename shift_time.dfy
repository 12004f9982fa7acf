/**
 * Shift time: when the printer's day shifts (hour 18 to 32 of the previous
 * day's clock) and under which condition, with the validating constructor,
 * the encoder and the decoder of the printer's reply.
 */
module ShiftTime {
  import opened Wrappers
  import opened Wire
  import opened Enums

  type ShiftCondition = Int32
  const Disabled: ShiftCondition := 0
  const EnabledOnlyOnce: ShiftCondition := 1
  const AlwaysEnabled: ShiftCondition := 2

  datatype ShiftTimeParameters = ShiftTimeParameters(shiftCondition: ShiftCondition, shiftHour: Int32,
                                                     shiftMinute: Int32)
  {
    /** The integers written at split[1..3], the condition as its number. */
    function Numbers(): seq<int>
    {
      [shiftCondition, shiftHour, shiftMinute]
    }

    function ParameterString(): string
    {
      Prefixed(IntStrings(Numbers()))
    }
  }

  function CreateParametersFromResponseString(rawResponseString: string): Result<ShiftTimeParameters>
  {
    var split := Split(rawResponseString);
    var shiftCondition :- EnumField(split, 1);
    var shiftHour :- IntField(split, 2);
    var shiftMinute :- IntField(split, 3);
    Ok(ShiftTimeParameters(shiftCondition, shiftHour, shiftMinute))
  }

  /** Hour 18 to 32, then minute 0 to 59; the condition passes through unchecked. */
  function CreateParameters(shiftCondition: ShiftCondition, shiftHour: Int32, shiftMinute: Int32)
    : (r: Result<ShiftTimeParameters>)
    ensures r.Ok? <==> 18 <= shiftHour <= 32 && 0 <= shiftMinute <= 59
    ensures r.Ok? ==> r.value == ShiftTimeParameters(shiftCondition, shiftHour, shiftMinute)
    ensures !(18 <= shiftHour <= 32) ==> r == Err(InvalidArgument("shiftHour"))
  {
    if !(18 <= shiftHour <= 32) then Err(InvalidArgument("shiftHour"))
    else if !(0 <= shiftMinute <= 59) then Err(InvalidArgument("shiftMinute"))
    else Ok(ShiftTimeParameters(shiftCondition, shiftHour, shiftMinute))
  }

  /** The decoder reads split[1..3], where the encoder writes, so it inverts it. */
  lemma RoundTrip(id: string, p: ShiftTimeParameters)
    requires CommaFree(id)
    ensures CreateParametersFromResponseString(id + p.ParameterString()) == Ok(p)
  {
    SplitIntStrings(id, p.Numbers());
    var split := [id] + IntStrings(p.Numbers());
    assert p.Numbers()[0] == p.shiftCondition && p.Numbers()[1] == p.shiftHour && p.Numbers()[2] == p.shiftMinute;
    EnumFieldOfIntToString(split, 1, p.shiftCondition);
    IntFieldOfIntToString(split, 2, p.shiftHour);
    IntFieldOfIntToString(split, 3, p.shiftMinute);
  }
}
