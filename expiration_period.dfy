/**
 * Expiration periods: an offset of years, months, days, hours and minutes
 * stored under a program and a period number, with the validating
 * constructor, the encoder and the decoder of the printer's reply.
 */
module ExpirationPeriod {
  import opened Wrappers
  import opened Wire

  datatype ExpirationPeriodParameters = ExpirationPeriodParameters(
    programNumber: Int32,
    expirationPeriodNumber: Int32,
    year: Int32,
    month: Int32,
    day: Int32,
    hour: Int32,
    minute: Int32)
  {
    /** The integers written at split[1..7]. */
    function Numbers(): seq<int>
    {
      [programNumber, expirationPeriodNumber, year, month, day, hour, minute]
    }

    function ParameterString(): string
    {
      Prefixed(IntStrings(Numbers()))
    }
  }

  function CreateParametersFromResponseString(rawResponseString: string): Result<ExpirationPeriodParameters>
  {
    var split := Split(rawResponseString);
    var programNumber :- IntField(split, 1);
    var expirationPeriodNumber :- IntField(split, 2);
    var year :- IntField(split, 3);
    var month :- IntField(split, 4);
    var day :- IntField(split, 5);
    var hour :- IntField(split, 6);
    var minute :- IntField(split, 7);
    Ok(ExpirationPeriodParameters(programNumber, expirationPeriodNumber, year, month, day, hour, minute))
  }

  /**
   * Program 0 to 500, period 0 to 50, year, month, hour and minute offsets
   * -99 to 99 and a day offset of -1999 to 1999, failing at the first bad one.
   */
  function CreateParameters(programNumber: Int32, expirationPeriodNumber: Int32, year: Int32, month: Int32,
                            day: Int32, hour: Int32, minute: Int32)
    : (r: Result<ExpirationPeriodParameters>)
    ensures r.Ok? <==> && 0 <= programNumber <= 500 && 0 <= expirationPeriodNumber <= 50
                       && -99 <= year <= 99 && -99 <= month <= 99 && -1999 <= day <= 1999
                       && -99 <= hour <= 99 && -99 <= minute <= 99
    ensures r.Ok? ==> r.value == ExpirationPeriodParameters(programNumber, expirationPeriodNumber, year, month,
                                   day, hour, minute)
  {
    if !(0 <= programNumber <= 500) then Err(InvalidArgument("programNumber"))
    else if !(0 <= expirationPeriodNumber <= 50) then Err(InvalidArgument("expirationPeriodNumber"))
    else if !(-99 <= year <= 99) then Err(InvalidArgument("year"))
    else if !(-99 <= month <= 99) then Err(InvalidArgument("month"))
    else if !(-1999 <= day <= 1999) then Err(InvalidArgument("day"))
    else if !(-99 <= hour <= 99) then Err(InvalidArgument("hour"))
    else if !(-99 <= minute <= 99) then Err(InvalidArgument("minute"))
    else Ok(ExpirationPeriodParameters(programNumber, expirationPeriodNumber, year, month, day, hour, minute))
  }

  lemma NumbersAt(p: ExpirationPeriodParameters)
    ensures var n := p.Numbers();
            && |n| == 7
            && n[0] == p.programNumber && n[1] == p.expirationPeriodNumber && n[2] == p.year && n[3] == p.month
            && n[4] == p.day && n[5] == p.hour && n[6] == p.minute
  {
  }

  lemma DecodeOfSplit(raw: string, split: seq<string>, p: ExpirationPeriodParameters)
    requires |split| == 8 && Split(raw) == split
    requires split[1] == IntToString(p.programNumber) && split[2] == IntToString(p.expirationPeriodNumber)
    requires split[3] == IntToString(p.year) && split[4] == IntToString(p.month)
    requires split[5] == IntToString(p.day) && split[6] == IntToString(p.hour)
    requires split[7] == IntToString(p.minute)
    ensures CreateParametersFromResponseString(raw) == Ok(p)
  {
    IntFieldOfIntToString(split, 1, p.programNumber);
    IntFieldOfIntToString(split, 2, p.expirationPeriodNumber);
    IntFieldOfIntToString(split, 3, p.year);
    IntFieldOfIntToString(split, 4, p.month);
    IntFieldOfIntToString(split, 5, p.day);
    IntFieldOfIntToString(split, 6, p.hour);
    IntFieldOfIntToString(split, 7, p.minute);
  }

  /** The decoder reads split[1..7], where the encoder writes, so it inverts it, negative offsets included. */
  lemma RoundTrip(id: string, p: ExpirationPeriodParameters)
    requires CommaFree(id)
    ensures CreateParametersFromResponseString(id + p.ParameterString()) == Ok(p)
  {
    SplitIntStrings(id, p.Numbers());
    NumbersAt(p);
    DecodeOfSplit(id + p.ParameterString(), [id] + IntStrings(p.Numbers()), p);
  }
}
