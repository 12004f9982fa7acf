/**
 * Encoded characters: replacement strings the printer substitutes for a date,
 * time, counter or shift-code value. Nine types carry a flat list of strings;
 * the shift code carries divisions, each a start time with its string. The
 * module holds the identification-code and type-token maps, both encoders,
 * both validating constructors and the decoder of the printer's reply.
 */
module EncodedCharacters {
  import opened Wrappers
  import opened Wire
  import opened Enums

  datatype EncodedType =
    | Year | Month | Day | Hour | Minute | Second | DayOfTheWeek | Week | Counter | ShiftCode
    | AllTypesIncludingShift

  /** The position of a type in its enum declaration. */
  function Ordinal(t: EncodedType): nat
  {
    match t
    case Year => 0
    case Month => 1
    case Day => 2
    case Hour => 3
    case Minute => 4
    case Second => 5
    case DayOfTheWeek => 6
    case Week => 7
    case Counter => 8
    case ShiftCode => 9
    case AllTypesIncludingShift => 10
  }

  /** The types whose records hold a flat list of strings. */
  predicate IsFlat(t: EncodedType)
  {
    !t.ShiftCode? && !t.AllTypesIncludingShift?
  }

  /** The command that sets a type's strings; the catch-all type has none. */
  function SetIdentificationCodeString(t: EncodedType): Result<string>
  {
    match t
    case Year => Ok("RA")
    case Month => Ok("RC")
    case Day => Ok("RE")
    case Hour => Ok("RG")
    case Minute => Ok("RI")
    case Second => Ok("RK")
    case DayOfTheWeek => Ok("RM")
    case Week => Ok("RO")
    case Counter => Ok("RQ")
    case ShiftCode => Ok("RS")
    case AllTypesIncludingShift => Err(InvalidArgument("encodedType"))
  }

  /** The command that requests a type's strings; the catch-all type has none. */
  function RequestIdentificationCodeString(t: EncodedType): Result<string>
  {
    match t
    case Year => Ok("RB")
    case Month => Ok("RD")
    case Day => Ok("RF")
    case Hour => Ok("RH")
    case Minute => Ok("RJ")
    case Second => Ok("RL")
    case DayOfTheWeek => Ok("RN")
    case Week => Ok("RP")
    case Counter => Ok("RR")
    case ShiftCode => Ok("RT")
    case AllTypesIncludingShift => Err(InvalidArgument("encodedType"))
  }

  /**
   * The ten real types are numbered from "R" + 'A' in steps of two letters:
   * the set command takes the odd letter, the request command the next one.
   */
  lemma IdentificationCodeLetters(t: EncodedType)
    ensures SetIdentificationCodeString(t).Ok? <==> t != AllTypesIncludingShift
    ensures RequestIdentificationCodeString(t).Ok? <==> t != AllTypesIncludingShift
    ensures t != AllTypesIncludingShift ==>
              && SetIdentificationCodeString(t).value == ['R', ('A' as int + 2 * Ordinal(t)) as char]
              && RequestIdentificationCodeString(t).value == ['R', ('A' as int + 2 * Ordinal(t) + 1) as char]
  {
  }

  /** No two commands share a code: distinct types get distinct codes, and no set code is a request code. */
  lemma IdentificationCodesDistinct(t: EncodedType, u: EncodedType)
    requires t != AllTypesIncludingShift && u != AllTypesIncludingShift
    ensures t != u ==> SetIdentificationCodeString(t).value != SetIdentificationCodeString(u).value
    ensures t != u ==> RequestIdentificationCodeString(t).value != RequestIdentificationCodeString(u).value
    ensures SetIdentificationCodeString(t).value != RequestIdentificationCodeString(u).value
  {
    IdentificationCodeLetters(t);
    IdentificationCodeLetters(u);
    var s := SetIdentificationCodeString(t).value;
    var q := RequestIdentificationCodeString(u).value;
    assert s[1] as int == 'A' as int + 2 * Ordinal(t) && q[1] as int == 'A' as int + 2 * Ordinal(u) + 1;
    assert t != u ==> Ordinal(t) != Ordinal(u);
  }

  function EncodedTypeToString(t: EncodedType): (token: string)
    ensures |token| == 1 && CommaFree(token)
  {
    match t
    case Year => "0"
    case Month => "1"
    case Day => "2"
    case Hour => "3"
    case Minute => "4"
    case Second => "5"
    case DayOfTheWeek => "6"
    case Week => "7"
    case Counter => "8"
    case ShiftCode => "9"
    case AllTypesIncludingShift => "A"
  }

  /** The type a wire token stands for; any other string is refused. */
  function StringToEncodedType(s: string): Option<EncodedType>
  {
    match s
    case "0" => Some(Year)
    case "1" => Some(Month)
    case "2" => Some(Day)
    case "3" => Some(Hour)
    case "4" => Some(Minute)
    case "5" => Some(Second)
    case "6" => Some(DayOfTheWeek)
    case "7" => Some(Week)
    case "8" => Some(Counter)
    case "9" => Some(ShiftCode)
    case "A" => Some(AllTypesIncludingShift)
    case _ => None
  }

  /** The token maps are inverses over all eleven types, and the tokens are "0" to "9" and "A". */
  lemma EncodedTypeTokensInverse(t: EncodedType, s: string)
    ensures StringToEncodedType(EncodedTypeToString(t)) == Some(t)
    ensures StringToEncodedType(s).Some? ==> EncodedTypeToString(StringToEncodedType(s).value) == s
    ensures StringToEncodedType(s).Some? <==> s in {"0", "1", "2", "3", "4", "5", "6", "7", "8", "9", "A"}
  {
  }

  /** A start time and its string. A freshly allocated division is (0, null). */
  datatype Division = Division(startTime: Int32, encodedCharacterString: Option<string>)

  const DefaultDivision := Division(0, None)

  /** Interpolating a string into the wire form; a null string writes nothing. */
  function Render(s: Option<string>): (r: string)
    ensures s.Some? ==> r == s.value
    ensures s.None? ==> r == ""
  {
    match s
    case Some(x) => x
    case None => ""
  }

  function RenderAll(strings: seq<Option<string>>): (r: seq<string>)
    ensures |r| == |strings|
    ensures forall i :: 0 <= i < |strings| ==> r[i] == Render(strings[i])
  {
    seq(|strings|, i requires 0 <= i < |strings| => Render(strings[i]))
  }

  /** The fields a list of divisions writes: start time, then string, for each division in turn. */
  function DivisionFields(division: seq<Division>): (r: seq<string>)
    ensures |r| == 2 * |division|
  {
    if |division| == 0 then []
    else [IntToString(division[0].startTime), Render(division[0].encodedCharacterString)] + DivisionFields(division[1..])
  }

  /** Division i is written at fields 2i and 2i+1. */
  lemma {:induction false} DivisionFieldsAt(division: seq<Division>, i: nat)
    requires i < |division|
    ensures DivisionFields(division)[2 * i] == IntToString(division[i].startTime)
    ensures DivisionFields(division)[2 * i + 1] == Render(division[i].encodedCharacterString)
  {
    if i > 0 {
      DivisionFieldsAt(division[1..], i - 1);
    }
  }

  /**
   * The record family. The nine flat types share one shape, told apart by their
   * type; a shift-code record's inherited string list is always empty.
   */
  datatype EncodedCharactersParameters =
    | Flat(encodedType: EncodedType, encodedCharacters: Int32, characterCode: CharacterCode,
           numberOfCharactersToReplace: Int32, encodedCharacterStrings: seq<Option<string>>)
    | ShiftCoded(encodedCharacters: Int32, characterCode: CharacterCode,
                 numberOfCharactersToReplace: Int32, division: seq<Division>)
  {
    function Header(): seq<string>
    {
      [IntToString(encodedCharacters), IntToString(characterCode), IntToString(numberOfCharactersToReplace)]
    }

    /**
     * The fields after the header: one per string for a flat record, two per
     * division for a shift-code record (whose ParameterString hides the base one).
     */
    function Body(): seq<string>
    {
      if Flat? then RenderAll(encodedCharacterStrings) else DivisionFields(division)
    }

    function ParameterString(): string
    {
      Prefixed(Header() + Body())
    }

    /**
     * The base record's ParameterString. The shift-code record's own is declared
     * `new`, so it hides this one instead of overriding it, and a call through
     * the base type binds here: the header, then the inherited strings, which a
     * shift-code record never has.
     */
    function BaseParameterString(): string
    {
      Prefixed(Header() + (if Flat? then RenderAll(encodedCharacterStrings) else []))
    }
  }

  /**
   * Through the base type a flat record writes its whole text, while a
   * shift-code record writes only its header and so loses every division.
   */
  lemma BaseParameterStringOf(p: EncodedCharactersParameters)
    ensures p.Flat? ==> p.BaseParameterString() == p.ParameterString()
    ensures p.ShiftCoded? ==> p.BaseParameterString() == Prefixed(p.Header())
    ensures p.ShiftCoded? ==> (|p.BaseParameterString()| < |p.ParameterString()| <==> |p.division| > 0)
  {
    if p.ShiftCoded? {
      assert p.Header() + [] == p.Header();
      PrefixedAppend(p.Header(), DivisionFields(p.division));
    }
  }

  /** What checking one string's length finds: nothing, a null string, or one over ten UTF-16 code units. */
  function LengthFault(s: Option<string>): (r: Option<Fault>)
    ensures r.None? <==> s.Some? && Utf16Length(s.value) <= 10
  {
    match s
    case None => Some(NullString)
    case Some(x) => if Utf16Length(x) <= 10 then None else Some(InvalidArgument("encodedCharacterStrings"))
  }

  /** The fault of the first of strings[0 .. limit-1] that fails its length check, in index order. */
  function FirstBadString(strings: seq<Option<string>>, limit: nat): (r: Option<Fault>)
    requires limit <= |strings|
    ensures r.None? <==> forall i :: 0 <= i < limit ==> strings[i].Some? && Utf16Length(strings[i].value) <= 10
    ensures r.Some? ==> exists i :: 0 <= i < limit && r == LengthFault(strings[i])
  {
    if limit == 0 then None
    else
      match FirstBadString(strings, limit - 1)
      case Some(f) => Some(f)
      case None => LengthFault(strings[limit - 1])
  }

  /** Once a string fails, every longer scan reports that string's fault. */
  lemma {:induction false} FirstBadStringStops(strings: seq<Option<string>>, i: nat, limit: nat)
    requires i < limit <= |strings|
    requires FirstBadString(strings, i).None? && LengthFault(strings[i]).Some?
    ensures FirstBadString(strings, limit) == LengthFault(strings[i])
    decreases limit
  {
    if limit > i + 1 {
      FirstBadStringStops(strings, i, limit - 1);
    }
  }

  /** The number of strings the library's loops visit: all but the last. */
  function AllButLast(n: nat): (m: nat)
    ensures m <= n && (n > 0 ==> m == n - 1)
  {
    if n == 0 then 0 else n - 1
  }

  /** What ValidateEncodedCharactersParameters reaches: true, or the exception it throws first. */
  function Validation(encodedCharacters: Int32, numberOfCharactersToReplace: Int32,
                      encodedCharacterStrings: seq<Option<string>>): Result<bool>
  {
    if !(1 <= encodedCharacters <= 10) then Err(InvalidArgument("encodedCharacters"))
    else if !(1 <= numberOfCharactersToReplace <= 10) then Err(InvalidArgument("numberOfCharactersToReplace"))
    else if |encodedCharacterStrings| > 10 then Err(InvalidArgument("encodedCharacterStrings"))
    else
      match FirstBadString(encodedCharacterStrings, AllButLast(|encodedCharacterStrings|))
      case Some(f) => Err(f)
      case None => Ok(true)
  }

  /** The validator accepts the ranges and up to ten strings, of which only the last escapes the length check. */
  lemma ValidationAccepts(encodedCharacters: Int32, numberOfCharactersToReplace: Int32,
                          encodedCharacterStrings: seq<Option<string>>)
    ensures Validation(encodedCharacters, numberOfCharactersToReplace, encodedCharacterStrings).Ok? <==>
              && 1 <= encodedCharacters <= 10 && 1 <= numberOfCharactersToReplace <= 10
              && |encodedCharacterStrings| <= 10
              && forall i :: 0 <= i < |encodedCharacterStrings| - 1 ==>
                   encodedCharacterStrings[i].Some? && Utf16Length(encodedCharacterStrings[i].value) <= 10
  {
  }

  method ValidateEncodedCharactersParameters(encodedCharacters: Int32, numberOfCharactersToReplace: Int32,
                                             encodedCharacterStrings: seq<Option<string>>) returns (r: Result<bool>)
    ensures r == Validation(encodedCharacters, numberOfCharactersToReplace, encodedCharacterStrings)
    ensures r.Ok? ==> r.value
  {
    if !(1 <= encodedCharacters <= 10) {
      return Err(InvalidArgument("encodedCharacters"));
    }
    if !(1 <= numberOfCharactersToReplace <= 10) {
      return Err(InvalidArgument("numberOfCharactersToReplace"));
    }
    if |encodedCharacterStrings| > 10 {
      return Err(InvalidArgument("encodedCharacterStrings"));
    }
    var limit := AllButLast(|encodedCharacterStrings|);
    var i := 0;
    while i < limit
      invariant 0 <= i <= limit
      invariant FirstBadString(encodedCharacterStrings, i).None?
    {
      var fault := LengthFault(encodedCharacterStrings[i]);
      if fault.Some? {
        FirstBadStringStops(encodedCharacterStrings, i, limit);
        return Err(fault.value);
      }
      i := i + 1;
    }
    return Ok(true);
  }

  /** The flat constructor's outcome: validation first, then the type must be one of the nine flat ones. */
  function FlatParameters(encodedType: EncodedType, encodedCharacters: Int32, characterCode: CharacterCode,
                          numberOfCharactersToReplace: Int32, encodedCharacterStrings: seq<Option<string>>)
    : Result<EncodedCharactersParameters>
  {
    var _ :- Validation(encodedCharacters, numberOfCharactersToReplace, encodedCharacterStrings);
    if IsFlat(encodedType) then
      Ok(Flat(encodedType, encodedCharacters, characterCode, numberOfCharactersToReplace, encodedCharacterStrings))
    else Err(InvalidArgument("encodedType"))
  }

  /**
   * The flat overload of CreateEncodedCharactersParameters: it builds the record
   * of the given type, unchanged, exactly when validation passes and the type is
   * neither the shift code nor the catch-all.
   */
  method CreateFlatEncodedCharactersParameters(
    encodedType: EncodedType, encodedCharacters: Int32, characterCode: CharacterCode,
    numberOfCharactersToReplace: Int32, encodedCharacterStrings: seq<Option<string>>)
    returns (r: Result<EncodedCharactersParameters>)
    ensures r == FlatParameters(encodedType, encodedCharacters, characterCode, numberOfCharactersToReplace,
                                encodedCharacterStrings)
    ensures r.Ok? <==>
              Validation(encodedCharacters, numberOfCharactersToReplace, encodedCharacterStrings).Ok?
              && IsFlat(encodedType)
    ensures r.Ok? ==> r.value == Flat(encodedType, encodedCharacters, characterCode, numberOfCharactersToReplace,
                                      encodedCharacterStrings)
  {
    var isValid :- ValidateEncodedCharactersParameters(encodedCharacters, numberOfCharactersToReplace,
                                                       encodedCharacterStrings);
    if IsFlat(encodedType) {
      r := Ok(Flat(encodedType, encodedCharacters, characterCode, numberOfCharactersToReplace,
                   encodedCharacterStrings));
    } else {
      r := Err(InvalidArgument("encodedType"));
    }
  }

  /** The strings of a list of divisions, in order. */
  function DivisionStrings(division: seq<Division>): (r: seq<Option<string>>)
    ensures |r| == |division|
    ensures forall i :: 0 <= i < |division| ==> r[i] == division[i].encodedCharacterString
  {
    seq(|division|, i requires 0 <= i < |division| => division[i].encodedCharacterString)
  }

  /** The array the shift-code constructor returns: every division but the last copied, the last left at (0, null). */
  function CopiedDivisions(division: seq<Division>): (r: seq<Division>)
    ensures |r| == |division|
    ensures forall i :: 0 <= i < |division| - 1 ==> r[i] == division[i]
    ensures |division| > 0 ==> r[|division| - 1] == DefaultDivision
  {
    if |division| == 0 then [] else division[..|division| - 1] + [DefaultDivision]
  }

  /** The shift-code overload's outcome. */
  function ShiftCodeParameters(encodedCharacters: Int32, characterCode: CharacterCode,
                               numberOfCharactersToReplace: Int32, division: seq<Division>)
    : Result<EncodedCharactersParameters>
  {
    if !(1 <= encodedCharacters <= 10) then Err(InvalidArgument("encodedCharacters"))
    else if !(1 <= numberOfCharactersToReplace <= 10) then Err(InvalidArgument("numberOfCharactersToReplace"))
    else if |division| > 25 then Err(InvalidArgument("division"))
    else
      match FirstBadString(DivisionStrings(division), AllButLast(|division|))
      case Some(f) => Err(f)
      case None =>
        Ok(ShiftCoded(encodedCharacters, characterCode, numberOfCharactersToReplace, CopiedDivisions(division)))
  }

  /**
   * The shift-code overload of CreateEncodedCharactersParameters. It accepts
   * the ranges and up to 25 divisions whose strings, all but the last, are set
   * and at most ten UTF-16 code units; it copies those divisions into a fresh array
   * and never copies the last one.
   */
  method CreateShiftCodeEncodedCharactersParameters(
    encodedCharacters: Int32, characterCode: CharacterCode, numberOfCharactersToReplace: Int32,
    division: seq<Division>) returns (r: Result<EncodedCharactersParameters>)
    ensures r == ShiftCodeParameters(encodedCharacters, characterCode, numberOfCharactersToReplace, division)
    ensures r.Ok? <==>
              && 1 <= encodedCharacters <= 10 && 1 <= numberOfCharactersToReplace <= 10 && |division| <= 25
              && forall i :: 0 <= i < |division| - 1 ==>
                   division[i].encodedCharacterString.Some? && Utf16Length(division[i].encodedCharacterString.value) <= 10
  {
    var copied := new Division[|division|](_ => DefaultDivision);
    if !(1 <= encodedCharacters <= 10) {
      return Err(InvalidArgument("encodedCharacters"));
    }
    if !(1 <= numberOfCharactersToReplace <= 10) {
      return Err(InvalidArgument("numberOfCharactersToReplace"));
    }
    if |division| > 25 {
      return Err(InvalidArgument("division"));
    }
    var strings := DivisionStrings(division);
    var limit := AllButLast(|division|);
    var i := 0;
    while i < limit
      invariant 0 <= i <= limit
      invariant FirstBadString(strings, i).None?
      invariant forall j :: 0 <= j < i ==> copied[j] == division[j]
      invariant forall j :: i <= j < copied.Length ==> copied[j] == DefaultDivision
    {
      var fault := LengthFault(division[i].encodedCharacterString);
      if fault.Some? {
        FirstBadStringStops(strings, i, limit);
        return Err(fault.value);
      }
      copied[i] := division[i];
      i := i + 1;
    }
    assert copied[..] == CopiedDivisions(division);
    return Ok(ShiftCoded(encodedCharacters, characterCode, numberOfCharactersToReplace, copied[..]));
  }

  /** The slots the flat decoder allocates and fills: split[i + 4] for each but the last, which stays null. */
  function FlatSlots(split: seq<string>): (r: seq<Option<string>>)
    requires |split| >= 4
    ensures |r| == |split| - 4
    ensures forall i :: 0 <= i < |r| - 1 ==> r[i] == Some(split[i + 4])
    ensures |r| > 0 ==> r[|r| - 1] == None
  {
    seq(|split| - 4, i requires 0 <= i < |split| - 4 => if i < |split| - 5 then Some(split[i + 4]) else None)
  }

  /**
   * The slots the shift-code decoder fills from the fields after the header,
   * or None when a start time fails to parse. Its index advances by two per
   * pass but names one slot, so each pass fills slot i from fields i and i + 1
   * and leaves slot i + 1 at (0, null); the last slot is never filled.
   */
  function ShiftSlots(fields: seq<string>): (r: Option<seq<Division>>)
    ensures r.Some? ==> |r.value| == |fields|
    ensures |fields| > 1 && ParseInt(fields[0]).None? ==> r.None?
  {
    if |fields| <= 1 then Some(seq(|fields|, _ => DefaultDivision))
    else
      match ParseInt(fields[0])
      case None => None
      case Some(startTime) =>
        match ShiftSlots(fields[2..])
        case None => None
        case Some(rest) => Some([Division(startTime, Some(fields[1])), DefaultDivision] + rest)
  }

  /** A pair of fields after the first pair is a pair of the fields after the first two. */
  lemma ShiftedPairs(fields: seq<string>)
    requires |fields| > 1 && ParseInt(fields[0]).Some?
    ensures (exists k :: 0 <= k && 2 * k + 1 < |fields| && ParseInt(fields[2 * k]).None?)
            <==> (exists k :: 0 <= k && 2 * k + 1 < |fields[2..]| && ParseInt(fields[2..][2 * k]).None?)
  {
    if k :| 0 <= k && 2 * k + 1 < |fields| && ParseInt(fields[2 * k]).None? {
      assert k > 0;
      assert fields[2..][2 * (k - 1)] == fields[2 * k];
    }
    if k :| 0 <= k && 2 * k + 1 < |fields[2..]| && ParseInt(fields[2..][2 * k]).None? {
      assert fields[2 * (k + 1)] == fields[2..][2 * k];
    }
  }

  /** The decoder fails exactly when the start time of some full pair fails to parse. */
  lemma {:induction false} ShiftSlotsFailsExactly(fields: seq<string>)
    ensures ShiftSlots(fields).None? <==> exists k :: 0 <= k && 2 * k + 1 < |fields| && ParseInt(fields[2 * k]).None?
    decreases |fields|
  {
    if |fields| > 1 {
      if ParseInt(fields[0]).None? {
        assert ParseInt(fields[2 * 0]).None?;
      } else {
        ShiftSlotsFailsExactly(fields[2..]);
        ShiftedPairs(fields);
      }
    }
  }

  /** A prefix in front of slots that may have failed to parse. */
  function Prepend(prefix: seq<Division>, slots: Option<seq<Division>>): Option<seq<Division>>
  {
    match slots
    case None => None
    case Some(rest) => Some(prefix + rest)
  }

  lemma PrependAssociative(a: seq<Division>, b: seq<Division>, slots: Option<seq<Division>>)
    ensures Prepend(a, Prepend(b, slots)) == Prepend(a + b, slots)
    ensures Prepend([], slots) == slots
  {
    if slots.Some? {
      assert a + (b + slots.value) == (a + b) + slots.value;
      assert [] + slots.value == slots.value;
    }
  }

  /** What CreateEncodedParametersFromResponseString returns or throws. */
  function DecodedEncodedCharacters(rawResponseString: string, encodedType: EncodedType)
    : Result<EncodedCharactersParameters>
  {
    var split := Split(rawResponseString);
    if |split| < 4 then Err(NegativeLength)
    else if encodedType == ShiftCode then
      var division :- OrBadFormat(ShiftSlots(split[4..]));
      var encodedCharacters :- IntField(split, 1);
      var characterCode :- EnumField(split, 2);
      var numberOfCharactersToReplace :- IntField(split, 3);
      ShiftCodeParameters(encodedCharacters, characterCode, numberOfCharactersToReplace, division)
    else
      var encodedCharacters :- IntField(split, 1);
      var characterCode :- EnumField(split, 2);
      var numberOfCharactersToReplace :- IntField(split, 3);
      FlatParameters(encodedType, encodedCharacters, characterCode, numberOfCharactersToReplace, FlatSlots(split))
  }

  /** The shift-code decoder's loop: None where a start time fails to parse. */
  method FillShiftSlots(split: seq<string>) returns (r: Option<seq<Division>>)
    requires |split| >= 4
    ensures r == ShiftSlots(split[4..])
  {
    var n := |split| - 4;
    var division := new Division[n](_ => DefaultDivision);
    var i := 0;
    PrependAssociative([], [], ShiftSlots(split[4..]));
    while i < n - 1
      invariant 0 <= i <= n
      invariant ShiftSlots(split[4..]) == Prepend(division[..i], ShiftSlots(split[4 + i..]))
      invariant forall j :: i <= j < n ==> division[j] == DefaultDivision
    {
      var fields := split[4 + i..];
      assert fields[2..] == split[4 + i + 2..];
      var startTime := ParseInt(split[i + 4]);
      if startTime.None? {
        return None;
      }
      var pair := [Division(startTime.value, Some(split[i + 5])), DefaultDivision];
      assert ShiftSlots(fields) == Prepend(pair, ShiftSlots(split[4 + i + 2..]));
      var prefix := division[..i];
      PrependAssociative(prefix, pair, ShiftSlots(split[4 + i + 2..]));
      division[i] := Division(startTime.value, Some(split[i + 5]));
      assert division[..i + 2] == prefix + pair;
      i := i + 1;
      i := i + 1;
    }
    assert division[..] == division[..i] + seq(n - i, _ => DefaultDivision);
    return Some(division[..]);
  }

  /** The flat decoder's loop. */
  method FillFlatSlots(split: seq<string>) returns (slots: seq<Option<string>>)
    requires |split| >= 4
    ensures slots == FlatSlots(split)
  {
    var n := |split| - 4;
    var encodedCharacterStrings := new Option<string>[n](_ => None);
    var i := 0;
    while i < n - 1
      invariant 0 <= i <= AllButLast(n)
      invariant forall j :: 0 <= j < n ==> encodedCharacterStrings[j] == if j < i then Some(split[j + 4]) else None
    {
      encodedCharacterStrings[i] := Some(split[i + 4]);
      i := i + 1;
    }
    assert encodedCharacterStrings[..] == FlatSlots(split);
    return encodedCharacterStrings[..];
  }

  /**
   * Decodes the printer's reply: split on ',', allocate split.Length - 4 slots
   * (failing when that is negative), fill them in a loop, read the header from
   * split[1..3] and hand everything to the constructor for the type.
   */
  method CreateEncodedParametersFromResponseString(rawResponseString: string, encodedType: EncodedType)
    returns (r: Result<EncodedCharactersParameters>)
    ensures r == DecodedEncodedCharacters(rawResponseString, encodedType)
  {
    var split := Split(rawResponseString);
    if |split| < 4 {
      return Err(NegativeLength);
    }
    if encodedType == ShiftCode {
      var slots := FillShiftSlots(split);
      var division :- OrBadFormat(slots);
      var encodedCharacters :- IntField(split, 1);
      var characterCode :- EnumField(split, 2);
      var numberOfCharactersToReplace :- IntField(split, 3);
      r := CreateShiftCodeEncodedCharactersParameters(encodedCharacters, characterCode, numberOfCharactersToReplace,
                                                      division);
    } else {
      var encodedCharacterStrings := FillFlatSlots(split);
      var encodedCharacters :- IntField(split, 1);
      var characterCode :- EnumField(split, 2);
      var numberOfCharactersToReplace :- IntField(split, 3);
      r := CreateFlatEncodedCharactersParameters(encodedType, encodedCharacters, characterCode,
                                                 numberOfCharactersToReplace, encodedCharacterStrings);
    }
  }
}
