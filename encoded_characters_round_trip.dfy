/**
 * What the encoded-characters decoder makes of what the encoders write. For
 * flat records it loses the last string; for shift-code records it doubles the
 * slots and then trips over its own empty ones. Beside each of these sits the
 * decoder, validator or constructor as evidently intended, with its round trip.
 */
module EncodedCharactersRoundTrip {
  import opened Wrappers
  import opened Wire
  import opened Enums
  import opened EncodedCharacters

  /** Strings the encoder can write and Split can recover: all set, none holding a comma. */
  predicate Writable(strings: seq<Option<string>>)
  {
    forall i :: 0 <= i < |strings| ==> strings[i].Some? && CommaFree(strings[i].value)
  }

  /** The flat list the decoder gives back: the last string replaced by an unset slot. */
  function LastUnset(strings: seq<Option<string>>): (r: seq<Option<string>>)
    ensures |r| == |strings|
    ensures forall i :: 0 <= i < |strings| - 1 ==> r[i] == strings[i]
    ensures |strings| > 0 ==> r[|strings| - 1] == None
  {
    if |strings| == 0 then [] else strings[..|strings| - 1] + [None]
  }

  /** Every division followed by an unset one: the slots the shift-code decoder fills. */
  function WithGaps(division: seq<Division>): (r: seq<Division>)
    ensures |r| == 2 * |division|
  {
    if |division| == 0 then [] else [division[0], DefaultDivision] + WithGaps(division[1..])
  }

  lemma SplitEncoded(id: string, p: EncodedCharactersParameters)
    requires CommaFree(id)
    requires p.Flat? ==> Writable(p.encodedCharacterStrings)
    requires p.ShiftCoded? ==> Writable(DivisionStrings(p.division))
    ensures Split(id + p.ParameterString()) == [id] + p.Header() + p.Body()
  {
    var body := p.Body();
    forall i | 0 <= i < |body| ensures CommaFree(body[i]) {
      if p.ShiftCoded? {
        DivisionFieldsAt(p.division, i / 2);
        assert i == 2 * (i / 2) || i == 2 * (i / 2) + 1;
      }
    }
    assert AllCommaFree(p.Header() + body);
    SplitPrefixed(id, p.Header() + body);
    assert [id] + (p.Header() + body) == [id] + p.Header() + body;
  }

  lemma HeaderReadBack(split: seq<string>, p: EncodedCharactersParameters)
    requires |split| >= 4
    requires split[1] == IntToString(p.encodedCharacters) && split[2] == IntToString(p.characterCode)
    requires split[3] == IntToString(p.numberOfCharactersToReplace)
    ensures IntField(split, 1) == Ok(p.encodedCharacters)
    ensures EnumField(split, 2) == Ok(p.characterCode)
    ensures IntField(split, 3) == Ok(p.numberOfCharactersToReplace)
  {
    IntFieldOfIntToString(split, 1, p.encodedCharacters);
    EnumFieldOfIntToString(split, 2, p.characterCode);
    IntFieldOfIntToString(split, 3, p.numberOfCharactersToReplace);
  }

  /** The split form of an encoded record: the header at 1..3 and the body from index 4 on. */
  lemma EncodedFields(id: string, p: EncodedCharactersParameters)
    requires CommaFree(id)
    requires p.Flat? ==> Writable(p.encodedCharacterStrings)
    requires p.ShiftCoded? ==> Writable(DivisionStrings(p.division))
    ensures var split := Split(id + p.ParameterString());
            && |split| == 4 + |p.Body()| && split[4..] == p.Body()
            && IntField(split, 1) == Ok(p.encodedCharacters)
            && EnumField(split, 2) == Ok(p.characterCode)
            && IntField(split, 3) == Ok(p.numberOfCharactersToReplace)
  {
    SplitEncoded(id, p);
    var split := [id] + p.Header() + p.Body();
    assert split[4..] == p.Body();
    HeaderReadBack(split, p);
  }

  /**
   * As written, decoding an encoded flat record gives it back with its last
   * string unset, so no record with at least one string survives the trip.
   */
  lemma FlatDecodeOfEncode(id: string, p: EncodedCharactersParameters)
    requires CommaFree(id) && p.Flat? && IsFlat(p.encodedType) && Writable(p.encodedCharacterStrings)
    requires Validation(p.encodedCharacters, p.numberOfCharactersToReplace, p.encodedCharacterStrings).Ok?
    ensures DecodedEncodedCharacters(id + p.ParameterString(), p.encodedType)
              == Ok(p.(encodedCharacterStrings := LastUnset(p.encodedCharacterStrings)))
    ensures |p.encodedCharacterStrings| > 0 ==> DecodedEncodedCharacters(id + p.ParameterString(), p.encodedType) != Ok(p)
  {
    var strings := p.encodedCharacterStrings;
    EncodedFields(id, p);
    var split := Split(id + p.ParameterString());
    assert FlatSlots(split) == LastUnset(strings) by {
      forall i | 0 <= i < |strings| - 1 ensures FlatSlots(split)[i] == strings[i] {
        assert split[i + 4] == p.Body()[i];
      }
    }
    ValidationAccepts(p.encodedCharacters, p.numberOfCharactersToReplace, strings);
    ValidationAccepts(p.encodedCharacters, p.numberOfCharactersToReplace, LastUnset(strings));
    if |strings| > 0 {
      assert LastUnset(strings)[|strings| - 1] != strings[|strings| - 1];
    }
  }

  /** The validator as evidently intended: every string, the last included, is checked. */
  function CorrectedValidation(encodedCharacters: Int32, numberOfCharactersToReplace: Int32,
                               encodedCharacterStrings: seq<Option<string>>): Result<bool>
  {
    if !(1 <= encodedCharacters <= 10) then Err(InvalidArgument("encodedCharacters"))
    else if !(1 <= numberOfCharactersToReplace <= 10) then Err(InvalidArgument("numberOfCharactersToReplace"))
    else if |encodedCharacterStrings| > 10 then Err(InvalidArgument("encodedCharacterStrings"))
    else
      match FirstBadString(encodedCharacterStrings, |encodedCharacterStrings|)
      case Some(f) => Err(f)
      case None => Ok(true)
  }

  /** As written, a single string of eleven characters passes the ten-character check. */
  lemma LastStringEscapesCheck()
    ensures Validation(1, 1, [Some("ABCDEFGHIJK")]) == Ok(true)
    ensures CorrectedValidation(1, 1, [Some("ABCDEFGHIJK")]).Err?
  {
  }

  /**
   * The corrected validator accepts the ranges and up to ten strings, every
   * one set and at most ten UTF-16 code units.
   */
  lemma CorrectedValidationAccepts(encodedCharacters: Int32, numberOfCharactersToReplace: Int32,
                                   encodedCharacterStrings: seq<Option<string>>)
    ensures CorrectedValidation(encodedCharacters, numberOfCharactersToReplace, encodedCharacterStrings).Ok? <==>
              && 1 <= encodedCharacters <= 10 && 1 <= numberOfCharactersToReplace <= 10
              && |encodedCharacterStrings| <= 10
              && forall i :: 0 <= i < |encodedCharacterStrings| ==>
                   encodedCharacterStrings[i].Some? && Utf16Length(encodedCharacterStrings[i].value) <= 10
  {
  }

  /** The corrected flat decoder fills every slot. */
  function CorrectedFlatSlots(split: seq<string>): (r: seq<Option<string>>)
    requires |split| >= 4
    ensures |r| == |split| - 4
    ensures forall i :: 0 <= i < |r| ==> r[i] == Some(split[i + 4])
  {
    seq(|split| - 4, i requires 0 <= i < |split| - 4 => Some(split[i + 4]))
  }

  /** The corrected shift-code decoder reads one division per pair of fields. */
  function CorrectedShiftSlots(fields: seq<string>): (r: Option<seq<Division>>)
    ensures r.Some? ==> |r.value| == |fields| / 2
  {
    if |fields| < 2 then Some([])
    else
      match ParseInt(fields[0])
      case None => None
      case Some(startTime) =>
        match CorrectedShiftSlots(fields[2..])
        case None => None
        case Some(rest) => Some([Division(startTime, Some(fields[1]))] + rest)
  }

  /** The corrected shift-code constructor checks and copies every division. */
  function CorrectedShiftCodeParameters(encodedCharacters: Int32, characterCode: CharacterCode,
                                        numberOfCharactersToReplace: Int32, division: seq<Division>)
    : Result<EncodedCharactersParameters>
  {
    if !(1 <= encodedCharacters <= 10) then Err(InvalidArgument("encodedCharacters"))
    else if !(1 <= numberOfCharactersToReplace <= 10) then Err(InvalidArgument("numberOfCharactersToReplace"))
    else if |division| > 25 then Err(InvalidArgument("division"))
    else
      match FirstBadString(DivisionStrings(division), |division|)
      case Some(f) => Err(f)
      case None => Ok(ShiftCoded(encodedCharacters, characterCode, numberOfCharactersToReplace, division))
  }

  /** The corrected shift-code constructor keeps every division it accepts. */
  lemma CorrectedShiftCodeAccepts(encodedCharacters: Int32, characterCode: CharacterCode,
                                  numberOfCharactersToReplace: Int32, division: seq<Division>)
    ensures var r := CorrectedShiftCodeParameters(encodedCharacters, characterCode, numberOfCharactersToReplace,
                                                  division);
            && (r.Ok? <==> && 1 <= encodedCharacters <= 10 && 1 <= numberOfCharactersToReplace <= 10
                           && |division| <= 25
                           && forall i :: 0 <= i < |division| ==>
                                division[i].encodedCharacterString.Some?
                                && Utf16Length(division[i].encodedCharacterString.value) <= 10)
            && (r.Ok? ==> r.value == ShiftCoded(encodedCharacters, characterCode, numberOfCharactersToReplace, division))
  {
  }

  /** As written, the shift-code constructor drops the last division and leaves (0, null) in its slot. */
  lemma ShiftConstructorDropsLast(division: Division)
    requires division.encodedCharacterString.Some? && Utf16Length(division.encodedCharacterString.value) <= 10
    ensures ShiftCodeParameters(1, Ascii, 1, [division]) == Ok(ShiftCoded(1, Ascii, 1, [DefaultDivision]))
    ensures CorrectedShiftCodeParameters(1, Ascii, 1, [division]) == Ok(ShiftCoded(1, Ascii, 1, [division]))
  {
    assert FirstBadString(DivisionStrings([division]), AllButLast(1)).None?;
    assert CopiedDivisions([division]) == [DefaultDivision];
    assert FirstBadString(DivisionStrings([division]), 1).None?;
  }

  /** The decoder as evidently intended: every slot filled, every string checked, every division kept. */
  function CorrectedDecodedEncodedCharacters(rawResponseString: string, encodedType: EncodedType)
    : Result<EncodedCharactersParameters>
  {
    var split := Split(rawResponseString);
    if |split| < 4 then Err(NegativeLength)
    else if encodedType == ShiftCode then
      var division :- OrBadFormat(CorrectedShiftSlots(split[4..]));
      var encodedCharacters :- IntField(split, 1);
      var characterCode :- EnumField(split, 2);
      var numberOfCharactersToReplace :- IntField(split, 3);
      CorrectedShiftCodeParameters(encodedCharacters, characterCode, numberOfCharactersToReplace, division)
    else
      var encodedCharacters :- IntField(split, 1);
      var characterCode :- EnumField(split, 2);
      var numberOfCharactersToReplace :- IntField(split, 3);
      var _ :- CorrectedValidation(encodedCharacters, numberOfCharactersToReplace, CorrectedFlatSlots(split));
      if IsFlat(encodedType) then
        Ok(Flat(encodedType, encodedCharacters, characterCode, numberOfCharactersToReplace, CorrectedFlatSlots(split)))
      else Err(InvalidArgument("encodedType"))
  }

  /** The corrected decoder gives back every flat record the corrected validator accepts. */
  lemma CorrectedFlatRoundTrip(id: string, p: EncodedCharactersParameters)
    requires CommaFree(id) && p.Flat? && IsFlat(p.encodedType) && Writable(p.encodedCharacterStrings)
    requires CorrectedValidation(p.encodedCharacters, p.numberOfCharactersToReplace, p.encodedCharacterStrings).Ok?
    ensures CorrectedDecodedEncodedCharacters(id + p.ParameterString(), p.encodedType) == Ok(p)
  {
    var strings := p.encodedCharacterStrings;
    EncodedFields(id, p);
    var split := Split(id + p.ParameterString());
    assert CorrectedFlatSlots(split) == strings by {
      forall i | 0 <= i < |strings| ensures CorrectedFlatSlots(split)[i] == strings[i] {
        assert split[i + 4] == p.Body()[i];
      }
    }
  }

  /** As written, the shift-code decoder reads each division into a slot and leaves an empty slot after it. */
  lemma {:induction false} ShiftSlotsOfDivisionFields(division: seq<Division>)
    requires forall i :: 0 <= i < |division| ==> division[i].encodedCharacterString.Some?
    ensures ShiftSlots(DivisionFields(division)) == Some(WithGaps(division))
    decreases |division|
  {
    if |division| > 0 {
      var fields := DivisionFields(division);
      assert fields[2..] == DivisionFields(division[1..]);
      ParseIntOfIntToString(division[0].startTime);
      ShiftSlotsOfDivisionFields(division[1..]);
    }
  }

  /** The corrected shift-code decoder reads back exactly the divisions written. */
  lemma {:induction false} CorrectedShiftSlotsOfDivisionFields(division: seq<Division>)
    requires forall i :: 0 <= i < |division| ==> division[i].encodedCharacterString.Some?
    ensures CorrectedShiftSlots(DivisionFields(division)) == Some(division)
    decreases |division|
  {
    if |division| > 0 {
      var fields := DivisionFields(division);
      var first := division[0];
      assert fields[2..] == DivisionFields(division[1..]);
      assert ParseInt(fields[0]) == Some(first.startTime) by {
        assert fields[0] == IntToString(first.startTime);
        ParseIntOfIntToString(first.startTime);
      }
      assert Division(first.startTime, Some(fields[1])) == first;
      CorrectedShiftSlotsOfDivisionFields(division[1..]);
      assert [first] + division[1..] == division;
    }
  }

  /** As written, decoding an encoded shift-code record hands the constructor the divisions with gaps. */
  lemma ShiftDecodeOfEncode(id: string, p: EncodedCharactersParameters)
    requires CommaFree(id) && p.ShiftCoded? && Writable(DivisionStrings(p.division))
    ensures DecodedEncodedCharacters(id + p.ParameterString(), ShiftCode)
              == ShiftCodeParameters(p.encodedCharacters, p.characterCode, p.numberOfCharactersToReplace,
                                     WithGaps(p.division))
  {
    EncodedFields(id, p);
    ShiftSlotsOfDivisionFields(p.division);
  }

  /**
   * As written, a shift-code record survives the trip only with no divisions.
   * One division comes back followed by an extra (0, null) one; two to twelve
   * make the constructor read the null string of the first gap.
   */
  lemma ShiftRoundTripAsWritten(id: string, p: EncodedCharactersParameters)
    requires CommaFree(id) && p.ShiftCoded? && Writable(DivisionStrings(p.division))
    requires 1 <= p.encodedCharacters <= 10 && 1 <= p.numberOfCharactersToReplace <= 10
    requires forall i :: 0 <= i < |p.division| ==> Utf16Length(p.division[i].encodedCharacterString.value) <= 10
    ensures |p.division| == 0 ==> DecodedEncodedCharacters(id + p.ParameterString(), ShiftCode) == Ok(p)
    ensures |p.division| == 1 ==>
              DecodedEncodedCharacters(id + p.ParameterString(), ShiftCode) == Ok(p.(division := p.division + [DefaultDivision]))
    ensures 2 <= |p.division| <= 12 ==> DecodedEncodedCharacters(id + p.ParameterString(), ShiftCode) == Err(NullString)
  {
    ShiftDecodeOfEncode(id, p);
    var gaps := WithGaps(p.division);
    var e := ShiftCodeParameters(p.encodedCharacters, p.characterCode, p.numberOfCharactersToReplace, gaps);
    if |p.division| == 0 {
      assert e == Ok(p) by {
        assert gaps == [];
      }
    } else if |p.division| == 1 {
      assert e == Ok(p.(division := p.division + [DefaultDivision])) by {
        assert gaps == p.division + [DefaultDivision];
        assert CopiedDivisions(gaps) == gaps;
      }
    } else if |p.division| <= 12 {
      assert e == Err(NullString) by {
        var strings := DivisionStrings(gaps);
        assert gaps[..2] == [p.division[0], DefaultDivision];
        assert FirstBadString(strings, 1).None?;
        FirstBadStringStops(strings, 1, |gaps| - 1);
      }
    }
  }

  /** The corrected decoder gives back every shift-code record the corrected constructor accepts. */
  lemma CorrectedShiftRoundTrip(id: string, p: EncodedCharactersParameters)
    requires CommaFree(id) && p.ShiftCoded? && Writable(DivisionStrings(p.division))
    requires CorrectedShiftCodeParameters(p.encodedCharacters, p.characterCode, p.numberOfCharactersToReplace,
                                          p.division).Ok?
    ensures CorrectedDecodedEncodedCharacters(id + p.ParameterString(), ShiftCode) == Ok(p)
  {
    EncodedFields(id, p);
    CorrectedShiftSlotsOfDivisionFields(p.division);
  }
}
