/**
 * C# enums as the library uses them. An enum value is its underlying 32-bit
 * integer: a cast can put any int into it, `(int)e` writes that integer, and
 * Enum.Parse of a decimal string returns whatever number it reads, named or
 * not. Enums the library only passes through are therefore Int32 here.
 * The enums that the library maps to special wire tokens are datatypes in the
 * modules that own them.
 */
module Enums {
  import opened Wrappers
  import opened Wire

  /** The printer's character encodings (CharacterCode.cs). */
  type CharacterCode = Int32

  const Ascii: CharacterCode := 0
  const Shiftjis: CharacterCode := 1
  const Latin9: CharacterCode := 2
  const Gb2312: CharacterCode := 3
  const Utf8: CharacterCode := 5
  const RequestAtTimeOfSetting: CharacterCode := 9

  /** A member name of an enum and the value it stands for. */
  datatype Member = Member(name: string, value: Int32)

  predicate StartsNumeric(t: string) { |t| > 0 && (IsDigit(t[0]) || t[0] == '-' || t[0] == '+') }

  /** The first member carrying the given name. */
  function ByName(name: string, members: seq<Member>): (r: Option<Int32>)
    ensures r.Some? <==> exists i :: 0 <= i < |members| && members[i].name == name
    ensures r.Some? ==> exists i :: 0 <= i < |members| && members[i].name == name && members[i].value == r.value
  {
    if |members| == 0 then None
    else if members[0].name == name then Some(members[0].value)
    else ByName(name, members[1..])
  }

  /** The first member carrying the given value. */
  function ByValue(v: Int32, members: seq<Member>): (r: Option<string>)
    ensures r.Some? <==> exists i :: 0 <= i < |members| && members[i].value == v
    ensures r.Some? ==> exists i :: 0 <= i < |members| && members[i].value == v && members[i].name == r.value
  {
    if |members| == 0 then None
    else if members[0].value == v then Some(members[0].name)
    else ByValue(v, members[1..])
  }

  /**
   * Enum.Parse: after trimming white space, a string starting with a digit or a
   * sign is read as a 32-bit number; anything else must be a member name.
   */
  function ParseEnum(s: string, members: seq<Member>): Option<Int32>
  {
    var t := Trim(s);
    if StartsNumeric(t) then ParseInt(s) else ByName(t, members)
  }

  /** Interpolating an enum: its member name, or its number when no member has that value. */
  function EnumToString(v: Int32, members: seq<Member>): string
  {
    match ByValue(v, members)
    case Some(name) => name
    case None => IntToString(v)
  }

  /** Member names that Enum.Parse can read back: plain identifiers, each used once. */
  predicate WellNamed(members: seq<Member>)
  {
    && (forall i :: 0 <= i < |members| ==>
          |members[i].name| > 0 && !StartsNumeric(members[i].name) && !IsWhite(members[i].name[0])
          && !IsWhite(members[i].name[|members[i].name| - 1]) && CommaFree(members[i].name))
    && (forall i, j :: 0 <= i < j < |members| ==> members[i].name != members[j].name)
  }

  /** Enum.Parse reads back every number written with `(int)e`. */
  lemma ParseEnumOfIntToString(v: Int32, members: seq<Member>)
    ensures ParseEnum(IntToString(v), members) == Some(v)
  {
    TrimOfIntToString(v);
    ParseIntOfIntToString(v);
  }

  lemma {:induction false} ByNameDistinct(members: seq<Member>, i: nat)
    requires i < |members|
    requires forall a, b :: 0 <= a < b < |members| ==> members[a].name != members[b].name
    ensures ByName(members[i].name, members) == Some(members[i].value)
  {
    if i > 0 {
      assert members[0].name != members[i].name;
      ByNameDistinct(members[1..], i - 1);
    }
  }

  /** Enum.Parse reads back every value written by interpolation, named or not. */
  lemma EnumToStringRoundTrip(v: Int32, members: seq<Member>)
    requires WellNamed(members)
    ensures ParseEnum(EnumToString(v, members), members) == Some(v)
  {
    match ByValue(v, members)
    case None =>
      ParseEnumOfIntToString(v, members);
    case Some(name) =>
      var i :| 0 <= i < |members| && members[i].value == v && members[i].name == name;
      assert TrimStart(name) == name;
      assert Trim(name) == name;
      ByNameDistinct(members, i);
  }

  /** The interpolated form of an enum never contains a comma, so it survives a Split. */
  lemma EnumToStringCommaFree(v: Int32, members: seq<Member>)
    requires WellNamed(members)
    ensures CommaFree(EnumToString(v, members))
  {
    match ByValue(v, members)
    case None =>
    case Some(name) =>
      var i :| 0 <= i < |members| && members[i].value == v && members[i].name == name;
  }

  /** Enum.Parse(typeof(E), split[i]) for an enum written as its integer. */
  function EnumField(split: seq<string>, i: nat): (r: Result<Int32>)
    ensures r.Ok? <==> i < |split| && ParseEnum(split[i], []).Some?
    ensures r.Ok? ==> r.value == ParseEnum(split[i], []).value
  {
    var s :- Field(split, i);
    OrBadFormat(ParseEnum(s, []))
  }

  /** A field written as `(int)e` reads back through EnumField. */
  lemma EnumFieldOfIntToString(split: seq<string>, i: nat, v: Int32)
    requires i < |split| && split[i] == IntToString(v)
    ensures EnumField(split, i) == Ok(v)
  {
    ParseEnumOfIntToString(v, []);
  }

  /** Enum.Parse(typeof(E), split[i]) for an enum written by name, as interpolation writes it. */
  function NamedEnumField(split: seq<string>, i: nat, members: seq<Member>): (r: Result<Int32>)
    ensures r.Ok? <==> i < |split| && ParseEnum(split[i], members).Some?
    ensures r.Ok? ==> r.value == ParseEnum(split[i], members).value
  {
    var s :- Field(split, i);
    OrBadFormat(ParseEnum(s, members))
  }

  /** A field written by interpolation reads back through NamedEnumField. */
  lemma NamedEnumFieldOfEnumToString(split: seq<string>, i: nat, v: Int32, members: seq<Member>)
    requires WellNamed(members)
    requires i < |split| && split[i] == EnumToString(v, members)
    ensures NamedEnumField(split, i, members) == Ok(v)
  {
    EnumToStringRoundTrip(v, members);
  }
}
