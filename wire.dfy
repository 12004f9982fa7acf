/**
 * The textual wire format shared by every command: .NET's int/uint widths,
 * decimal rendering of integers, the int.Parse / uint.Parse grammar
 * (NumberStyles.Integer: surrounding white space, one optional sign, decimal
 * digits, under a culture whose signs are '-' and '+'), splitting a response
 * on ',' and writing comma-prefixed fields.
 */
module Wire {
  import opened Wrappers

  type Int32 = x: int | -0x8000_0000 <= x < 0x8000_0000
  type UInt32 = x: int | 0 <= x < 0x1_0000_0000
  type Byte = x: int | 0 <= x < 0x100

  predicate IsDigit(c: char) { '0' <= c <= '9' }

  /** The characters .NET number parsing skips before and after the number. */
  predicate IsWhite(c: char) { c == ' ' || '\t' <= c <= '\r' }

  predicate AllDigits(s: string) { forall i :: 0 <= i < |s| ==> IsDigit(s[i]) }

  predicate CommaFree(s: string) { ',' !in s }

  predicate AllCommaFree(fields: seq<string>) { forall i :: 0 <= i < |fields| ==> CommaFree(fields[i]) }

  /** A character outside the Basic Multilingual Plane, which UTF-16 stores as a surrogate pair. */
  predicate IsSupplementary(c: char) { c as int > 0xFFFF }

  /**
   * C#'s string.Length: the number of UTF-16 code units, so every
   * supplementary character counts twice. Every length cap of the library
   * is a cap on this number.
   */
  function Utf16Length(s: string): (n: nat)
    ensures |s| <= n <= 2 * |s|
  {
    if |s| == 0 then 0 else Utf16Length(s[..|s| - 1]) + (if IsSupplementary(s[|s| - 1]) then 2 else 1)
  }

  /** The UTF-16 length is the character count plus one for each supplementary character. */
  lemma {:induction false} Utf16LengthCounts(s: string)
    ensures Utf16Length(s) == |s| + |set i | 0 <= i < |s| && IsSupplementary(s[i])|
  {
    if |s| > 0 {
      var t := s[..|s| - 1];
      Utf16LengthCounts(t);
      var a := set i | 0 <= i < |t| && IsSupplementary(t[i]);
      var b := set i | 0 <= i < |s| && IsSupplementary(s[i]);
      if IsSupplementary(s[|s| - 1]) {
        assert b == a + {|s| - 1};
      } else {
        assert b == a;
      }
    }
  }

  /** Within the Basic Multilingual Plane, the UTF-16 length is the character count. */
  lemma {:induction false} Utf16LengthOfBmp(s: string)
    requires forall i :: 0 <= i < |s| ==> !IsSupplementary(s[i])
    ensures Utf16Length(s) == |s|
  {
    if |s| > 0 {
      Utf16LengthOfBmp(s[..|s| - 1]);
    }
  }

  /** A string made only of supplementary characters is twice as long in UTF-16. */
  lemma {:induction false} Utf16LengthOfSupplementary(s: string)
    requires forall i :: 0 <= i < |s| ==> IsSupplementary(s[i])
    ensures Utf16Length(s) == 2 * |s|
  {
    if |s| > 0 {
      Utf16LengthOfSupplementary(s[..|s| - 1]);
    }
  }

  function DigitChar(d: nat): (c: char)
    requires d < 10
    ensures IsDigit(c) && c as int - '0' as int == d
  {
    ('0' as int + d) as char
  }

  function DigitValue(c: char): nat
    requires IsDigit(c)
  {
    c as int - '0' as int
  }

  /** Decimal rendering without leading zeros. */
  function NatToString(n: nat): (s: string)
    ensures |s| >= 1 && AllDigits(s)
    decreases n
  {
    if n < 10 then [DigitChar(n)] else NatToString(n / 10) + [DigitChar(n % 10)]
  }

  /**
   * What `{n}` in an interpolated string and `n.ToString()` produce under a
   * culture whose negative sign is '-'.
   */
  function IntToString(n: int): (s: string)
    ensures |s| >= 1 && IsDigit(s[|s| - 1]) && (IsDigit(s[0]) || s[0] == '-')
    ensures forall i :: 0 <= i < |s| ==> IsDigit(s[i]) || s[i] == '-'
  {
    if n < 0 then "-" + NatToString(-n) else NatToString(n)
  }

  /** The value of a string of decimal digits, most significant first. */
  function DigitsValue(s: string): nat
    requires AllDigits(s)
    decreases |s|
  {
    if |s| == 0 then 0 else DigitsValue(s[..|s| - 1]) * 10 + DigitValue(s[|s| - 1])
  }

  function TrimStart(s: string): string
    decreases |s|
  {
    if |s| > 0 && IsWhite(s[0]) then TrimStart(s[1..]) else s
  }

  /** TrimStart drops exactly the leading white space. */
  lemma {:induction false} TrimStartSuffix(s: string)
    ensures var t := TrimStart(s);
            && |t| <= |s| && t == s[|s| - |t|..]
            && (|t| > 0 ==> !IsWhite(t[0]))
            && forall i :: 0 <= i < |s| - |t| ==> IsWhite(s[i])
    decreases |s|
  {
    if |s| > 0 && IsWhite(s[0]) {
      TrimStartSuffix(s[1..]);
    }
  }

  function TrimEnd(s: string): string
    decreases |s|
  {
    if |s| > 0 && IsWhite(s[|s| - 1]) then TrimEnd(s[..|s| - 1]) else s
  }

  /** TrimEnd drops exactly the trailing white space. */
  lemma {:induction false} TrimEndPrefix(s: string)
    ensures var t := TrimEnd(s);
            && |t| <= |s| && t == s[..|t|]
            && (|t| > 0 ==> !IsWhite(t[|t| - 1]))
            && forall i :: |t| <= i < |s| ==> IsWhite(s[i])
    decreases |s|
  {
    if |s| > 0 && IsWhite(s[|s| - 1]) {
      TrimEndPrefix(s[..|s| - 1]);
    }
  }

  function Trim(s: string): string
  {
    TrimEnd(TrimStart(s))
  }

  /** An optional sign followed by at least one decimal digit, and nothing else. */
  function ParseSigned(t: string): Option<int>
  {
    if |t| >= 1 && (t[0] == '-' || t[0] == '+') then
      var d := t[1..];
      if |d| >= 1 && AllDigits(d) then
        var v: int := DigitsValue(d);
        Some(if t[0] == '-' then -v else v)
      else None
    else if |t| >= 1 && AllDigits(t) then Some(DigitsValue(t))
    else None
  }

  /** The integer grammar of int.Parse and uint.Parse, before the range check. */
  function ParseInteger(s: string): Option<int>
  {
    ParseSigned(Trim(s))
  }

  /** int.Parse: a malformed string and a value outside the 32-bit range are both refused. */
  function ParseInt(s: string): Option<Int32>
  {
    match ParseInteger(s)
    case Some(n) => if -0x8000_0000 <= n < 0x8000_0000 then Some(n) else None
    case None => None
  }

  /** uint.Parse: same grammar, range 0 .. 2^32 - 1 (so "-0" is accepted). */
  function ParseUInt(s: string): Option<UInt32>
  {
    match ParseInteger(s)
    case Some(n) => if 0 <= n < 0x1_0000_0000 then Some(n) else None
    case None => None
  }

  lemma {:induction false} DigitsValueOfNatToString(n: nat)
    ensures DigitsValue(NatToString(n)) == n
    decreases n
  {
    if n >= 10 {
      var s := NatToString(n / 10);
      var t := s + [DigitChar(n % 10)];
      assert t[..|t| - 1] == s;
      DigitsValueOfNatToString(n / 10);
    }
  }

  lemma TrimOfIntToString(n: int)
    ensures Trim(IntToString(n)) == IntToString(n)
  {
    var s := IntToString(n);
    assert !IsWhite(s[0]);
    assert TrimStart(s) == s;
  }

  lemma ParseSignedOfIntToString(n: int)
    ensures ParseSigned(IntToString(n)) == Some(n)
  {
    var s := IntToString(n);
    if n < 0 {
      DigitsValueOfNatToString(-n);
      assert s[1..] == NatToString(-n);
    } else {
      DigitsValueOfNatToString(n);
    }
  }

  /** Parsing what IntToString wrote gives the number back, for every integer. */
  lemma ParseIntegerOfIntToString(n: int)
    ensures ParseInteger(IntToString(n)) == Some(n)
  {
    TrimOfIntToString(n);
    ParseSignedOfIntToString(n);
  }

  lemma ParseIntOfIntToString(n: Int32)
    ensures ParseInt(IntToString(n)) == Some(n)
  {
    ParseIntegerOfIntToString(n);
  }

  lemma ParseUIntOfIntToString(n: UInt32)
    ensures ParseUInt(IntToString(n)) == Some(n)
  {
    ParseIntegerOfIntToString(n);
  }

  lemma IntToStringCommaFree(n: int)
    ensures CommaFree(IntToString(n))
  {
    var s := IntToString(n);
    assert forall i :: 0 <= i < |s| ==> s[i] != ',';
  }

  /** Integers written one after another, as interpolation writes them. */
  function IntStrings(xs: seq<int>): (r: seq<string>)
    ensures |r| == |xs|
  {
    seq(|xs|, i requires 0 <= i < |xs| => IntToString(xs[i]))
  }

  lemma IntStringsAt(head: seq<string>, xs: seq<int>, k: nat)
    requires |head| <= k < |head| + |xs|
    ensures (head + IntStrings(xs))[k] == IntToString(xs[k - |head|])
  {
  }

  /** A reply made only of integers splits back into them. */
  lemma SplitIntStrings(id: string, xs: seq<int>)
    requires CommaFree(id)
    ensures Split(id + Prefixed(IntStrings(xs))) == [id] + IntStrings(xs)
    ensures forall k :: 1 <= k <= |xs| ==> ([id] + IntStrings(xs))[k] == IntToString(xs[k - 1])
  {
    var ys := IntStrings(xs);
    assert Split(id + Prefixed(ys)) == [id] + ys by {
      IntStringsCommaFree([], xs);
      assert [] + ys == ys;
      SplitPrefixed(id, ys);
    }
    assert forall k :: 1 <= k <= |xs| ==> ([id] + ys)[k] == IntToString(xs[k - 1]) by {
      forall k | 1 <= k <= |xs| ensures ([id] + ys)[k] == IntToString(xs[k - 1]) {
        IntStringsAt([id], xs, k);
      }
    }
  }

  /** The same, behind some comma-free fields that come first. */
  lemma SplitIntStringsAfter(id: string, extras: seq<string>, xs: seq<int>)
    requires CommaFree(id) && AllCommaFree(extras)
    ensures Split(id + Prefixed(extras) + Prefixed(IntStrings(xs))) == [id] + extras + IntStrings(xs)
  {
    var ys := IntStrings(xs);
    assert AllCommaFree(extras + ys) by {
      IntStringsCommaFree(extras, xs);
    }
    assert id + Prefixed(extras) + Prefixed(ys) == id + Prefixed(extras + ys) by {
      PrefixedAppend(extras, ys);
      AppendAssociative(id, Prefixed(extras), Prefixed(ys));
    }
    SplitPrefixed(id, extras + ys);
    AppendAssociative([id], extras, ys);
  }

  lemma AppendAssociative<T>(a: seq<T>, b: seq<T>, c: seq<T>)
    ensures a + b + c == a + (b + c)
  {
  }

  lemma IntStringsAfterAt(head: seq<string>, xs: seq<int>)
    ensures forall k :: |head| <= k < |head| + |xs| ==> (head + IntStrings(xs))[k] == IntToString(xs[k - |head|])
  {
    forall k | |head| <= k < |head| + |xs| ensures (head + IntStrings(xs))[k] == IntToString(xs[k - |head|]) {
      IntStringsAt(head, xs, k);
    }
  }

  lemma AllCommaFreeConcat(a: seq<string>, b: seq<string>)
    requires AllCommaFree(a) && AllCommaFree(b)
    ensures AllCommaFree(a + b)
  {
    forall i | 0 <= i < |a + b| ensures CommaFree((a + b)[i]) {
      if i >= |a| { assert (a + b)[i] == b[i - |a|]; }
    }
  }

  /** Comma-free fields followed by integers are comma-free. */
  lemma IntStringsCommaFree(head: seq<string>, xs: seq<int>)
    requires AllCommaFree(head)
    ensures AllCommaFree(head + IntStrings(xs))
  {
    var r := head + IntStrings(xs);
    forall i | 0 <= i < |r| ensures CommaFree(r[i]) {
      if i >= |head| {
        IntToStringCommaFree(xs[i - |head|]);
      }
    }
  }

  /** A string that int.Parse accepts holds white space, a sign and digits only, so no comma. */
  lemma ParsedIsCommaFree(s: string)
    requires ParseInteger(s).Some?
    ensures CommaFree(s)
  {
    var u := TrimStart(s);
    var t := TrimEnd(u);
    TrimStartSuffix(s);
    TrimEndPrefix(u);
    assert forall i :: 0 <= i < |t| ==> IsDigit(t[i]) || t[i] == '-' || t[i] == '+' by {
      if |t| >= 1 && (t[0] == '-' || t[0] == '+') {
        assert AllDigits(t[1..]);
        forall i | 1 <= i < |t| ensures IsDigit(t[i]) {
          assert t[i] == t[1..][i - 1];
        }
      }
    }
    forall i | 0 <= i < |s| ensures s[i] != ',' {
      var k := |s| - |u|;
      if i >= k {
        assert s[i] == u[i - k];
        if i - k < |t| {
          assert u[i - k] == t[i - k];
        }
      }
    }
  }

  /** string.Split(','): the fields between commas, always at least one. */
  function Split(s: string): (r: seq<string>)
    ensures |r| >= 1
    decreases |s|
  {
    if |s| == 0 then [""]
    else
      var rest := Split(s[1..]);
      if s[0] == ',' then [""] + rest else [[s[0]] + rest[0]] + rest[1..]
  }

  /** Fields written one after another, each preceded by ','. */
  function Prefixed(fields: seq<string>): (s: string)
    ensures |s| >= |fields|
  {
    if |fields| == 0 then "" else "," + fields[0] + Prefixed(fields[1..])
  }

  lemma {:induction false} SplitCommaFree(a: string)
    requires CommaFree(a)
    ensures Split(a) == [a]
    decreases |a|
  {
    if |a| > 0 {
      SplitCommaFree(a[1..]);
      assert [a[0]] + a[1..] == a;
    }
  }

  lemma {:induction false} SplitAtComma(a: string, b: string)
    requires CommaFree(a)
    ensures Split(a + "," + b) == [a] + Split(b)
    decreases |a|
  {
    var s := a + "," + b;
    if |a| == 0 {
      assert s[1..] == b;
    } else {
      assert s[1..] == a[1..] + "," + b;
      SplitAtComma(a[1..], b);
      assert [a[0]] + a[1..] == a;
    }
  }

  /** Splitting a head followed by comma-prefixed fields recovers the head and the fields. */
  lemma {:induction false} SplitPrefixed(head: string, fields: seq<string>)
    requires CommaFree(head) && AllCommaFree(fields)
    ensures Split(head + Prefixed(fields)) == [head] + fields
    decreases |fields|
  {
    if |fields| == 0 {
      assert head + Prefixed(fields) == head;
      SplitCommaFree(head);
    } else {
      var tail := fields[0] + Prefixed(fields[1..]);
      assert head + Prefixed(fields) == head + "," + tail;
      SplitAtComma(head, tail);
      SplitPrefixed(fields[0], fields[1..]);
      assert [fields[0]] + fields[1..] == fields;
    }
  }

  /** Comma-free fields followed by one more comma and arbitrary text: the text's own pieces come last. */
  lemma {:induction false} SplitPrefixedThen(head: string, fields: seq<string>, rest: string)
    requires CommaFree(head) && AllCommaFree(fields)
    ensures Split(head + Prefixed(fields) + "," + rest) == [head] + fields + Split(rest)
    decreases |fields|
  {
    if |fields| == 0 {
      assert head + Prefixed(fields) + "," + rest == head + "," + rest;
      SplitAtComma(head, rest);
    } else {
      var p := Prefixed(fields[1..]);
      var tail := fields[0] + p + "," + rest;
      assert head + Prefixed(fields) + "," + rest == head + "," + tail by {
        assert Prefixed(fields) == "," + fields[0] + p;
        CommaRegroup(head, fields[0], p, rest);
      }
      SplitAtComma(head, tail);
      SplitPrefixedThen(fields[0], fields[1..], rest);
      assert [head] + ([fields[0]] + fields[1..] + Split(rest)) == [head] + fields + Split(rest) by {
        assert [fields[0]] + fields[1..] == fields;
        AppendAssociative([head], fields, Split(rest));
      }
    }
  }

  lemma CommaRegroup(h: string, f: string, p: string, r: string)
    ensures h + ("," + f + p) + "," + r == h + "," + (f + p + "," + r)
  {
  }

  /** Writing two lists of fields one after the other writes their concatenation. */
  lemma {:induction false} PrefixedAppend(a: seq<string>, b: seq<string>)
    ensures Prefixed(a + b) == Prefixed(a) + Prefixed(b)
    decreases |a|
  {
    if |a| == 0 {
      assert a + b == b;
    } else {
      assert (a + b)[1..] == a[1..] + b;
      PrefixedAppend(a[1..], b);
    }
  }

  lemma PrefixedPair(a: string, b: string)
    ensures Prefixed([a]) == "," + a
    ensures Prefixed([a, b]) == "," + a + "," + b
  {
    assert [a, b][1..] == [b];
  }

  lemma PrefixedTriple(a: string, b: string, c: string)
    ensures Prefixed([a, b, c]) == "," + a + "," + b + "," + c
  {
    assert [a, b, c][1..] == [b, c];
    PrefixedPair(b, c);
  }

  /** Writing a last field that holds a comma writes the same text as writing its two halves. */
  lemma {:induction false} PrefixedLastComma(fields: seq<string>, a: string, b: string)
    ensures Prefixed(fields + [a + "," + b]) == Prefixed(fields + [a, b])
    decreases |fields|
  {
    if |fields| == 0 {
      assert Prefixed([a, b]) == "," + a + Prefixed([b]) by { assert [a, b][1..] == [b]; }
    } else {
      assert (fields + [a + "," + b])[1..] == fields[1..] + [a + "," + b];
      assert (fields + [a, b])[1..] == fields[1..] + [a, b];
      PrefixedLastComma(fields[1..], a, b);
    }
  }

  /** split[i], or the IndexOutOfRangeException the library would raise. */
  function Field(split: seq<string>, i: nat): (r: Result<string>)
    ensures i < |split| <==> r.Ok?
    ensures r.Ok? ==> r.value == split[i]
    ensures r.Err? ==> r.error == MissingField(i)
  {
    if i < |split| then Ok(split[i]) else Err(MissingField(i))
  }

  /** int.Parse(split[i]). */
  function IntField(split: seq<string>, i: nat): (r: Result<Int32>)
    ensures r.Ok? <==> i < |split| && ParseInt(split[i]).Some?
    ensures r.Ok? ==> r.value == ParseInt(split[i]).value
  {
    var s :- Field(split, i);
    OrBadFormat(ParseInt(s))
  }

  /** uint.Parse(split[i]). */
  function UIntField(split: seq<string>, i: nat): (r: Result<UInt32>)
    ensures r.Ok? <==> i < |split| && ParseUInt(split[i]).Some?
    ensures r.Ok? ==> r.value == ParseUInt(split[i]).value
  {
    var s :- Field(split, i);
    OrBadFormat(ParseUInt(s))
  }

  /** A field written by IntToString reads back through IntField. */
  lemma IntFieldOfIntToString(split: seq<string>, i: nat, n: Int32)
    requires i < |split| && split[i] == IntToString(n)
    ensures IntField(split, i) == Ok(n)
  {
    ParseIntOfIntToString(n);
  }

  /** A field written by IntToString reads back through UIntField. */
  lemma UIntFieldOfIntToString(split: seq<string>, i: nat, n: UInt32)
    requires i < |split| && split[i] == IntToString(n)
    ensures UIntField(split, i) == Ok(n)
  {
    ParseUIntOfIntToString(n);
  }
}
