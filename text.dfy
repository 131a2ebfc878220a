/** Option datatype used for lookups that may find nothing and for conversions that may fail. */
module Wrappers {
  datatype Option<+T> = None | Some(value: T)
}

/**
  The handful of Python string operations the scripts rely on, over `string` (= seq<char>):
  `str(n)` for naturals, `int(s)` on digit strings, `int(float(s))` on plain decimals,
  the `in` substring test, `str.replace(c, '')`, `str.rstrip(' ')` and slicing `s[:n]`.
*/
module Text {
  import opened Wrappers

  predicate IsDigit(c: char) { '0' <= c <= '9' }

  predicate AllDigits(s: string) { forall i :: 0 <= i < |s| ==> IsDigit(s[i]) }

  function DigitChar(d: nat): (c: char)
    requires d < 10
    ensures IsDigit(c) && c as int - '0' as int == d
  {
    (('0' as int) + d) as char
  }

  /** Python `str(n)` for a non-negative int: decimal digits, no leading zeros. */
  function NatToString(n: nat): (s: string)
    ensures |s| >= 1 && AllDigits(s)
    ensures s[0] == '0' ==> n == 0
  {
    if n < 10 then [DigitChar(n)] else NatToString(n / 10) + [DigitChar(n % 10)]
  }

  /** The value of a string of decimal digits (leading zeros allowed, as `int('010') == 10`). */
  function DigitsValue(s: string): nat
    requires AllDigits(s)
  {
    if s == [] then 0
    else DigitsValue(s[..|s| - 1]) * 10 + (s[|s| - 1] as int - '0' as int)
  }

  /** Python `int(s)` restricted to unsigned decimal literals; anything else raises (None). */
  function ParseNat(s: string): Option<nat>
  {
    if s != [] && AllDigits(s) then Some(DigitsValue(s)) else None
  }

  lemma {:induction false} DigitsValueOfNatToString(n: nat)
    ensures DigitsValue(NatToString(n)) == n
  {
    if n >= 10 {
      var s := NatToString(n);
      var init := NatToString(n / 10);
      assert s == init + [DigitChar(n % 10)];
      assert s[..|s| - 1] == init;
      DigitsValueOfNatToString(n / 10);
    }
  }

  /** `int(str(n)) == n`. */
  lemma ParseNatToString(n: nat)
    ensures ParseNat(NatToString(n)) == Some(n)
  {
    DigitsValueOfNatToString(n);
  }

  /** `str` is injective on naturals, so matching by `str(vid)` is matching by vid. */
  lemma NatToStringInjective(m: nat, n: nat)
    ensures NatToString(m) == NatToString(n) <==> m == n
  {
    ParseNatToString(m);
    ParseNatToString(n);
  }

  /** `sub` occurs at the start of `s`. */
  predicate StartsWith(s: string, sub: string)
  {
    |sub| <= |s| && s[..|sub|] == sub
  }

  /** Python `sub in s` on strings. */
  predicate Contains(s: string, sub: string)
    decreases |s|
  {
    StartsWith(s, sub) || (s != [] && Contains(s[1..], sub))
  }

  /** Every character of a substring occurs in the string that contains it. */
  lemma {:induction false} ContainsHasChar(s: string, sub: string, i: nat)
    requires i < |sub|
    ensures Contains(s, sub) ==> sub[i] in s
    decreases |s|
  {
    if StartsWith(s, sub) {
      assert s[i] == sub[i];
    }
    if s != [] {
      ContainsHasChar(s[1..], sub, i);
      assert s == [s[0]] + s[1..];
    }
  }

  /** Python `s.replace(c, '')` for a one-character `c`. */
  function RemoveChar(s: string, c: char): (r: string)
    ensures |r| <= |s|
    ensures c !in r
    ensures forall x :: x != c ==> (x in r <==> x in s)
  {
    if s == [] then []
    else (if s[0] == c then [] else [s[0]]) + RemoveChar(s[1..], c)
  }

  /** Python `s[:n]`. */
  function Take(s: string, n: nat): (r: string)
    ensures |r| == if |s| <= n then |s| else n
    ensures r == s[..|r|]
  {
    if |s| <= n then s else s[..n]
  }

  /** Python `s.rstrip(' ')`. */
  function RStrip(s: string): (r: string)
    ensures |r| <= |s| && r == s[..|r|]
    ensures r == [] || r[|r| - 1] != ' '
    ensures forall i :: |r| <= i < |s| ==> s[i] == ' '
  {
    if s == [] || s[|s| - 1] != ' ' then s else RStrip(s[..|s| - 1])
  }

  /** Index of the first '.' in `s`, or `|s|` when there is none. */
  function DotIndex(s: string): (k: nat)
    ensures k <= |s|
    ensures k < |s| ==> s[k] == '.'
    ensures forall j :: 0 <= j < k ==> s[j] != '.'
  {
    if s == [] then 0
    else if s[0] == '.' then 0
    else 1 + DotIndex(s[1..])
  }

  /**
    Python `int(float(s))` on a plain unsigned decimal (`"12"`, `"12.00"`, `"4.5"`, `".5"`):
    the integer part. Other spellings (signs, exponents, `inf`) are outside the model and read
    as a conversion error.
  */
  function DecimalFloor(s: string): Option<nat>
  {
    var k := DotIndex(s);
    var whole := s[..k];
    var frac := if k < |s| then s[k + 1..] else [];
    if AllDigits(whole) && AllDigits(frac) && (whole != [] || frac != []) then
      Some(DigitsValue(whole))
    else None
  }

  /** A size written as `"%.2f" % n` for an integer `n` reads back as `n` through `int(float(...))`. */
  lemma {:induction false} DecimalFloorOfFormatted(n: nat)
    ensures DecimalFloor(NatToString(n) + ".00") == Some(n)
  {
    var d := NatToString(n);
    var s := d + ".00";
    DotIndexAfterDigits(d, ".00");
    assert s[..|d|] == d;
    assert s[|d| + 1..] == "00";
    DigitsValueOfNatToString(n);
  }

  lemma {:induction false} DotIndexAfterDigits(d: string, rest: string)
    requires AllDigits(d)
    requires rest != [] && rest[0] == '.'
    ensures DotIndex(d + rest) == |d|
  {
    if d != [] {
      assert (d + rest)[1..] == d[1..] + rest;
      DotIndexAfterDigits(d[1..], rest);
    } else {
      assert d + rest == rest;
    }
  }
}
