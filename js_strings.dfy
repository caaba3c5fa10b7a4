/**
 * The string operations the catalog filters and sorts rely on:
 * `toLowerCase`, `includes` and `parseInt`, over `seq<char>`.
 */
module JsStrings {
  import opened Wrappers

  // ---------------------------------------------------------------- toLowerCase

  /** Lower-cases an ASCII capital; every other character is kept. */
  function LowerChar(c: char): char {
    if 'A' <= c <= 'Z' then (c as int + 32) as char else c
  }

  function Lower(s: string): (r: string)
    ensures |r| == |s|
    ensures forall i :: 0 <= i < |s| ==> r[i] == LowerChar(s[i])
  {
    seq(|s|, i requires 0 <= i < |s| => LowerChar(s[i]))
  }


  /** Lower-casing commutes with taking a slice. */
  lemma LowerSlice(s: string, i: int, j: int)
    requires 0 <= i <= j <= |s|
    ensures Lower(s)[i..j] == Lower(s[i..j])
  {
  }

  // ---------------------------------------------------------------- includes

  /** `hay.includes(needle)`. */
  predicate Contains(hay: string, needle: string)
    decreases |hay|
  {
    |needle| <= |hay| && (hay[..|needle|] == needle || Contains(hay[1..], needle))
  }

  /** `needle` occurs in `hay` starting at position `i`. */
  predicate OccursAt(hay: string, needle: string, i: int) {
    0 <= i && i + |needle| <= |hay| && hay[i..i + |needle|] == needle
  }

  /** `includes` holds exactly when the needle occurs at some position. */
  lemma {:induction false} ContainsIff(hay: string, needle: string)
    ensures Contains(hay, needle) <==> exists i :: OccursAt(hay, needle, i)
    decreases |hay|
  {
    if |needle| <= |hay| && hay[..|needle|] != needle {
      ContainsIff(hay[1..], needle);
      if exists i :: OccursAt(hay, needle, i) {
        var i :| OccursAt(hay, needle, i);
        assert i > 0;
        assert hay[1..][i - 1..i - 1 + |needle|] == needle;
        assert OccursAt(hay[1..], needle, i - 1);
      }
      if Contains(hay[1..], needle) {
        var i :| OccursAt(hay[1..], needle, i);
        assert hay[i + 1..i + 1 + |needle|] == needle;
        assert OccursAt(hay, needle, i + 1);
      }
    } else if |needle| <= |hay| {
      assert OccursAt(hay, needle, 0);
    } else {
      assert forall i :: !OccursAt(hay, needle, i);
    }
  }


  /** A case-sensitive match is also a match once both sides are lower-cased. */
  lemma ContainsLower(hay: string, needle: string)
    requires Contains(hay, needle)
    ensures Contains(Lower(hay), Lower(needle))
  {
    ContainsIff(hay, needle);
    var i :| OccursAt(hay, needle, i);
    LowerSlice(hay, i, i + |needle|);
    assert OccursAt(Lower(hay), Lower(needle), i);
    ContainsIff(Lower(hay), Lower(needle));
  }

  // ---------------------------------------------------------------- parseInt

  /**
   * The white space `parseInt` skips before the number: tab, the line
   * terminators, vertical tab, form feed, the byte-order mark and every
   * space separator of Unicode 15.
   */
  predicate IsWhite(c: char) {
    var code := c as int;
    || code == 0x20 || 0x09 <= code <= 0x0D
    || code == 0xA0 || code == 0x1680 || 0x2000 <= code <= 0x200A
    || code == 0x2028 || code == 0x2029 || code == 0x202F || code == 0x205F
    || code == 0x3000 || code == 0xFEFF
  }

  function TrimStart(s: string): string {
    if s != [] && IsWhite(s[0]) then TrimStart(s[1..]) else s
  }

  /** The value of `c` as a digit in base 10 or 16, if it is one. */
  function DigitValue(c: char, radix: nat): Option<nat> {
    if '0' <= c <= '9' then Some(c as nat - '0' as nat)
    else if radix == 16 && 'a' <= c <= 'f' then Some(c as nat - 'a' as nat + 10)
    else if radix == 16 && 'A' <= c <= 'F' then Some(c as nat - 'A' as nat + 10)
    else None
  }

  /** The length of the longest prefix of `s` made of digits. */
  function DigitRun(s: string, radix: nat): (n: nat)
    ensures n <= |s|
    ensures forall i :: 0 <= i < n ==> DigitValue(s[i], radix).Some?
    ensures n < |s| ==> DigitValue(s[n], radix).None?
  {
    if s != [] && DigitValue(s[0], radix).Some? then 1 + DigitRun(s[1..], radix) else 0
  }

  /** The number a run of digits denotes, most significant first. */
  function DigitsValue(ds: string, radix: nat): nat
    requires forall i :: 0 <= i < |ds| ==> DigitValue(ds[i], radix).Some?
  {
    if ds == [] then 0
    else DigitsValue(ds[..|ds| - 1], radix) * radix + DigitValue(ds[|ds| - 1], radix).value
  }

  /**
   * `parseInt(s)` with no radix: leading white space, an optional sign, an
   * optional `0x`/`0X` prefix selecting base 16, then the longest run of
   * digits. `None` stands for `NaN` (no digits at all).
   */
  function ParseInt(s: string): Option<int> {
    var t := TrimStart(s);
    var negative := t != [] && t[0] == '-';
    var u := if t != [] && (t[0] == '-' || t[0] == '+') then t[1..] else t;
    var hex := |u| >= 2 && u[0] == '0' && (u[1] == 'x' || u[1] == 'X');
    var radix := if hex then 16 else 10;
    var v := if hex then u[2..] else u;
    var n := DigitRun(v, radix);
    if n == 0 then None
    else
      var magnitude: int := DigitsValue(v[..n], radix);
      Some(if negative then -magnitude else magnitude)
  }

  /** `parseInt(s) || 0`: a score that does not parse counts as 0. */
  function ScoreOf(s: string): int {
    match ParseInt(s)
    case None => 0
    case Some(v) => v
  }

  /** The decimal digits of `n`, without leading zeros. */
  function Decimal(n: nat): (ds: string)
    ensures |ds| > 0
    ensures forall i :: 0 <= i < |ds| ==> '0' <= ds[i] <= '9'
    ensures ds[0] == '0' ==> n == 0
  {
    if n < 10 then [('0' as int + n) as char]
    else Decimal(n / 10) + [('0' as int + n % 10) as char]
  }

  lemma {:induction false} DecimalValue(n: nat)
    ensures forall i :: 0 <= i < |Decimal(n)| ==> DigitValue(Decimal(n)[i], 10).Some?
    ensures DigitsValue(Decimal(n), 10) == n
    decreases n
  {
    var ds := Decimal(n);
    if n >= 10 {
      DecimalValue(n / 10);
      assert ds[..|ds| - 1] == Decimal(n / 10);
    }
  }

  lemma {:induction false} DigitRunOfDigits(ds: string, rest: string, radix: nat)
    requires forall i :: 0 <= i < |ds| ==> DigitValue(ds[i], radix).Some?
    requires rest == [] || DigitValue(rest[0], radix).None?
    ensures DigitRun(ds + rest, radix) == |ds|
    decreases |ds|
  {
    if ds != [] {
      assert (ds + rest)[1..] == ds[1..] + rest;
      DigitRunOfDigits(ds[1..], rest, radix);
    } else {
      assert ds + rest == rest;
    }
  }

  /** `parseInt` of a string that starts with neither space, sign nor `0x` reads its leading decimal digits. */
  lemma ParseIntPlain(s: string)
    requires s != [] && !IsWhite(s[0]) && s[0] != '-' && s[0] != '+'
    requires !(|s| >= 2 && s[0] == '0' && (s[1] == 'x' || s[1] == 'X'))
    ensures var n := DigitRun(s, 10);
      ParseInt(s) == if n == 0 then None else Some(DigitsValue(s[..n], 10))
  {
    assert TrimStart(s) == s;
  }

  /**
   * A score written as a whole number followed by anything that is not a
   * digit (a decimal point, a plus sign, nothing) reads back as that number.
   */
  lemma ScoreOfDecimal(n: nat, rest: string)
    requires rest == [] || (DigitValue(rest[0], 10).None? && rest[0] != 'x' && rest[0] != 'X')
    ensures ScoreOf(Decimal(n) + rest) == n
  {
    var ds := Decimal(n);
    var s := ds + rest;
    assert s[0] == ds[0];
    assert !(|s| >= 2 && s[0] == '0' && (s[1] == 'x' || s[1] == 'X')) by {
      if |s| >= 2 && s[0] == '0' {
        assert n == 0 && |ds| == 1 && s[1] == rest[0];
      }
    }
    ParseIntPlain(s);
    DecimalValue(n);
    DigitRunOfDigits(ds, rest, 10);
    assert s[..|ds|] == ds;
  }

  /** A score with no leading digits counts as 0. */
  lemma ScoreOfNoDigits(s: string)
    requires s == [] || (DigitValue(s[0], 10).None? && !IsWhite(s[0]) && s[0] != '-' && s[0] != '+')
    ensures ScoreOf(s) == 0
  {
  }
}
