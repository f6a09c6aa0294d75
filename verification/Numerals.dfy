/**
 Positional numerals as text. These stand for Python's bin, hex, str, int, zfill and
 slicing of numerals, for bases 2, 10 and 16.
 */
module Numerals {
  import opened Arithmetic
  import opened Results

  function DigitChar(d: nat): (c: char)
    requires d < 16
    ensures DigitValue(c) == d && !('A' <= c <= 'Z') && c != ' '
  {
    if d < 10 then ('0' as int + d) as char else ('a' as int + d - 10) as char
  }

  /** The value of a digit in any base up to 16; 16 when the character is no digit. */
  function DigitValue(c: char): (d: nat)
    ensures d <= 16
  {
    if '0' <= c <= '9' then c as int - '0' as int
    else if 'a' <= c <= 'f' then c as int - 'a' as int + 10
    else if 'A' <= c <= 'F' then c as int - 'A' as int + 10
    else 16
  }

  predicate IsNumeral(b: base, s: string) {
    forall i :: 0 <= i < |s| ==> DigitValue(s[i]) < b
  }

  /** A numeral without upper-case digits: what Python itself prints. */
  predicate IsPrinted(b: base, s: string) {
    forall i :: 0 <= i < |s| ==> DigitValue(s[i]) < b && !('A' <= s[i] <= 'F')
  }

  function Value(b: base, s: string): nat {
    if s == "" then 0 else Scale(b, Value(b, s[..|s| - 1])) + DigitValue(s[|s| - 1])
  }

  /** Exactly w digits, most significant first; higher digits are cut off. */
  function Fixed(b: base, n: nat, w: nat): (s: string)
    ensures |s| == w && IsPrinted(b, s)
    decreases w
  {
    if w == 0 then "" else Fixed(b, Quotient(b, n), w - 1) + [DigitChar(Last(b, n))]
  }

  /** As many digits as the number needs, at least one: bin(n)[2:], str(n) or hex(n)[2:]. */
  function Numeral(b: base, n: nat): (s: string)
    ensures 1 <= |s| && IsPrinted(b, s)
    decreases n
  {
    if n < b then [DigitChar(n)] else Numeral(b, Quotient(b, n)) + [DigitChar(Last(b, n))]
  }

  /** Left padding, as s.zfill(w) and as the width in a format string do it. */
  function PadLeft(s: string, w: nat, c: char): (r: string)
    ensures |r| == if |s| < w then w else |s|
  {
    if |s| < w then seq(w - |s|, _ => c) + s else s
  }

  function ZFill(s: string, w: nat): (r: string)
    ensures |r| == if |s| < w then w else |s|
  {
    PadLeft(s, w, '0')
  }

  function Strip(s: string): (r: string)
    ensures |r| <= |s|
  {
    if s == "" then ""
    else if s[0] == ' ' then Strip(s[1..])
    else if s[|s| - 1] == ' ' then Strip(s[..|s| - 1])
    else s
  }

  /** Python's int(s, b) on unsigned numerals, which may stand between spaces. */
  function ParseInt(b: base, s: string): Result<nat> {
    var t := Strip(s);
    if t != "" && IsNumeral(b, t) then Ok(Value(b, t)) else Err(ValueError)
  }

  // ----- values

  lemma {:induction false} ValueAppend(b: base, s: string, t: string)
    ensures Value(b, s + t) == Raise(b, Value(b, s), |t|) + Value(b, t)
  {
    if t == "" {
      assert s + t == s;
    } else {
      ValueAppend(b, s, t[..|t| - 1]);
      assert (s + t)[..|s + t| - 1] == s + t[..|t| - 1];
    }
  }

  lemma {:induction false} ValueBound(b: base, s: string)
    requires IsNumeral(b, s)
    ensures Value(b, s) < Pow(b, |s|)
  {
    if s != "" {
      ValueBound(b, s[..|s| - 1]);
    }
  }

  lemma ValueSnoc(b: base, s: string, d: nat)
    requires d < 16
    ensures Value(b, s + [DigitChar(d)]) == Scale(b, Value(b, s)) + d
  {
    var t := s + [DigitChar(d)];
    assert t[..|t| - 1] == s;
  }

  lemma FixedSnoc(b: base, n: nat, w: nat)
    ensures Fixed(b, n, w + 1) == Fixed(b, Quotient(b, n), w) + [DigitChar(Last(b, n))]
  {
  }

  lemma ValueEmpty(b: base)
    ensures Value(b, "") == 0
  {
  }

  lemma {:induction false} ValueOfFixed(b: base, n: nat, w: nat)
    ensures Value(b, Fixed(b, n, w)) == Low(b, n, w)
  {
    hide Value, IsPrinted, DigitChar, DigitValue, Scale, Quotient, Last, Pow;
    if w == 0 {
      ValueEmpty(b);
    } else {
      ValueOfFixed(b, Quotient(b, n), w - 1);
      ValueSnoc(b, Fixed(b, Quotient(b, n), w - 1), Last(b, n));
    }
  }

  lemma PrintedLast(b: base, s: string)
    requires IsPrinted(b, s) && s != ""
    ensures IsPrinted(b, s[..|s| - 1]) && DigitValue(s[|s| - 1]) < b
    ensures s == s[..|s| - 1] + [DigitChar(DigitValue(s[|s| - 1]))]
  {
  }

  lemma {:induction false} FixedOfValue(b: base, s: string)
    requires IsPrinted(b, s)
    ensures Fixed(b, Value(b, s), |s|) == s
  {
    hide *;
    if s == "" {
      ValueEmpty(b);
    } else {
      var t, d := s[..|s| - 1], DigitValue(s[|s| - 1]);
      PrintedLast(b, s);
      FixedOfValue(b, t);
      ValueSnoc(b, t, d);
      ScaleUnique(b, Value(b, t), d);
      FixedSnoc(b, Value(b, s), |t|);
    }
  }

  /** Printed numerals of one width are equal when their values are. */
  lemma SameValue(b: base, s: string, t: string)
    requires IsPrinted(b, s) && IsPrinted(b, t)
    requires |s| == |t| && Value(b, s) == Value(b, t)
    ensures s == t
  {
    FixedOfValue(b, s);
    FixedOfValue(b, t);
  }

  lemma {:induction false} ValueOfNumeral(b: base, n: nat)
    ensures Value(b, Numeral(b, n)) == n
    decreases n
  {
    if n < b {
      ValueSnoc(b, "", n);
      assert "" + [DigitChar(n)] == [DigitChar(n)];
    } else {
      ValueOfNumeral(b, Quotient(b, n));
      ValueSnoc(b, Numeral(b, Quotient(b, n)), Last(b, n));
    }
  }

  /** A numeral fits w digits exactly when the number is below b^w. */
  lemma {:induction false} NumeralFits(b: base, n: nat, w: nat)
    requires 1 <= w
    ensures |Numeral(b, n)| <= w <==> n < Pow(b, w)
    decreases w
  {
    if n < b {
      PowMonotone(b, 1, w);
    } else if w == 1 {
    } else {
      NumeralFits(b, Quotient(b, n), w - 1);
    }
  }

  lemma {:induction false} ValueOfZeros(b: base, k: nat)
    ensures Value(b, seq(k, _ => '0')) == 0
  {
    if k != 0 {
      ValueOfZeros(b, k - 1);
      assert seq(k, _ => '0')[..k - 1] == seq(k - 1, _ => '0');
    }
  }

  lemma ZFillZeros(s: string, w: nat)
    requires |s| <= w
    ensures ZFill(s, w) == seq(w - |s|, _ => '0') + s
  {
  }

  lemma ZerosPrinted(b: base, k: nat, s: string)
    requires IsPrinted(b, s)
    ensures IsPrinted(b, seq(k, _ => '0') + s)
  {
  }

  lemma RaiseZero(b: base, k: nat)
    ensures Raise(b, 0, k) == 0
  {
  }

  /** str(n).zfill(w) and the like: exactly w digits as long as the number fits. */
  lemma PaddedNumeral(b: base, n: nat, w: nat)
    requires 1 <= w && n < Pow(b, w)
    ensures ZFill(Numeral(b, n), w) == Fixed(b, n, w)
  {
    hide *;
    var s := Numeral(b, n);
    NumeralFits(b, n, w);
    var z := seq(w - |s|, _ => '0');
    ZFillZeros(s, w);
    ValueOfZeros(b, |z|);
    ZerosPrinted(b, |z|, s);
    RaiseZero(b, |s|);
    ValueAppend(b, z, s);
    ValueOfNumeral(b, n);
    ValueOfFixed(b, n, w);
    LowSmall(b, n, w);
    SameValue(b, z + s, Fixed(b, n, w));
  }

  lemma {:induction false} FixedDrop(b: base, n: nat, w: nat, i: nat)
    requires i <= w
    ensures Fixed(b, n, w)[i..] == Fixed(b, n, w - i)
  {
    if i < w {
      FixedDrop(b, Quotient(b, n), w - 1, i);
      FixedSnoc(b, n, w - 1);
      FixedSnoc(b, n, w - 1 - i);
    }
  }

  lemma {:induction false} FixedTake(b: base, n: nat, w: nat, j: nat)
    requires j <= w
    ensures Fixed(b, n, w)[..j] == Fixed(b, High(b, n, w - j), j)
  {
    if j < w {
      FixedTake(b, Quotient(b, n), w - 1, j);
      FixedSnoc(b, n, w - 1);
    }
  }

  /** A slice of a fixed-width numeral holds the digits at those positions. */
  lemma FixedSlice(b: base, n: nat, w: nat, i: nat, j: nat)
    requires i <= j <= w
    ensures Fixed(b, n, w)[i..j] == Fixed(b, High(b, n, w - j), j - i)
    ensures Value(b, Fixed(b, n, w)[i..j]) == Low(b, High(b, n, w - j), j - i)
  {
    hide *;
    FixedTake(b, n, w, j);
    FixedDrop(b, High(b, n, w - j), j, i);
    assert Fixed(b, n, w)[i..j] == Fixed(b, n, w)[..j][i..];
    ValueOfFixed(b, High(b, n, w - j), j - i);
  }

  /** Two fixed-width numerals side by side are one numeral. */
  lemma FixedAppend(b: base, hi: nat, lo: nat, j: nat, k: nat)
    requires lo < Pow(b, k)
    ensures Fixed(b, hi, j) + Fixed(b, lo, k) == Fixed(b, Raise(b, hi, k) + lo, j + k)
  {
    hide *;
    var n := Raise(b, hi, k) + lo;
    RaiseHighLow(b, hi, lo, k);
    FixedTake(b, n, j + k, j);
    FixedDrop(b, n, j + k, j);
    ValueOfFixed(b, n, k);
    ValueOfFixed(b, lo, k);
    LowSmall(b, lo, k);
    SameValue(b, Fixed(b, n, k), Fixed(b, lo, k));
    var f := Fixed(b, n, j + k);
    assert f == f[..j] + f[j..];
  }

  // ----- reading back

  lemma StripNothing(s: string)
    requires s == "" || (s[0] != ' ' && s[|s| - 1] != ' ')
    ensures Strip(s) == s
  {
  }

  lemma PrintedIsNumeral(b: base, s: string)
    requires IsPrinted(b, s)
    ensures IsNumeral(b, s)
  {
  }

  lemma PrintedHasNoSpace(b: base, s: string)
    requires IsPrinted(b, s)
    ensures forall i :: 0 <= i < |s| ==> s[i] != ' '
  {
    forall i | 0 <= i < |s|
      ensures s[i] != ' '
    {
      assert DigitValue(' ') == 16;
    }
  }

  lemma ParsePrinted(b: base, s: string)
    requires IsPrinted(b, s) && s != ""
    ensures ParseInt(b, s) == Ok(Value(b, s))
  {
    PrintedHasNoSpace(b, s);
    StripNothing(s);
  }

  /** Spaces on the left do not change what int reads. */
  lemma {:induction false} ParsePadded(b: base, s: string, k: nat)
    requires IsPrinted(b, s) && s != ""
    ensures ParseInt(b, seq(k, _ => ' ') + s) == Ok(Value(b, s))
    ensures ParseInt(b, s + seq(k, _ => ' ')) == Ok(Value(b, s))
  {
    hide Value;
    PrintedHasNoSpace(b, s);
    if k == 0 {
      assert seq(k, _ => ' ') + s == s && s + seq(k, _ => ' ') == s;
      ParsePrinted(b, s);
    } else {
      ParsePadded(b, s, k - 1);
      assert (seq(k, _ => ' ') + s)[1..] == seq(k - 1, _ => ' ') + s;
      var r := s + seq(k, _ => ' ');
      assert r[..|r| - 1] == s + seq(k - 1, _ => ' ');
    }
  }

  /** int of nothing but spaces raises. */
  lemma {:induction false} ParseBlank(b: base, k: nat)
    ensures ParseInt(b, seq(k, _ => ' ')) == Err(ValueError)
  {
    if k != 0 {
      ParseBlank(b, k - 1);
      assert seq(k, _ => ' ')[1..] == seq(k - 1, _ => ' ');
    }
  }

  // ----- leading digits

  /** A numeral that does not start with 0 is the numeral of its value. */
  lemma NumeralOfValue(b: base, s: string)
    requires IsPrinted(b, s) && s != "" && s[0] != '0'
    ensures Numeral(b, Value(b, s)) == s
  {
    PrintedIsNumeral(b, s);
    LeadingDigit(b, s);
    hide *;
    ValueBound(b, s);
    NumeralFits(b, Value(b, s), |s|);
    if 1 < |s| {
      NumeralFits(b, Value(b, s), |s| - 1);
    }
    ValueOfNumeral(b, Value(b, s));
    SameValue(b, s, Numeral(b, Value(b, s)));
  }

  lemma {:induction false} RaiseMonotone(b: base, m: nat, n: nat, k: nat)
    requires m <= n
    ensures Raise(b, m, k) <= Raise(b, n, k)
  {
    if k != 0 {
      RaiseMonotone(b, m, n, k - 1);
    }
  }

  lemma {:induction false} RaiseOne(b: base, k: nat)
    ensures Raise(b, 1, k) == Pow(b, k)
  {
    if k != 0 {
      RaiseOne(b, k - 1);
    }
  }

  /** The value reaches b^(|s|-1) exactly when the first digit is not 0. */
  lemma LeadingDigit(b: base, s: string)
    requires IsPrinted(b, s) && s != ""
    ensures Pow(b, |s| - 1) <= Value(b, s) <==> DigitValue(s[0]) != 0
    ensures DigitValue(s[0]) != 0 <==> s[0] != '0'
  {
    var d := DigitValue(s[0]);
    assert s == [s[0]] + s[1..];
    ValueAppend(b, [s[0]], s[1..]);
    assert Value(b, [s[0]]) == d by {
      assert [s[0]][..0] == "";
    }
    PrintedIsNumeral(b, s[1..]);
    ValueBound(b, s[1..]);
    RaiseZero(b, |s| - 1);
    RaiseOne(b, |s| - 1);
    if 1 <= d {
      RaiseMonotone(b, 1, d, |s| - 1);
    }
  }

  /** The numeral of hi * b^k + lo. */
  lemma {:induction false} NumeralAppend(b: base, hi: nat, lo: nat, k: nat)
    requires 1 <= hi && lo < Pow(b, k)
    ensures Numeral(b, Raise(b, hi, k) + lo) == Numeral(b, hi) + Fixed(b, lo, k)
  {
    hide *;
    var s, t := Numeral(b, hi), Fixed(b, lo, k);
    NumeralLeads(b, hi);
    ValueAppend(b, s, t);
    ValueOfNumeral(b, hi);
    ValueOfFixed(b, lo, k);
    LowSmall(b, lo, k);
    PrintedAppend(b, s, t);
    NumeralOfValue(b, s + t);
  }

  lemma PrintedAppend(b: base, s: string, t: string)
    requires IsPrinted(b, s) && IsPrinted(b, t)
    ensures IsPrinted(b, s + t)
  {
  }

  lemma {:induction false} NumeralLeads(b: base, n: nat)
    requires 1 <= n
    ensures Numeral(b, n)[0] != '0'
    decreases n
  {
    if b <= n {
      NumeralLeads(b, Quotient(b, n));
    }
  }
}
