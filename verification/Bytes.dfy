/**
 Byte strings, their little- and big-endian numbers, and their hexadecimal text:
 int.from_bytes, int.to_bytes, bytes.hex, bytes.fromhex, tohex, hb and splitbyte.
 */
module Bytes {
  import opened Arithmetic
  import opened Numerals
  import opened Results
  import opened Texts

  type byte = x: int | 0 <= x < 256

  function FromLittle(bs: seq<byte>): nat {
    if bs == [] then 0 else bs[0] + 256 * FromLittle(bs[1..])
  }

  /** The low k bytes of n, least significant first. */
  function ToLittle(n: nat, k: nat): (bs: seq<byte>)
    ensures |bs| == k
  {
    if k == 0 then [] else [n % 256] + ToLittle(n / 256, k - 1)
  }

  function FromBig(bs: seq<byte>): nat {
    if bs == [] then 0 else FromBig(bs[..|bs| - 1]) * 256 + bs[|bs| - 1]
  }

  /** int.to_bytes(k, 'little'), which raises when the number needs more bytes. */
  function Encode(n: nat, k: nat): Result<seq<byte>> {
    if n < Pow(16, 2 * k) then Ok(ToLittle(n, k)) else Err(OverflowError)
  }

  /** Two's complement of bs, least significant byte first. */
  function FromLittleSigned(bs: seq<byte>): int {
    if bs != [] && 128 <= bs[|bs| - 1] then FromLittle(bs) - Pow(16, 2 * |bs|) else FromLittle(bs)
  }

  function Hex2(x: byte): (s: string)
    ensures |s| == 2 && IsPrinted(16, s)
  {
    Fixed(16, x, 2)
  }

  /** format(n, '02x'): at least two digits. */
  function Hb(n: nat): string {
    ZFill(Numeral(16, n), 2)
  }

  function ToHex(bs: seq<byte>): (s: string)
    ensures |s| == 2 * |bs|
  {
    if bs == [] then "" else Hex2(bs[0]) + ToHex(bs[1..])
  }

  /** bytes.fromhex on text without spaces: pairs of digits, or it raises. */
  function FromHex(s: string): Result<seq<byte>> {
    if s == "" then Ok([])
    else if |s| == 1 || DigitValue(s[0]) == 16 || DigitValue(s[1]) == 16 then Err(ValueError)
    else
      var rest :- FromHex(s[2..]);
      Ok([DigitValue(s[0]) * 16 + DigitValue(s[1])] + rest)
  }

  /** Pairs of characters with a space between two pairs. */
  function SplitByte(s: string): string {
    if |s| <= 2 then s else s[..2] + " " + SplitByte(s[2..])
  }

  function UnlessSpace(c: char): string {
    if c == ' ' then "" else [c]
  }

  function NoSpaces(s: string): string {
    if s == "" then "" else UnlessSpace(s[0]) + NoSpaces(s[1..])
  }

  // ----- numbers and bytes

  lemma {:induction false} LittleRoundTrip(n: nat, k: nat)
    ensures FromLittle(ToLittle(n, k)) == Low(16, n, 2 * k)
    ensures n < Pow(16, 2 * k) ==> FromLittle(ToLittle(n, k)) == n
  {
    if k == 0 {
    } else {
      LittleRoundTrip(n / 256, k - 1);
      assert ToLittle(n, k)[1..] == ToLittle(n / 256, k - 1);
      assert n / 256 == n / 16 / 16;
    }
  }

  lemma {:induction false} LittleBytes(bs: seq<byte>)
    ensures FromLittle(bs) < Pow(16, 2 * |bs|)
    ensures ToLittle(FromLittle(bs), |bs|) == bs
  {
    if bs != [] {
      LittleBytes(bs[1..]);
      assert bs == [bs[0]] + bs[1..];
    }
  }

  function Reversed<T>(s: seq<T>): (r: seq<T>)
    ensures |r| == |s|
    ensures forall i :: 0 <= i < |s| ==> r[i] == s[|s| - 1 - i]
  {
    if s == [] then [] else Reversed(s[1..]) + [s[0]]
  }

  lemma {:induction false} ReversedAppend<T>(s: seq<T>, t: seq<T>)
    ensures Reversed(s + t) == Reversed(t) + Reversed(s)
  {
    if s == [] {
      assert s + t == t;
    } else {
      ReversedAppend(s[1..], t);
      assert (s + t)[1..] == s[1..] + t;
    }
  }

  lemma ReversedTwice<T>(s: seq<T>)
    ensures Reversed(Reversed(s)) == s
  {
  }

  lemma ReversedConstant<T>(k: nat, x: T)
    ensures Reversed(seq(k, _ => x)) == seq(k, _ => x)
  {
  }

  // ----- hexadecimal text

  lemma {:induction false} ToHexPrinted(bs: seq<byte>)
    ensures IsPrinted(16, ToHex(bs))
  {
    if bs != [] {
      ToHexPrinted(bs[1..]);
    }
  }

  lemma ToHexCons(x: byte, bs: seq<byte>)
    ensures ToHex([x] + bs) == Hex2(x) + ToHex(bs)
  {
    assert ([x] + bs)[1..] == bs;
  }

  lemma ConcatAssociative<T>(a: seq<T>, b: seq<T>, c: seq<T>)
    ensures a + b + c == a + (b + c)
  {
  }

  lemma {:induction false} ToHexAppend(a: seq<byte>, b: seq<byte>)
    ensures ToHex(a + b) == ToHex(a) + ToHex(b)
  {
    if a == [] {
      assert a + b == b;
    } else {
      hide *;
      var h, t := [a[0]], a[1..];
      ToHexAppend(t, b);
      assert a == h + t;
      ConcatAssociative(h, t, b);
      ToHexCons(a[0], t);
      ToHexCons(a[0], t + b);
      ConcatAssociative(Hex2(a[0]), ToHex(t), ToHex(b));
    }
  }

  lemma Hex2Value(x: byte)
    ensures Value(16, Hex2(x)) == x
    ensures DigitValue(Hex2(x)[0]) == x / 16 && DigitValue(Hex2(x)[1]) == x % 16
    ensures Hb(x) == Hex2(x)
  {
    FixedSnoc(16, x, 1);
    FixedSnoc(16, x / 16, 0);
    assert Pow(16, 2) == 256;
    ValueOfFixed(16, x, 2);
    LowSmall(16, x, 2);
    PaddedNumeral(16, x, 2);
  }

  lemma {:induction false} HexRoundTrip(bs: seq<byte>)
    ensures FromHex(ToHex(bs)) == Ok(bs)
  {
    hide Hex2, IsPrinted, DigitValue, Fixed;
    if bs != [] {
      HexRoundTrip(bs[1..]);
      Hex2Value(bs[0]);
      var h := ToHex(bs);
      assert h[..2] == Hex2(bs[0]) && h[2..] == ToHex(bs[1..]);
      assert h[0] == h[..2][0] && h[1] == h[..2][1];
      assert bs == [bs[0]] + bs[1..];
    }
  }

  lemma {:induction false} HexValue(bs: seq<byte>)
    ensures Value(16, ToHex(bs)) == FromBig(bs)
  {
    if bs != [] {
      var t, x := bs[..|bs| - 1], bs[|bs| - 1];
      HexValue(t);
      assert bs == t + [x];
      ToHexAppend(t, [x]);
      assert ToHex([x]) == Hex2(x);
      ValueAppend(16, ToHex(t), Hex2(x));
      Hex2Value(x);
      var v := Value(16, ToHex(t));
      assert Raise(16, v, 2) == Scale(16, Raise(16, v, 1)) == v * 256;
    }
  }

  lemma PairByte(s: string) returns (x: byte)
    requires IsPrinted(16, s) && |s| == 2
    ensures s == Hex2(x)
  {
    PrintedIsNumeral(16, s);
    hide IsPrinted, IsNumeral, Value, Fixed, Pow;
    ValueBound(16, s);
    FixedOfValue(16, s);
    PowersOfSixteen();
    x := Value(16, s);
  }

  /** The bytes that some printed hexadecimal text of even length stands for. */
  lemma {:induction false} HexBytes(s: string) returns (bs: seq<byte>)
    requires IsPrinted(16, s) && |s| % 2 == 0
    ensures s == ToHex(bs) && FromHex(s) == Ok(bs)
  {
    if s == "" {
      bs := [];
    } else {
      var rest := HexBytes(s[2..]);
      var x := PairByte(s[..2]);
      bs := [x] + rest;
      assert s == s[..2] + s[2..];
      assert s[..2] == Hex2(x);
      assert ToHex(bs) == Hex2(x) + ToHex(rest) by {
        assert bs[1..] == rest;
      }
      HexRoundTrip(bs);
    }
  }

  lemma {:induction false} FromHexAppend(s: string, t: string)
    requires FromHex(s).Ok? && FromHex(t).Ok?
    ensures FromHex(s + t) == Ok(FromHex(s).value + FromHex(t).value)
    decreases |s|
  {
    hide DigitValue;
    if s == "" {
      assert s + t == t && [] + FromHex(t).value == FromHex(t).value;
    } else {
      FromHexAppend(s[2..], t);
      assert (s + t)[2..] == s[2..] + t && (s + t)[0] == s[0] && (s + t)[1] == s[1];
      var x := [DigitValue(s[0]) * 16 + DigitValue(s[1])];
      assert x + (FromHex(s[2..]).value + FromHex(t).value) == x + FromHex(s[2..]).value + FromHex(t).value;
    }
  }

  lemma {:induction false} FromHexLength(s: string)
    ensures FromHex(s).Ok? ==> |s| == 2 * |FromHex(s).value|
    ensures FromHex(s).Ok? ==> IsNumeral(16, s)
    decreases |s|
  {
    if 2 <= |s| {
      FromHexLength(s[2..]);
      assert s == s[..2] + s[2..];
    }
  }

  /** s.lower() */
  function Lower(s: string): (r: string)
    ensures |r| == |s|
    ensures forall i :: 0 <= i < |s| ==> r[i] == LowerCase(s[i])
  {
    seq(|s|, i requires 0 <= i < |s| => LowerCase(s[i]))
  }

  function LowerCase(c: char): char {
    if 'A' <= c <= 'Z' then ('a' as int + (c as int - 'A' as int)) as char else c
  }

  /** Upper and lower case digits are read alike. */
  lemma {:induction false} FromHexLower(s: string)
    ensures FromHex(Lower(s)) == FromHex(s)
    decreases |s|
  {
    if 2 <= |s| {
      FromHexLower(s[2..]);
      assert Lower(s)[2..] == Lower(s[2..]);
    }
  }

  lemma LowerPrinted(s: string)
    ensures IsNumeral(16, s) <==> IsPrinted(16, Lower(s))
    ensures IsPrinted(16, s) ==> Lower(s) == s
  {
    assert forall i :: 0 <= i < |s| ==> DigitValue(Lower(s)[i]) == DigitValue(s[i]);
  }

  /** Only text of even length is accepted. */
  lemma {:induction false} OddHexRejected(s: string)
    requires |s| % 2 == 1
    ensures FromHex(s) == Err(ValueError)
  {
    if 1 < |s| {
      OddHexRejected(s[2..]);
    }
  }

  lemma {:induction false} NoSpacesAppend(s: string, t: string)
    ensures NoSpaces(s + t) == NoSpaces(s) + NoSpaces(t)
  {
    hide UnlessSpace;
    if s == "" {
      assert s + t == t;
    } else {
      NoSpacesAppend(s[1..], t);
      assert (s + t)[1..] == s[1..] + t;
      assert NoSpaces(s + t) == UnlessSpace(s[0]) + (NoSpaces(s[1..]) + NoSpaces(t));
    }
  }

  lemma {:induction false} NoSpacesSame(s: string)
    requires forall i :: 0 <= i < |s| ==> s[i] != ' '
    ensures NoSpaces(s) == s
  {
    if s != "" {
      NoSpacesSame(s[1..]);
    }
  }

  lemma {:induction false} SplitByteJoins(s: string)
    requires forall i :: 0 <= i < |s| ==> s[i] != ' '
    ensures NoSpaces(SplitByte(s)) == s
  {
    if |s| <= 2 {
      NoSpacesSame(s);
    } else {
      SplitByteJoins(s[2..]);
      NoSpacesAppend(s[..2] + " ", SplitByte(s[2..]));
      NoSpacesAppend(s[..2], " ");
      NoSpacesSame(s[..2]);
    }
  }

  /** "".join(s.split()) drops the spaces. */
  lemma {:induction false} ConcatSplit(s: string)
    ensures Concat(Split(s, {' '})) == NoSpaces(s)
  {
    if s != "" {
      ConcatSplit(s[1..]);
      var ts := Split(s[1..], {' '});
      if s[0] == ' ' {
        assert ([""] + ts)[1..] == ts;
      } else {
        assert ([[s[0]] + ts[0]] + ts[1..])[1..] == ts[1..];
      }
    }
  }

  lemma ConcatWords(s: string)
    ensures Concat(Words(s)) == NoSpaces(s)
  {
    ConcatSplit(s);
    ConcatNonEmpty(Split(s, {' '}));
  }
}
