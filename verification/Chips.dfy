/**
 Animal tags. An FDX-B chip is a 10-bit country and a 38-bit number (the ISO 11784 code
 structure), written "ccc.nnnnnnnnnnnn"; an HDX chip is ten hexadecimal digits. Feeders
 and cat flaps carry the 48 bits byte-reversed, pet doors bit-reversed.
 */
module Chips {
  import opened Arithmetic
  import opened Bytes
  import opened Numerals
  import opened Results
  import opened Texts

  /** Ten bits of country, 38 bits of number. */
  predicate IsChip(country: nat, number: nat) {
    country < 1024 && number < 0x40_0000_0000
  }

  /** The canonical text of a chip, as the decoders print it. */
  function ChipText(country: nat, number: nat): string {
    Numeral(10, country) + "." + ZFill(Numeral(10, number), 12)
  }

  function Bin(n: nat, fill: nat): string {
    ZFill(Numeral(2, n), fill)
  }

  /** The two numbers on either side of the dot. */
  function ParseChip(chip: string): Result<(nat, nat)> {
    var parts := Split(chip, {'.'});
    var country :- ParseInt(10, parts[0]);
    if |parts| < 2 then Err(IndexError) else
    var number :- ParseInt(10, parts[1]);
    Ok((country, number))
  }

  /** chiptohex */
  function ChipToHex(chip: string): Result<string> {
    if Contains(chip, ".") then
      var p :- ParseChip(chip);
      var bs :- Encode(Value(2, Bin(p.0, 10) + Bin(p.1, 38)), 6);
      Ok(Numeral(16, FromBig(bs)) + "01")
    else if |chip| == 10 then Ok(chip + "0003")
    else Ok("Error")
  }

  /** Country and number out of 48 bit characters; int skips the padding around the digits. */
  function ReadBits(bits: string): Result<string>
    requires 10 <= |bits|
  {
    var country :- ParseInt(2, bits[..10]);
    var number :- ParseInt(2, bits[10..]);
    Ok(ChipText(country, number))
  }

  /** bytestotag; None when the type byte is not known. */
  function BytesToTag(bs: seq<byte>): Result<Option<string>> {
    if |bs| != 7 then Ok(Some(ToHex(bs)))
    else if bs[6] == 0x01 then
      var tag := FromLittle(bs[..6]);
      if tag == 0 then Ok(Some("Empty")) else
      var text :- ReadBits(PadLeft(Numeral(2, tag), 48, ' '));
      Ok(Some(text))
    else if bs[6] == 0x03 then Ok(Some(ToHex(bs[..5])))
    else if bs[6] == 0x07 || bs[6] == 0x00 then Ok(Some("Empty"))
    else Ok(None)
  }

  /** doorchiptohex */
  function DoorChipToHex(chip: string): Result<string> {
    var p :- ParseChip(chip);
    Ok("01" + Numeral(16, Value(2, Reversed(Bin(p.0, 10) + Bin(p.1, 38)))))
  }

  /** doorhextochip */
  function DoorHexToChip(hex: string): Result<string> {
    var n :- ParseInt(16, hex);
    if n == 0 then Ok("Null") else
    var bs :- FromHex(hex);
    ReadBits(Reversed(PadLeft(Numeral(2, FromBig(bs)), 48, ' ')))
  }

  // ----- chip text

  lemma Widths()
    ensures Pow(2, 10) == 1024 && Pow(2, 38) == 0x40_0000_0000
    ensures Pow(2, 48) == 0x1_0000_0000_0000 == Pow(16, 12)
    ensures 0x40_0000_0000 < Pow(10, 12)
  {
    hide Pow;
    SmallWidths();
    PowAdd(2, 12, 12);
    PowAdd(2, 24, 12);
    PowAdd(2, 36, 2);
    PowAdd(2, 36, 12);
    PowAdd(16, 6, 6);
    PowAdd(10, 6, 6);
  }

  lemma SmallWidths()
    ensures Pow(2, 2) == 4 && Pow(2, 10) == 1024 && Pow(2, 12) == 0x1000
    ensures Pow(16, 6) == 0x100_0000 && Pow(10, 6) == 1000000
  {
  }

  lemma PrintedFree(s: string)
    requires IsPrinted(16, s)
    ensures Free(s, {'.'})
  {
    assert DigitValue('.') == 16;
  }

  lemma DecimalFree(s: string)
    requires IsPrinted(10, s)
    ensures Free(s, {'.'})
  {
    PrintedFree(s);
  }

  lemma ParseCanonical(country: nat, number: nat)
    requires number < 0x40_0000_0000
    ensures Contains(ChipText(country, number), ".")
    ensures ParseChip(ChipText(country, number)) == Ok((country, number))
  {
    hide Numeral, Fixed, Value, ZFill, Split, Contains, ParseInt, Pow;
    var c := Numeral(10, country);
    Widths();
    PaddedNumeral(10, number, 12);
    var n := Fixed(10, number, 12);
    DecimalFree(c);
    DecimalFree(n);
    ContainsMiddle(c, ".", n);
    SplitAppend(c, '.', n, {'.'});
    SplitFree(n, {'.'});
    ParsePrinted(10, c);
    ParsePrinted(10, n);
    ValueOfNumeral(10, country);
    ValueOfFixed(10, number, 12);
    LowSmall(10, number, 12);
  }

  function Packed(country: nat, number: nat): nat {
    country * 0x40_0000_0000 + number
  }

  lemma ChipBits(country: nat, number: nat)
    requires IsChip(country, number)
    ensures Bin(country, 10) == Fixed(2, country, 10) && Bin(number, 38) == Fixed(2, number, 38)
    ensures Bin(country, 10) + Bin(number, 38) == Fixed(2, Packed(country, number), 48)
    ensures Packed(country, number) < Pow(2, 48)
    ensures Value(2, Bin(country, 10) + Bin(number, 38)) == Packed(country, number)
  {
    Widths();
    hide Numeral, Fixed, Value, ZFill, Pow, Raise;
    PaddedNumeral(2, country, 10);
    PaddedNumeral(2, number, 38);
    FixedAppend(2, country, number, 10, 38);
    RaiseMul(2, country, 38);
    ValueOfFixed(2, Packed(country, number), 48);
    LowSmall(2, Packed(country, number), 48);
  }

  // ----- feeders and cat flaps

  /** hex() drops leading zeros, so all twelve digits are left exactly when the first is not 0. */
  lemma HexDigits(bs: seq<byte>)
    requires |bs| == 6
    ensures |Numeral(16, FromBig(bs))| <= 12
    ensures |Numeral(16, FromBig(bs))| == 12 <==> 16 <= bs[0]
    ensures 16 <= bs[0] ==> Numeral(16, FromBig(bs)) == ToHex(bs)
  {
    var h := ToHex(bs);
    ToHexPrinted(bs);
    HexValue(bs);
    Hex2Value(bs[0]);
    assert h[0] == Hex2(bs[0])[0];
    PrintedIsNumeral(16, h);
    hide *;
    ValueBound(16, h);
    LeadingDigit(16, h);
    NumeralFits(16, FromBig(bs), 12);
    NumeralFits(16, FromBig(bs), 11);
    if 16 <= bs[0] {
      NumeralOfValue(16, h);
    }
  }

  /** The low byte of the number is the first byte sent. */
  lemma FirstByte(n: nat)
    ensures ToLittle(n, 6)[0] == n % 256
  {
  }

  lemma ChipHexText(country: nat, number: nat)
    requires IsChip(country, number)
    ensures ChipToHex(ChipText(country, number))
         == Ok(Numeral(16, FromBig(ToLittle(Packed(country, number), 6))) + "01")
  {
    Widths();
    hide ChipText, ParseChip, Numeral, Value, Bin, Pow, ToLittle, FromBig;
    ParseCanonical(country, number);
    ChipBits(country, number);
  }

  /** The bits of a tag with a country: padding, country, number. */
  lemma TagBits(country: nat, number: nat)
    requires 1 <= country && IsChip(country, number)
    ensures var bits := PadLeft(Numeral(2, Packed(country, number)), 48, ' ');
            |bits| == 48 && bits[..10] == PadLeft(Numeral(2, country), 10, ' ') && bits[10..] == Fixed(2, number, 38)
  {
    Widths();
    hide Numeral, Fixed, Pow, Raise;
    NumeralAppend(2, country, number, 38);
    RaiseMul(2, country, 38);
    NumeralFits(2, country, 10);
    var s, t := Numeral(2, country), Fixed(2, number, 38);
    var z := seq(10 - |s|, _ => ' ');
    var bits := PadLeft(Numeral(2, Packed(country, number)), 48, ' ');
    assert bits == z + (s + t);
    assert bits == (z + s) + t;
  }

  lemma PadIsSpaces(s: string, w: nat)
    requires |s| <= w
    ensures PadLeft(s, w, ' ') == seq(w - |s|, _ => ' ') + s
  {
  }

  lemma ParseFixedBits(n: nat, w: nat)
    requires 1 <= w && n < Pow(2, w)
    ensures ParseInt(2, Fixed(2, n, w)) == Ok(n)
  {
    hide *;
    ParsePrinted(2, Fixed(2, n, w));
    ValueOfFixed(2, n, w);
    LowSmall(2, n, w);
  }

  lemma ReadTagBits(country: nat, number: nat)
    requires IsChip(country, number)
    ensures var bits := PadLeft(Numeral(2, Packed(country, number)), 48, ' ');
            ReadBits(bits) == if 1 <= country then Ok(ChipText(country, number)) else Err(ValueError)
  {
    Widths();
    hide Numeral, Fixed, Pow, Value, ParseInt, ChipText, PadLeft;
    var bits := PadLeft(Numeral(2, Packed(country, number)), 48, ' ');
    if 1 <= country {
      TagBits(country, number);
      NumeralFits(2, country, 10);
      PadIsSpaces(Numeral(2, country), 10);
      ParsePadded(2, Numeral(2, country), 10 - |Numeral(2, country)|);
      ValueOfNumeral(2, country);
      ParseFixedBits(number, 38);
    } else {
      NumeralFits(2, number, 38);
      PadIsSpaces(Numeral(2, number), 48);
      assert bits[..10] == seq(10, _ => ' ');
      ParseBlank(2, 10);
    }
  }

  /** An FDX-B chip is fourteen digits exactly when the low byte of its number is 0x10 or more. */
  lemma FdxLength(country: nat, number: nat)
    requires IsChip(country, number)
    ensures ChipToHex(ChipText(country, number)).Ok?
    ensures |ChipToHex(ChipText(country, number)).value| == 14 <==> 16 <= number % 256
    ensures |ChipToHex(ChipText(country, number)).value| <= 14
  {
    hide ChipText, ChipToHex, Numeral, ToLittle, FromBig;
    ChipHexText(country, number);
    var n := Packed(country, number);
    FirstByte(n);
    HexDigits(ToLittle(n, 6));
    PackedFacts(country, number);
  }

  /** Printing a chip and reading the bytes back. */
  ghost predicate TagReadsBack(chip: string) {
    match ChipToHex(chip)
    case Err(_) => false
    case Ok(hex) =>
      match FromHex(hex)
      case Err(_) => false
      case Ok(bs) => BytesToTag(bs) == Ok(Some(chip))
  }

  lemma TypeByte()
    ensures ToHex([1]) == "01"
  {
    SmallHex();
  }

  lemma FdxBytes(country: nat, number: nat)
    requires IsChip(country, number) && 16 <= number % 256
    ensures ChipToHex(ChipText(country, number)) == Ok(ToHex(ToLittle(Packed(country, number), 6) + [1]))
    ensures BytesToTag(ToLittle(Packed(country, number), 6) + [1])
         == if 1 <= country then Ok(Some(ChipText(country, number))) else Err(ValueError)
  {
    hide ChipText, ChipToHex, Numeral, ToHex, ReadBits, PadLeft, ToLittle, FromLittle, FromBig, Pow;
    var n := Packed(country, number);
    var bs := ToLittle(n, 6);
    Widths();
    FirstByte(n);
    PackedFacts(country, number);
    ChipHexText(country, number);
    HexDigits(bs);
    TypeByte();
    ToHexAppend(bs, [1]);
    LittleRoundTrip(n, 6);
    assert (bs + [1])[..6] == bs;
    ReadTagBits(country, number);
  }

  /** The command bytes of a chip: country times 2 to the 38 plus number, least significant byte first, and type 1. */
  lemma FdxWire(country: nat, number: nat) returns (bs: seq<byte>)
    requires IsChip(country, number) && 16 <= number % 256
    ensures ChipToHex(ChipText(country, number)).Ok? && FromHex(ChipToHex(ChipText(country, number)).value) == Ok(bs)
    ensures |bs| == 7 && FromLittle(bs[..6]) == country * 0x40_0000_0000 + number && bs[6] == 0x01
  {
    hide ChipText, ChipToHex, ToHex, BytesToTag, ToLittle, FromLittle, Pow;
    var n := Packed(country, number);
    FdxBytes(country, number);
    PackedFacts(country, number);
    Widths();
    bs := ToLittle(n, 6) + [1];
    HexRoundTrip(bs);
    LittleRoundTrip(n, 6);
    assert bs[..6] == ToLittle(n, 6);
  }

  /** "ccc.nnnnnnnnnnnn" */
  lemma ChipLayout(country: nat, number: nat)
    requires IsChip(country, number) && 100 <= country < 1000
    ensures var chip := ChipText(country, number);
            |chip| == 16 && chip[3] == '.' && Value(10, chip[..3]) == country && Value(10, chip[4..]) == number
  {
    hide Numeral, Fixed, Value, ZFill, Pow;
    var c := Numeral(10, country);
    Widths();
    ThreeDigits();
    PaddedNumeral(10, number, 12);
    NumeralFits(10, country, 3);
    NumeralFits(10, country, 2);
    ValueOfNumeral(10, country);
    ValueOfFixed(10, number, 12);
    LowSmall(10, number, 12);
    var chip := ChipText(country, number);
    assert chip[..3] == c && chip[4..] == Fixed(10, number, 12);
  }

  lemma ThreeDigits()
    ensures Pow(10, 2) == 100 && Pow(10, 3) == 1000
  {
  }

  lemma PackedFacts(country: nat, number: nat)
    requires IsChip(country, number)
    ensures Packed(country, number) < 0x1_0000_0000_0000
    ensures Packed(country, number) % 256 == number % 256
    ensures Packed(country, number) == 0 ==> number == 0
  {
  }

  /** An FDX-B chip survives the round trip exactly under these bounds. */
  lemma FdxRoundTrip(country: nat, number: nat)
    requires IsChip(country, number)
    ensures TagReadsBack(ChipText(country, number)) <==> 1 <= country && 16 <= number % 256
  {
    hide ChipText, ChipToHex, ToHex, BytesToTag, ToLittle;
    FdxLength(country, number);
    var chip := ChipText(country, number);
    var hex := ChipToHex(chip).value;
    if 16 <= number % 256 {
      FdxBytes(country, number);
      HexRoundTrip(ToLittle(Packed(country, number), 6) + [1]);
    } else if FromHex(hex).Ok? {
      FromHexLength(hex);
      ShortTag(FromHex(hex).value, country, number);
    }
  }

  /** Bytes of another length decode to text without a dot. */
  lemma ShortTag(bs: seq<byte>, country: nat, number: nat)
    requires |bs| != 7
    ensures BytesToTag(bs) != Ok(Some(ChipText(country, number)))
  {
    ToHexPrinted(bs);
    PrintedFree(ToHex(bs));
    var c := Numeral(10, country);
    assert ChipText(country, number)[|c|] == '.';
  }

  /** Reading bytes and printing the chip back. */
  ghost predicate BytesPrintBack(bs: seq<byte>) {
    match BytesToTag(bs)
    case Ok(Some(chip)) => ChipToHex(chip) == Ok(ToHex(bs))
    case _ => false
  }

  /** What FDX-B bytes decode to: nothing, an exception without a country, or the chip. */
  lemma FdxDecodes(bs: seq<byte>)
    requires |bs| == 7 && bs[6] == 1
    ensures var n := FromLittle(bs[..6]);
            && n < 0x1_0000_0000_0000 && n % 256 == bs[0] as int
            && BytesToTag(bs)
               == (if n == 0 then Ok(Some("Empty"))
                   else if n < 0x40_0000_0000 then Err(ValueError)
                   else Ok(Some(ChipText(n / 0x40_0000_0000, n % 0x40_0000_0000))))
  {
    hide ChipText, ToLittle, FromLittle, Pow, ReadBits, PadLeft, Numeral;
    Widths();
    LittleBytes(bs[..6]);
    var n := FromLittle(bs[..6]);
    FirstByte(n);
    ReadTagBits(n / 0x40_0000_0000, n % 0x40_0000_0000);
    assert Packed(n / 0x40_0000_0000, n % 0x40_0000_0000) == n;
  }

  lemma EmptyIsError()
    ensures ChipToHex("Empty") == Ok("Error")
  {
    assert Free("Empty", {'.'});
    ContainsNot("Empty", ".");
  }

  /** Conversely: seven FDX-B bytes are printed again exactly when they name a country and start with 0x10 or more. */
  lemma FdxBytesRoundTrip(bs: seq<byte>)
    requires |bs| == 7 && bs[6] == 1
    ensures BytesPrintBack(bs) <==> 0x10 <= bs[0] && 0x40_0000_0000 <= FromLittle(bs[..6])
  {
    hide ChipText, ChipToHex, ToHex, BytesToTag, ToLittle, FromLittle, Pow;
    var n := FromLittle(bs[..6]);
    var country, number := n / 0x40_0000_0000, n % 0x40_0000_0000;
    FdxDecodes(bs);
    LowByte(n);
    if n == 0 {
      EmptyIsError();
      assert |ToHex(bs)| == 14;
    } else if 0x40_0000_0000 <= n {
      FdxLength(country, number);
      if 0x10 <= bs[0] {
        Widths();
        LittleBytes(bs[..6]);
        FdxBytes(country, number);
        assert bs == bs[..6] + [1];
      }
    }
  }

  lemma LowByte(n: nat)
    ensures n % 0x40_0000_0000 % 256 == n % 256
  {
  }

  /** An HDX chip, ten printed digits, reads back as itself. */
  lemma HdxRoundTrip(chip: string)
    requires |chip| == 10 && IsPrinted(16, chip)
    ensures TagReadsBack(chip)
  {
    PrintedFree(chip);
    ContainsNot(chip, ".");
    var cs := HexBytes(chip);
    HdxSuffix(cs);
    HexRoundTrip(cs + [0, 3]);
    assert (cs + [0, 3])[..5] == cs;
  }

  /** What bytes decode to is printed hexadecimal, Empty, a chip with a dot, or nothing. */
  lemma TagKinds(bs: seq<byte>, chip: string)
    requires BytesToTag(bs) == Ok(Some(chip))
    ensures IsPrinted(16, chip) || chip == "Empty" || Contains(chip, ".")
  {
    if |bs| == 7 && bs[6] == 1 {
      FdxDecodes(bs);
      var n := FromLittle(bs[..6]);
      ChipHasDot(n / 0x40_0000_0000, n % 0x40_0000_0000);
    } else {
      hide IsPrinted, Contains;
      ToHexPrinted(bs);
      if |bs| == 7 {
        ToHexPrinted(bs[..5]);
      }
    }
  }

  lemma ChipHasDot(country: nat, number: nat)
    ensures Contains(ChipText(country, number), ".")
  {
    hide *;
    ChipTextParts(country, number);
    ContainsMiddle(Numeral(10, country), ".", ZFill(Numeral(10, number), 12));
  }

  lemma ChipTextParts(country: nat, number: nat)
    ensures ChipText(country, number) == Numeral(10, country) + "." + ZFill(Numeral(10, number), 12)
  {
  }

  /** Ten characters without a dot read back as themselves exactly when they are lower-case hexadecimal digits. */
  lemma HdxExact(chip: string)
    requires |chip| == 10 && !Contains(chip, ".")
    ensures TagReadsBack(chip) <==> IsPrinted(16, chip)
  {
    if IsPrinted(16, chip) {
      HdxRoundTrip(chip);
    } else if TagReadsBack(chip) {
      hide IsPrinted, Contains, BytesToTag, FromHex;
      TagKinds(FromHex(ChipToHex(chip).value).value, chip);
    }
  }

  lemma HdxSuffix(cs: seq<byte>)
    ensures ToHex(cs + [0, 3]) == ToHex(cs) + "0003"
  {
    hide Hex2, IsPrinted;
    ToHexAppend(cs, [0, 3]);
    SmallHex();
    assert [0, 3][1..] == [3];
    assert ToHex([3]) == Hex2(3);
  }

  lemma SmallHex()
    ensures Hex2(0) == "00" && Hex2(1) == "01" && Hex2(3) == "03"
  {
    FixedSnoc(16, 0, 0);
    FixedSnoc(16, 0, 1);
    FixedSnoc(16, 1, 1);
    FixedSnoc(16, 3, 1);
  }

  /** Seven HDX bytes are printed again exactly when the byte before the type is 0. */
  lemma HdxBytesRoundTrip(bs: seq<byte>)
    requires |bs| == 7 && bs[6] == 3
    ensures BytesToTag(bs) == Ok(Some(ToHex(bs[..5])))
    ensures ChipToHex(ToHex(bs[..5])) == Ok(ToHex(bs)) <==> bs[5] == 0
  {
    var cs := bs[..5];
    ToHexPrinted(cs);
    PrintedFree(ToHex(cs));
    ContainsNot(ToHex(cs), ".");
    HdxSuffix(cs);
    HexRoundTrip(bs);
    HexRoundTrip(cs + [0, 3]);
    assert bs == cs + [bs[5], bs[6]];
  }

  // ----- pet doors

  function TrailingZeros(n: nat): nat
    requires 0 < n
  {
    if n % 2 == 1 then 0 else 1 + TrailingZeros(n / 2)
  }

  /** n with its trailing zero bits shifted out. */
  function Odd(n: nat): (r: nat)
    requires 0 < n
    ensures 0 < r <= n && r % 2 == 1
    ensures r == n <==> n % 2 == 1
  {
    if n % 2 == 1 then n else Odd(n / 2)
  }

  lemma {:induction false} TrailingBits(n: nat, w: nat)
    requires 0 < n < Pow(2, w)
    ensures TrailingZeros(n) < w
    ensures Fixed(2, n, w) == Fixed(2, Odd(n), w - TrailingZeros(n)) + seq(TrailingZeros(n), _ => '0')
    ensures Odd(n) < Pow(2, w - TrailingZeros(n))
  {
    if n % 2 == 0 {
      TrailingBits(n / 2, w - 1);
      assert Fixed(2, n, w) == Fixed(2, n / 2, w - 1) + "0";
    }
  }

  lemma OddBits(n: nat, w: nat)
    requires 1 <= w && n % 2 == 1
    ensures Fixed(2, n, w)[w - 1] == '1'
  {
    FixedSnoc(2, n, w - 1);
  }

  lemma {:induction false} ReversedPrinted(s: string)
    requires IsPrinted(2, s)
    ensures IsPrinted(2, Reversed(s))
  {
  }

  /** Leading zeros do not count. */
  lemma ZerosValue(b: base, k: nat, s: string)
    ensures Value(b, seq(k, _ => '0') + s) == Value(b, s)
  {
    hide *;
    ValueOfZeros(b, k);
    ValueAppend(b, seq(k, _ => '0'), s);
    RaiseZero(b, |s|);
  }

  /** The digits the door prints: the reversed bits from the last 1 of the number on. */
  lemma DoorValue(head: string, tz: nat)
    requires IsPrinted(2, head) && head != "" && head[|head| - 1] == '1'
    ensures Numeral(2, Value(2, Reversed(head + seq(tz, _ => '0')))) == Reversed(head)
    ensures 0 < Value(2, Reversed(head + seq(tz, _ => '0')))
  {
    var t := Reversed(head);
    ReversedPrinted(head);
    assert t[0] == '1';
    hide Value, Numeral, Pow, Reversed, IsPrinted;
    ReversedAppend(head, seq(tz, _ => '0'));
    ReversedConstant(tz, '0');
    ZerosValue(2, tz, t);
    NumeralOfValue(2, t);
    LeadingDigit(2, t);
  }

  /** A number's hexadecimal digits, counted in bits. */
  lemma NibbleCount(n: nat)
    requires 0 < n
    ensures |Numeral(16, n)| == (|Numeral(2, n)| + 3) / 4
    decreases n
  {
    if n < 16 {
      if 2 <= n { assert Numeral(2, n) == Numeral(2, n / 2) + [DigitChar(n % 2)]; }
      if 4 <= n { assert |Numeral(2, n / 2)| == |Numeral(2, n / 4)| + 1 by { assert n / 2 / 2 == n / 4; } }
      if 8 <= n { assert |Numeral(2, n / 4)| == |Numeral(2, n / 8)| + 1 by { assert n / 4 / 2 == n / 8; } }
    } else {
      NibbleCount(n / 16);
      assert |Numeral(2, n)| == |Numeral(2, n / 2)| + 1;
      assert |Numeral(2, n / 2)| == |Numeral(2, n / 4)| + 1 by { assert n / 2 / 2 == n / 4; }
      assert |Numeral(2, n / 4)| == |Numeral(2, n / 8)| + 1 by { assert n / 4 / 2 == n / 8; }
      assert |Numeral(2, n / 8)| == |Numeral(2, n / 16)| + 1 by { assert n / 8 / 2 == n / 16; }
    }
  }

  lemma PaddedReversal(head: string)
    requires |head| <= 48
    ensures Reversed(PadLeft(Reversed(head), 48, ' ')) == head + seq(48 - |head|, _ => ' ')
  {
    hide Reversed, PadLeft;
    var z := seq(48 - |head|, _ => ' ');
    PadIsSpaces(Reversed(head), 48);
    ReversedAppend(z, Reversed(head));
    ReversedTwice(head);
    ReversedConstant(48 - |head|, ' ');
  }

  lemma NumberOfHex(v: nat)
    requires 0 < v
    ensures ParseInt(16, Numeral(16, v)) == Ok(v)
    ensures |Numeral(16, v)| == (|Numeral(2, v)| + 3) / 4
    ensures |Numeral(16, v)| % 2 == 0 ==> FromHex(Numeral(16, v)).Ok? && FromBig(FromHex(Numeral(16, v)).value) == v
    ensures |Numeral(16, v)| % 2 == 1 ==> FromHex(Numeral(16, v)) == Err(ValueError)
  {
    var hex := Numeral(16, v);
    NibbleCount(v);
    hide Numeral, Value, ParseInt, FromHex, FromBig;
    ParsePrinted(16, hex);
    ValueOfNumeral(16, v);
    if |hex| % 2 == 0 {
      var bs := HexBytes(hex);
      HexValue(bs);
    } else {
      OddHexRejected(hex);
    }
  }

  /** What the door decoder makes of the digits of v, given the bits of v. */
  lemma DoorDecode(v: nat, head: string)
    requires 0 < v && Numeral(2, v) == Reversed(head) && |head| <= 48
    ensures var hex := Numeral(16, v);
            DoorHexToChip(hex) == if |hex| % 2 == 0 then ReadBits(head + seq(48 - |head|, _ => ' ')) else Err(ValueError)
    ensures |Numeral(16, v)| == (|head| + 3) / 4
  {
    hide Numeral, Reversed, ParseInt, FromHex, FromBig, PadLeft, ReadBits;
    NumberOfHex(v);
    PaddedReversal(head);
  }

  lemma DoorHex(country: nat, number: nat)
    requires IsChip(country, number)
    ensures DoorChipToHex(ChipText(country, number))
         == Ok("01" + Numeral(16, Value(2, Reversed(Fixed(2, country, 10) + Fixed(2, number, 38)))))
  {
    hide ChipText, ParseChip, Numeral, Value, Bin, Fixed, Reversed;
    ParseCanonical(country, number);
    ChipBits(country, number);
  }

  /** Reading country and odd part, with the trailing zeros blanked out. */
  lemma ReadDoorBits(country: nat, odd: nat, tz: nat)
    requires country < 1024 && tz < 38 && odd < Pow(2, 38 - tz)
    ensures ReadBits(Fixed(2, country, 10) + Fixed(2, odd, 38 - tz) + seq(tz, _ => ' ')) == Ok(ChipText(country, odd))
  {
    Widths();
    hide ChipText, Fixed, ParseInt, Pow, Value;
    var c, n := Fixed(2, country, 10), Fixed(2, odd, 38 - tz);
    var bits := c + n + seq(tz, _ => ' ');
    assert bits[..10] == c && bits[10..] == n + seq(tz, _ => ' ');
    ParseFixedBits(country, 10);
    ParseFixedBits(odd, 38 - tz);
    ParsePrinted(2, n);
    ParsePadded(2, n, tz);
  }

  /** The digits printed for a number whose bits end in tz zeros after a 1. */
  lemma DoorDigits(country: nat, number: nat)
    requires IsChip(country, number) && 0 < number
    ensures TrailingZeros(number) < 38 && Odd(number) < Pow(2, 38 - TrailingZeros(number))
    ensures var head := Fixed(2, country, 10) + Fixed(2, Odd(number), 38 - TrailingZeros(number));
            var v := Value(2, Reversed(Fixed(2, country, 10) + Fixed(2, number, 38)));
            0 < v && Numeral(2, v) == Reversed(head)
  {
    hide Numeral, Value, Fixed, Reversed, TrailingZeros, Odd, Pow, IsPrinted;
    var tz, odd := TrailingZeros(number), Odd(number);
    Widths();
    TrailingBits(number, 38);
    OddBits(odd, 38 - tz);
    var c, n := Fixed(2, country, 10), Fixed(2, odd, 38 - tz);
    PrintedAppend(2, c, n);
    assert c + Fixed(2, number, 38) == c + n + seq(tz, _ => '0');
    DoorValue(c + n, tz);
  }

  /**
   A door chip with a nonzero number: the decoder accepts the hex exactly when the trailing
   zeros of the number leave an even count of digits, and then shifts those zeros out.
   */
  lemma DoorRoundTrip(country: nat, number: nat)
    requires IsChip(country, number) && 0 < number
    ensures DoorChipToHex(ChipText(country, number)).Ok? && 2 <= |DoorChipToHex(ChipText(country, number)).value|
    ensures DoorChipToHex(ChipText(country, number)).value[..2] == "01"
    ensures var hex := DoorChipToHex(ChipText(country, number)).value;
            DoorHexToChip(hex[2..])
            == if TrailingZeros(number) % 8 < 4 then Ok(ChipText(country, Odd(number))) else Err(ValueError)
  {
    hide ChipText, DoorChipToHex, Numeral, Value, Fixed, Reversed, DoorHexToChip, TrailingZeros, Odd, Pow;
    var tz, odd := TrailingZeros(number), Odd(number);
    DoorHex(country, number);
    DoorDigits(country, number);
    var head := Fixed(2, country, 10) + Fixed(2, odd, 38 - tz);
    var v := Value(2, Reversed(Fixed(2, country, 10) + Fixed(2, number, 38)));
    DoorDecode(v, head);
    assert ("01" + Numeral(16, v))[2..] == Numeral(16, v);
    ReadDoorBits(country, odd, tz);
  }

  /** With number 0 nothing is left to read: the decoder reports no chip or raises. */
  lemma DoorZero(country: nat)
    requires IsChip(country, 0)
    ensures DoorChipToHex(ChipText(country, 0)).Ok? && 2 <= |DoorChipToHex(ChipText(country, 0)).value|
    ensures var hex := DoorChipToHex(ChipText(country, 0)).value;
            DoorHexToChip(hex[2..]) == if country == 0 then Ok("Null") else Err(ValueError)
  {
    hide ChipText, DoorChipToHex, Numeral, Value, Fixed, Reversed, DoorHexToChip, Pow;
    Widths();
    DoorHex(country, 0);
    ZeroBits(38);
    var bits := Fixed(2, country, 10) + seq(38, _ => '0');
    var v := Value(2, Reversed(bits));
    assert ("01" + Numeral(16, v))[2..] == Numeral(16, v);
    if country == 0 {
      ZeroBits(10);
      assert bits == seq(48, _ => '0');
      ReversedConstant(48, '0');
      ValueOfZeros(2, 48);
      NullChip();
    } else {
      BlankNumber(country, v);
    }
  }

  lemma NullChip()
    ensures DoorHexToChip(Numeral(16, 0)) == Ok("Null")
  {
    ParsePrinted(16, "0");
  }

  lemma BlankNumber(country: nat, v: nat)
    requires 0 < country < 1024
    requires v == Value(2, Reversed(Fixed(2, country, 10) + seq(38, _ => '0')))
    ensures DoorHexToChip(Numeral(16, v)) == Err(ValueError)
  {
    hide Numeral, Value, Fixed, Reversed, DoorHexToChip, TrailingZeros, Odd, ParseInt, Pow, IsPrinted;
    var tz := TrailingZeros(country);
    Widths();
    TrailingBits(country, 10);
    OddBits(Odd(country), 10 - tz);
    var head := Fixed(2, Odd(country), 10 - tz);
    assert Fixed(2, country, 10) + seq(38, _ => '0') == head + seq(tz + 38, _ => '0');
    DoorValue(head, tz + 38);
    DoorDecode(v, head);
    var bits := head + seq(48 - |head|, _ => ' ');
    assert bits[10..] == seq(38, _ => ' ');
    ParseBlank(2, 38);
    ParseIntFails(2, bits[..10]);
  }

  lemma ParseIntFails(b: base, s: string)
    ensures ParseInt(b, s).Err? ==> ParseInt(b, s) == Err(ValueError)
  {
  }

  lemma {:induction false} ZeroBits(w: nat)
    ensures Fixed(2, 0, w) == seq(w, _ => '0')
  {
    if w != 0 {
      ZeroBits(w - 1);
    }
  }

  ghost predicate DoorReadsBack(chip: string) {
    match DoorChipToHex(chip)
    case Err(_) => false
    case Ok(hex) => 2 <= |hex| && DoorHexToChip(hex[2..]) == Ok(chip)
  }

  /** A door chip survives the round trip exactly when its number is odd. */
  lemma DoorExact(country: nat, number: nat)
    requires IsChip(country, number)
    ensures DoorReadsBack(ChipText(country, number)) <==> number % 2 == 1
  {
    hide ChipText, DoorHexToChip, DoorChipToHex, TrailingZeros, Odd;
    if number == 0 {
      DoorZero(country);
      NullIsNoChip();
    } else {
      DoorRoundTrip(country, number);
      OddOrNot(number);
      SameChip(country, Odd(number), number);
    }
  }

  lemma NullIsNoChip()
    ensures ChipText(0, 0) != "Null"
  {
    assert ChipText(0, 0)[1] == '.';
  }

  lemma OddOrNot(n: nat)
    requires 0 < n
    ensures n % 2 == 1 ==> TrailingZeros(n) == 0
  {
  }

  lemma SameChip(country: nat, m: nat, n: nat)
    requires m < 0x40_0000_0000 && n < 0x40_0000_0000
    ensures ChipText(country, m) == ChipText(country, n) ==> m == n
  {
    hide ChipText, ParseChip;
    ParseCanonical(country, m);
    ParseCanonical(country, n);
  }
}
