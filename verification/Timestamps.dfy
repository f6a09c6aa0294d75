/**
 The 32-bit device timestamp: six bit fields of 6, 4, 5, 5, 6 and 6 bits, packed most
 significant first and sent little-endian, and its text "20yy-mm-dd hh:mm:ss".
 */
module Timestamps {
  import opened Arithmetic
  import opened Bytes
  import opened Numerals
  import opened Results
  import opened Texts

  /** The year counts from 2000. */
  datatype Stamp = Stamp(year: nat, month: nat, day: nat, hour: nat, minute: nat, second: nat)

  /** Every field fits its bits. */
  predicate InRange(t: Stamp) {
    t.year < 64 && t.month < 16 && t.day < 32 && t.hour < 32 && t.minute < 64 && t.second < 64
  }

  /** bit2int: a slice of a bit string, printed in decimal. */
  function Bit2Int(number: string, start: nat, bitlen: nat, fill: nat): string
    requires start + bitlen <= |number|
  {
    ZFill(Numeral(10, Value(2, number[start..start + bitlen])), fill)
  }

  /** int2bit of a number. */
  function Int2Bit(number: nat, fill: nat): (s: string)
    ensures |s| >= fill
  {
    ZFill(Numeral(2, number), fill)
  }

  /** devicetimestamptostring */
  function ToText(bs: seq<byte>): string {
    var bits := ZFill(Numeral(2, FromLittle(bs)), 32);
    "20" + Bit2Int(bits, 0, 6, 2) + "-" + Bit2Int(bits, 6, 4, 2) + "-" + Bit2Int(bits, 10, 5, 2)
    + " " + Bit2Int(bits, 15, 5, 2) + ":" + Bit2Int(bits, 20, 6, 2) + ":" + Bit2Int(bits, 26, 6, 2)
  }

  function Bits(t: Stamp): string {
    Int2Bit(t.year, 6) + Int2Bit(t.month, 4) + Int2Bit(t.day, 5)
    + Int2Bit(t.hour, 5) + Int2Bit(t.minute, 6) + Int2Bit(t.second, 6)
  }

  /** devicetimestampfromnow: int(bits, 2).to_bytes(4, 'little'), before it is printed in hex. */
  function Encoded(t: Stamp): Result<seq<byte>> {
    Encode(Value(2, Bits(t)), 4)
  }

  /** devicetimestampfromstring: split, keep two digits of the year, pack and print in hex. */
  function FromText(s: string): Result<string> {
    var parts := Split(s, {'-', ' ', ':'});
    if |parts| < 6 then Err(IndexError) else
    var year := if |parts[0]| <= 2 then parts[0] else parts[0][|parts[0]| - 2..];
    var y :- ParseInt(10, year);
    var mo :- ParseInt(10, parts[1]);
    var d :- ParseInt(10, parts[2]);
    var h :- ParseInt(10, parts[3]);
    var mi :- ParseInt(10, parts[4]);
    var se :- ParseInt(10, parts[5]);
    var bs :- Encoded(Stamp(y, mo, d, h, mi, se));
    Ok(ToHex(bs))
  }

  // ----- reference definitions

  function Packed(t: Stamp): nat {
    ((((t.year * 16 + t.month) * 32 + t.day) * 32 + t.hour) * 64 + t.minute) * 64 + t.second
  }

  function Unpacked(n: nat): Stamp {
    Stamp(n / 0x400_0000 % 64, n / 0x40_0000 % 16, n / 0x2_0000 % 32, n / 0x1000 % 32, n / 64 % 64, n % 64)
  }

  function TwoDigits(n: nat): (s: string)
    ensures |s| == 2 && IsPrinted(10, s)
  {
    Fixed(10, n, 2)
  }

  function Text(t: Stamp): string {
    "20" + TwoDigits(t.year) + "-" + TwoDigits(t.month) + "-" + TwoDigits(t.day)
    + " " + TwoDigits(t.hour) + ":" + TwoDigits(t.minute) + ":" + TwoDigits(t.second)
  }

  /** Calendar order, field by field. */
  predicate Before(a: Stamp, b: Stamp) {
    a.year < b.year || (a.year == b.year && (
    a.month < b.month || (a.month == b.month && (
    a.day < b.day || (a.day == b.day && (
    a.hour < b.hour || (a.hour == b.hour && (
    a.minute < b.minute || (a.minute == b.minute && a.second < b.second)))))))))
  }

  // ----- bit fields

  lemma Powers()
    ensures Pow(2, 4) == 16 && Pow(2, 5) == 32 && Pow(2, 6) == 64 && Pow(2, 12) == 4096
    ensures Pow(2, 17) == 0x2_0000 && Pow(2, 22) == 0x40_0000 && Pow(2, 26) == 0x400_0000
    ensures Pow(2, 32) == 0x1_0000_0000 == Pow(16, 8) && Pow(10, 2) == 100
    ensures Pow(2, 0) == 1
  {
  }

  lemma RaiseBits(v: nat)
    ensures Raise(2, v, 4) == v * 16 && Raise(2, v, 5) == v * 32 && Raise(2, v, 6) == v * 64
  {
    Powers();
    RaiseMul(2, v, 4);
    RaiseMul(2, v, 5);
    RaiseMul(2, v, 6);
  }

  lemma AppendField(bits: string, v: nat, j: nat, f: nat, k: nat)
    requires bits == Fixed(2, v, j) && 1 <= k && f < Pow(2, k)
    ensures bits + Int2Bit(f, k) == Fixed(2, Raise(2, v, k) + f, j + k)
  {
    hide *;
    PaddedNumeral(2, f, k);
    Int2BitIsZFill(f, k);
    FixedAppend(2, v, f, j, k);
  }

  lemma Int2BitIsZFill(f: nat, k: nat)
    ensures Int2Bit(f, k) == ZFill(Numeral(2, f), k)
  {
  }

  lemma Int2BitValue(n: nat, k: nat)
    ensures Value(2, Int2Bit(n, k)) == n
  {
    hide Value, Numeral, Raise;
    var s := Numeral(2, n);
    ValueOfNumeral(2, n);
    if |s| < k {
      ValueOfZeros(2, k - |s|);
      ValueAppend(2, seq(k - |s|, _ => '0'), s);
      RaiseZero(2, |s|);
    }
  }

  /** Laid side by side, fields in range are the bits of the packed number. */
  lemma BitsPacked(t: Stamp)
    requires InRange(t)
    ensures Bits(t) == Fixed(2, Packed(t), 32) && Value(2, Bits(t)) == Packed(t) < 0x1_0000_0000
  {
    hide Fixed, Numeral, ZFill, Pow, Raise, Int2Bit, Value;
    Powers();
    var y := t.year;
    PaddedNumeral(2, y, 6);
    Int2BitIsZFill(y, 6);
    var b0 := Int2Bit(y, 6);
    AppendField(b0, y, 6, t.month, 4);
    RaiseBits(y);
    var v1 := y * 16 + t.month;
    AppendField(b0 + Int2Bit(t.month, 4), v1, 10, t.day, 5);
    RaiseBits(v1);
    var v2 := v1 * 32 + t.day;
    AppendField(b0 + Int2Bit(t.month, 4) + Int2Bit(t.day, 5), v2, 15, t.hour, 5);
    RaiseBits(v2);
    var v3 := v2 * 32 + t.hour;
    AppendField(b0 + Int2Bit(t.month, 4) + Int2Bit(t.day, 5) + Int2Bit(t.hour, 5), v3, 20, t.minute, 6);
    RaiseBits(v3);
    var v4 := v3 * 64 + t.minute;
    AppendField(b0 + Int2Bit(t.month, 4) + Int2Bit(t.day, 5) + Int2Bit(t.hour, 5) + Int2Bit(t.minute, 6),
                v4, 26, t.second, 6);
    RaiseBits(v4);
    ValueOfFixed(2, Packed(t), 32);
    LowSmall(2, Packed(t), 32);
  }

  lemma Field(n: nat, start: nat, bitlen: nat)
    requires start + bitlen <= 32
    ensures Value(2, Fixed(2, n, 32)[start..start + bitlen]) == n / Pow(2, 32 - start - bitlen) % Pow(2, bitlen)
  {
    hide *;
    FixedSlice(2, n, 32, start, start + bitlen);
    HighLow(2, n, 32 - start - bitlen);
    HighLow(2, High(2, n, 32 - start - bitlen), bitlen);
  }

  lemma TwoDigitField(n: nat, start: nat, bitlen: nat)
    requires start + bitlen <= 32 && 4 <= bitlen <= 6
    ensures Bit2Int(Fixed(2, n, 32), start, bitlen, 2)
         == TwoDigits(n / Pow(2, 32 - start - bitlen) % Pow(2, bitlen))
  {
    hide Fixed, Numeral, ZFill, Pow, Value;
    Powers();
    Field(n, start, bitlen);
    var v := n / Pow(2, 32 - start - bitlen) % Pow(2, bitlen);
    assert v < 100;
    PaddedNumeral(10, v, 2);
  }

  /** What the decoder prints are the arithmetic fields of the little-endian number. */
  lemma ToTextFields(bs: seq<byte>)
    requires |bs| == 4
    ensures FromLittle(bs) < 0x1_0000_0000
    ensures ToText(bs) == Text(Unpacked(FromLittle(bs)))
  {
    hide Fixed, Numeral, ZFill, Pow, Value, FromLittle, Bit2Int;
    var n := FromLittle(bs);
    Powers();
    LittleBytes(bs);
    PaddedNumeral(2, n, 32);
    TwoDigitField(n, 0, 6);
    TwoDigitField(n, 6, 4);
    TwoDigitField(n, 10, 5);
    TwoDigitField(n, 15, 5);
    TwoDigitField(n, 20, 6);
    TwoDigitField(n, 26, 6);
    assert n / 1 == n;
  }

  // ----- text

  lemma DigitsFree(s: string)
    requires IsPrinted(10, s)
    ensures Free(s, {'-', ' ', ':'})
  {
    assert DigitValue('-') == 16 && DigitValue(' ') == 16 && DigitValue(':') == 16;
  }

  /** Six numbers with separators: Text has "-", " " and ":", a strftime with spaces has " ". */
  function Separated(year: string, t: Stamp, a: string, b: string, c: string): string {
    year + a + TwoDigits(t.month) + a + TwoDigits(t.day)
    + b + TwoDigits(t.hour) + c + TwoDigits(t.minute) + c + TwoDigits(t.second)
  }

  predicate IsSeparator(s: string) {
    s == "-" || s == " " || s == ":"
  }

  lemma JoinSix(y: string, mo: string, d: string, h: string, mi: string, s: string, a: string, b: string, c: string)
    ensures y + a + mo + a + d + b + h + c + mi + c + s
         == y + a + (mo + a + (d + b + (h + c + (mi + c + s))))
  {
  }

  lemma SplitSeparated(year: string, t: Stamp, a: string, b: string, c: string)
    requires IsPrinted(10, year) && IsSeparator(a) && IsSeparator(b) && IsSeparator(c)
    ensures Split(Separated(year, t, a, b, c), {'-', ' ', ':'})
         == [year, TwoDigits(t.month), TwoDigits(t.day),
             TwoDigits(t.hour), TwoDigits(t.minute), TwoDigits(t.second)]
  {
    hide Fixed, Split, Free, IsPrinted, TwoDigits;
    var seps := {'-', ' ', ':'};
    var mo, d := TwoDigits(t.month), TwoDigits(t.day);
    var h, mi, s := TwoDigits(t.hour), TwoDigits(t.minute), TwoDigits(t.second);
    DigitsFree(year);
    DigitsFree(mo);
    DigitsFree(d);
    DigitsFree(h);
    DigitsFree(mi);
    DigitsFree(s);
    JoinSix(year, mo, d, h, mi, s, a, b, c);
    var t4 := mi + c + s;
    var t3 := h + c + t4;
    var t2 := d + b + t3;
    var t1 := mo + a + t2;
    assert a == [a[0]] && b == [b[0]] && c == [c[0]];
    SplitAppend(year, a[0], t1, seps);
    SplitAppend(mo, a[0], t2, seps);
    SplitAppend(d, b[0], t3, seps);
    SplitAppend(h, c[0], t4, seps);
    SplitAppend(mi, c[0], s, seps);
    SplitFree(s, seps);
  }

  lemma ParseTwoDigits(n: nat)
    requires n < 100
    ensures ParseInt(10, TwoDigits(n)) == Ok(n)
  {
    hide Fixed, ParseInt, Value;
    Powers();
    ParsePrinted(10, TwoDigits(n));
    ValueOfFixed(10, n, 2);
    LowSmall(10, n, 2);
  }

  lemma ParseSeparated(prefix: string, t: Stamp, a: string, b: string, c: string)
    requires InRange(t) && IsPrinted(10, prefix) && IsSeparator(a) && IsSeparator(b) && IsSeparator(c)
    ensures FromText(Separated(prefix + TwoDigits(t.year), t, a, b, c))
         == match Encoded(t) { case Ok(bs) => Ok(ToHex(bs)) case Err(e) => Err(e) }
  {
    hide Fixed, ParseInt, Split, Encoded, ToHex, Separated, IsSeparator;
    var y := prefix + TwoDigits(t.year);
    PrintedAppend(10, prefix, TwoDigits(t.year));
    SplitSeparated(y, t, a, b, c);
    ParseTwoDigits(t.year);
    ParseTwoDigits(t.month);
    ParseTwoDigits(t.day);
    ParseTwoDigits(t.hour);
    ParseTwoDigits(t.minute);
    ParseTwoDigits(t.second);
    assert y[|y| - 2..] == TwoDigits(t.year);
    if |y| <= 2 {
      assert y == TwoDigits(t.year);
    }
  }

  lemma ParseText(t: Stamp)
    requires InRange(t)
    ensures FromText(Text(t)) == match Encoded(t) { case Ok(bs) => Ok(ToHex(bs)) case Err(e) => Err(e) }
  {
    hide FromText, Encoded, TwoDigits, ToHex;
    assert IsPrinted(10, "20");
    ParseSeparated("20", t, "-", " ", ":");
    assert Text(t) == Separated("20" + TwoDigits(t.year), t, "-", " ", ":");
  }

  // ----- main results

  /** Every field tuple in range is encoded, and decodes to its text, which encodes back. */
  lemma StampRoundTrip(t: Stamp) returns (bs: seq<byte>)
    requires InRange(t)
    ensures |bs| == 4 && Encoded(t) == Ok(bs) && FromLittle(bs) == Packed(t)
    ensures ToText(bs) == Text(t)
    ensures FromText(Text(t)) == Ok(ToHex(bs))
  {
    hide Bits, FromLittle, ToLittle, ToText, FromText, Text, Pow, Value;
    BitsPacked(t);
    Powers();
    bs := ToLittle(Packed(t), 4);
    LittleRoundTrip(Packed(t), 4);
    ToTextFields(bs);
    UnpackPacked(t);
    ParseText(t);
  }

  /** The packed number by the weights of its fields: 26, 22, 17, 12, 6 and 0 bits. */
  lemma PackedSum(t: Stamp)
    ensures Packed(t) == t.year * 0x400_0000 + t.month * 0x40_0000 + t.day * 0x2_0000 + t.hour * 0x1000 + t.minute * 64 + t.second
  {
  }

  /** Where each field stands in the text that a device's four bytes are decoded to: "20yy-mm-dd hh:mm:ss". */
  lemma TextLayout(t: Stamp, bs: seq<byte>)
    requires InRange(t) && Encoded(t) == Ok(bs)
    ensures var s := ToText(bs);
            && |s| == 19 && s[..2] == "20" && s[4] == '-' == s[7] && s[10] == ' ' && s[13] == ':' == s[16]
            && Value(10, s[2..4]) == t.year && Value(10, s[5..7]) == t.month && Value(10, s[8..10]) == t.day
            && Value(10, s[11..13]) == t.hour && Value(10, s[14..16]) == t.minute && Value(10, s[17..]) == t.second
  {
    hide TwoDigits, Encoded, ToText, FromText, Packed, Value;
    var cs := StampRoundTrip(t);
    var s := Text(t);
    assert s[2..4] == TwoDigits(t.year) && s[5..7] == TwoDigits(t.month) && s[8..10] == TwoDigits(t.day);
    assert s[11..13] == TwoDigits(t.hour) && s[14..16] == TwoDigits(t.minute) && s[17..] == TwoDigits(t.second);
    TwoDigitsValue(t.year);
    TwoDigitsValue(t.month);
    TwoDigitsValue(t.day);
    TwoDigitsValue(t.hour);
    TwoDigitsValue(t.minute);
    TwoDigitsValue(t.second);
  }

  lemma TwoDigitsValue(n: nat)
    requires n < 100
    ensures Value(10, TwoDigits(n)) == n
  {
    hide Fixed, Value;
    Powers();
    ValueOfFixed(10, n, 2);
    LowSmall(10, n, 2);
  }

  /** The quotients by the field weights, one field at a time. */
  lemma Quotients(n: nat)
    ensures n / 0x1000 == n / 64 / 64 && n / 0x2_0000 == n / 64 / 64 / 32
    ensures n / 0x40_0000 == n / 64 / 64 / 32 / 32 && n / 0x400_0000 == n / 64 / 64 / 32 / 32 / 16
  {
    var q1 := n / 64;
    var q2 := q1 / 64;
    var q3 := q2 / 32;
    var q4 := q3 / 32;
    assert n / 0x1000 == q2;
    assert n / 0x2_0000 == q3;
    assert n / 0x40_0000 == q4;
  }

  lemma UnpackPacked(t: Stamp)
    requires InRange(t)
    ensures Unpacked(Packed(t)) == t
  {
    var v1 := t.year * 16 + t.month;
    var v2 := v1 * 32 + t.day;
    var v3 := v2 * 32 + t.hour;
    var v4 := v3 * 64 + t.minute;
    var n := Packed(t);
    Quotients(n);
    assert n / 64 == v4;
    assert v4 / 64 == v3;
    assert v3 / 32 == v2;
    assert v2 / 32 == v1;
    assert v1 / 16 == t.year;
  }

  lemma PackUnpacked(n: nat)
    requires n < 0x1_0000_0000
    ensures InRange(Unpacked(n)) && Packed(Unpacked(n)) == n
  {
    Quotients(n);
    var q1 := n / 64;
    var q2 := q1 / 64;
    var q3 := q2 / 32;
    var q4 := q3 / 32;
    var q5 := q4 / 16;
    assert q5 < 64;
  }

  /** Every four bytes decode to text that encodes back to them. */
  lemma BytesRoundTrip(bs: seq<byte>)
    requires |bs| == 4
    ensures FromText(ToText(bs)) == Ok(ToHex(bs))
  {
    hide FromLittle, ToLittle, ToText, FromText, Text, Encoded, Packed, Unpacked, InRange;
    ToTextFields(bs);
    var n := FromLittle(bs);
    var t := Unpacked(n);
    PackUnpacked(n);
    var cs := StampRoundTrip(t);
    LittleBytes(bs);
    LittleBytes(cs);
  }

  /** Calendar order is the order of the packed numbers. */
  lemma OrderIsomorphism(a: Stamp, b: Stamp)
    requires InRange(a) && InRange(b)
    ensures Encoded(a).Ok? && Encoded(b).Ok?
    ensures Before(a, b) <==> FromLittle(Encoded(a).value) < FromLittle(Encoded(b).value)
    ensures a == b <==> Encoded(a) == Encoded(b)
  {
    hide FromLittle, ToText, FromText, Text, Encoded, Unpacked;
    var x := StampRoundTrip(a);
    var y := StampRoundTrip(b);
    UnpackPacked(a);
    UnpackPacked(b);
  }

  /** With the other fields in range, packing succeeds exactly up to the year 2063. */
  lemma YearBound(t: Stamp)
    requires InRange(t.(year := 0))
    ensures Encoded(t).Ok? <==> t.year < 64
  {
    hide Fixed, Numeral, ZFill, Pow, Raise, Int2Bit, Value, ToLittle;
    Powers();
    if t.year < 64 {
      BitsPacked(t);
    } else {
      var y := Int2Bit(t.year, 6);
      var rest := Int2Bit(t.month, 4) + Int2Bit(t.day, 5) + Int2Bit(t.hour, 5)
                  + Int2Bit(t.minute, 6) + Int2Bit(t.second, 6);
      assert Bits(t) == y + rest;
      RestLength(t);
      ValueAppend(2, y, rest);
      Int2BitValue(t.year, 6);
      RaiseMul(2, t.year, 26);
    }
  }

  lemma RestLength(t: Stamp)
    requires InRange(t.(year := 0))
    ensures |Int2Bit(t.month, 4) + Int2Bit(t.day, 5) + Int2Bit(t.hour, 5)
             + Int2Bit(t.minute, 6) + Int2Bit(t.second, 6)| == 26
  {
    hide Numeral, Pow;
    Powers();
    NumeralFits(2, t.month, 4);
    NumeralFits(2, t.day, 5);
    NumeralFits(2, t.hour, 5);
    NumeralFits(2, t.minute, 6);
    NumeralFits(2, t.second, 6);
  }

  // ----- the first word of a message

  /** int(word, 16) as seconds since 1970; a moment past the year 9999 raises. */
  function Moment(word: string): Result<nat> {
    var seconds :- ParseInt(16, word);
    if seconds <= 253402300799 then Ok(seconds) else Err(ValueError)
  }
}
