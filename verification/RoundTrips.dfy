/** What generatemessage prints, decodehubmqtt and parseframe read back. */
module RoundTrips {
  import opened Arithmetic
  import opened Bytes
  import opened Chips
  import opened Commands
  import opened Constants
  import opened Databases
  import opened Numerals
  import opened Results
  import opened Templates
  import opened Texts
  import opened Timestamps
  import opened Generators
  import F = Frames

  // ----- the 127 branch of decodehubmqtt

  /** The bytes of a message: everything after the first three words, joined. */
  function Payload(message: string): Result<seq<byte>> {
    var words := Words(message);
    if |words| < 3 then Err(IndexError) else FromHex(Concat(words[3..]))
  }

  function DecodeMessage(t: Tables, device: Mac, message: string): Result<F.Frame> {
    var v :- Payload(message);
    F.Decode(t, device, v)
  }

  predicate IsWord(w: string) {
    w != "" && Free(w, {' '})
  }

  lemma LiteralWords()
    ensures IsWord("1000") && IsWord("127")
  {
  }

  lemma HexWord(x: byte)
    ensures IsWord(Hex2(x))
  {
    PrintedHasNoSpace(16, Hex2(x));
  }

  lemma TailStarts(t: Template, env: map<string, string>)
    requires t != Done
    ensures Tail(t, env) != "" && Tail(t, env) == " " + Tail(t, env)[1..]
    ensures NoSpaces(Tail(t, env)) == NoSpaces(Tail(t, env)[1..])
  {
    hide Spaced;
    var rest := Tail(t, env)[1..];
    assert Tail(t, env) == " " + rest;
    NoSpacesAppend(" ", rest);
    assert NoSpaces(" ") == "" by {
      assert " "[1..] == "";
    }
  }

  /** The bytes of a message are those of the text behind its first three words. */
  lemma PayloadText(clock: string, t: Template, env: map<string, string>)
    requires IsWord(clock) && t != Done
    ensures Payload(Message(clock, t, env)) == FromHex(NoSpaces(Tail(t, env)))
  {
    hide Tail, NoSpaces, Words, FromHex, Concat;
    TailStarts(t, env);
    var rest := Tail(t, env)[1..];
    LiteralWords();
    WordsCons(clock, "1000 " + ("127 " + rest));
    WordsCons("1000", "127 " + rest);
    WordsCons("127", rest);
    MessageText(clock, Tail(t, env));
    assert clock + " " + ("1000 " + ("127 " + rest)) == Message(clock, t, env);
    assert "1000" + " " + ("127 " + rest) == "1000 " + ("127 " + rest);
    assert "127" + " " + rest == "127 " + rest;
    var words := Words(Message(clock, t, env));
    assert words[3..] == Words(rest);
    ConcatWords(rest);
  }

  /** A message carries the bytes its filled template stands for. */
  lemma MessagePayload(clock: string, t: Template, env: map<string, string>, bytes: map<string, seq<byte>>)
    requires IsWord(clock) && t != Done && Open(t, map[]) <= bytes.Keys
    requires forall p :: p in Open(t, map[]) ==> Writes(env, bytes, p)
    ensures Payload(Message(clock, t, env)) == Ok(Filled(t, bytes))
  {
    hide Tail, NoSpaces, FromHex, Writes, Filled, Open, Payload, Message;
    PayloadText(clock, t, env);
    FilledHex(t, env, bytes);
  }

  lemma MessageText(clock: string, tail: string)
    requires tail != "" && tail == " " + tail[1..]
    ensures clock + " 1000 " + ("127" + tail) == clock + " " + ("1000 " + ("127 " + tail[1..]))
  {
  }

  // ----- the header

  function FrameBytes(op: byte, counter: nat, stamp: seq<byte>, rest: seq<byte>): seq<byte> {
    [op, 0x00] + ToLittle(counter, 2) + stamp + rest
  }

  lemma FrameParts(op: byte, counter: nat, stamp: seq<byte>, rest: seq<byte>)
    requires |stamp| == 4
    ensures var v := FrameBytes(op, counter, stamp, rest);
            && |v| == 8 + |rest| && v[0] == op && v[8..] == rest
            && F.Slice(v, 2, 4) == ToLittle(counter, 2) && F.Slice(v, 4, 8) == stamp
            && forall i :: 0 <= i < |rest| ==> v[8 + i] == rest[i]
  {
    var v := FrameBytes(op, counter, stamp, rest);
    assert v[2..4] == ToLittle(counter, 2);
    assert v[4..8] == stamp;
  }

  /** A slice past the header is a slice of the body. */
  lemma BodySlice(op: byte, counter: nat, stamp: seq<byte>, rest: seq<byte>, i: nat, j: nat)
    requires |stamp| == 4 && i <= j
    ensures F.Slice(FrameBytes(op, counter, stamp, rest), 8 + i, 8 + j) == F.Slice(rest, i, j)
  {
    hide FrameBytes;
    FrameParts(op, counter, stamp, rest);
    var v := FrameBytes(op, counter, stamp, rest);
    var a, b := if i < |rest| then i else |rest|, if j < |rest| then j else |rest|;
    assert v[8 + a..8 + b] == v[8..][a..b];
  }

  /** Type, counter and time are read back. */
  lemma HeaderDecodes(t: Tables, device: Mac, op: byte, counter: nat, now: Stamp, stamp: seq<byte>, rest: seq<byte>)
    requires counter < 65536 && InRange(now) && Encoded(now) == Ok(stamp)
    requires F.DecodeBody(t, device, FrameBytes(op, counter, stamp, rest)).Ok?
    ensures F.Decode(t, device, FrameBytes(op, counter, stamp, rest))
         == Ok(F.Frame(Hb(op), Numeral(10, counter), Text(now), F.DecodeBody(t, device, FrameBytes(op, counter, stamp, rest)).value))
  {
    hide F.DecodeBody, FrameBytes, Numeral, Hb, FromLittle, ToLittle, ToText, Text, Encoded, Pow;
    var bs := StampRoundTrip(now);
    FrameParts(op, counter, stamp, rest);
    Powers();
    PowersOfSixteen();
    LittleRoundTrip(counter, 2);
  }

  // ----- bodies

  lemma {:induction false} FilledAgrees(t: Template, a: map<string, seq<byte>>, b: map<string, seq<byte>>)
    requires Open(t, map[]) <= a.Keys && Open(t, map[]) <= b.Keys
    requires forall p :: p in Open(t, map[]) ==> a[p] == b[p]
    ensures Filled(t, a) == Filled(t, b)
  {
    match t
    case Done =>
    case Raw(_, rest) => FilledAgrees(rest, a, b);
    case Slot(_, rest) => FilledAgrees(rest, a, b);
  }

  lemma FilledHeader(op: byte, body: Template, bytes: map<string, seq<byte>>)
    requires {ZZ, TT} <= bytes.Keys && Open(body, map[]) <= bytes.Keys
    ensures Open(Header(op, body), map[]) <= bytes.Keys
    ensures Filled(Header(op, body), bytes) == [op, 0x00] + (bytes[ZZ] + (bytes[TT] + Filled(body, bytes)))
  {
    hide ZZ, TT;
    var t := Slot(TT, body);
    assert Open(t, map[]) == {TT} + Open(body, map[]);
    assert Filled(t, bytes) == bytes[TT] + Filled(body, bytes);
    assert Open(Slot(ZZ, t), map[]) == {ZZ} + Open(t, map[]);
  }

  /** A message made from a header template carries counter, time and the filled body. */
  lemma HeaderPayload(clock: string, op: byte, body: Template, env: map<string, string>,
                      args: map<string, seq<byte>>, counter: seq<byte>, stamp: seq<byte>)
    requires IsWord(clock) && Open(body, map[]) <= args.Keys
    requires ZZ !in Open(body, map[]) && TT !in Open(body, map[])
    requires forall p :: p in Open(body, map[]) ==> Writes(env, args, p)
    requires ZZ in env && NoSpaces(env[ZZ]) == ToHex(counter) && TT in env && NoSpaces(env[TT]) == ToHex(stamp)
    ensures Payload(Message(clock, Header(op, body), env)) == Ok([op, 0x00] + counter + stamp + Filled(body, args))
  {
    SlotsApart();
    hide ZZ, TT, NoSpaces, ToHex, Filled, Payload, Message, Open, Header;
    var bytes := args[ZZ := counter][TT := stamp];
    HeaderOpens(op, body);
    FilledHeader(op, body, bytes);
    HexRoundTrip(counter);
    HexRoundTrip(stamp);
    MessagePayload(clock, Header(op, body), env, bytes);
    FilledAgrees(body, bytes, args);
    var rest := Filled(body, args);
    assert [op, 0x00] + (counter + (stamp + rest)) == [op, 0x00] + counter + stamp + rest;
  }

  lemma HeaderOpens(op: byte, body: Template)
    ensures Header(op, body) != Done && Open(Header(op, body), map[]) == {ZZ, TT} + Open(body, map[])
  {
    hide ZZ, TT;
    var t := Slot(TT, body);
    assert Open(t, map[]) == {TT} + Open(body, map[]);
    assert Open(Slot(ZZ, t), map[]) == {ZZ} + Open(t, map[]);
  }

  lemma FeederPayload(clock: string, op: FeederOp, env: map<string, string>, args: map<string, seq<byte>>,
                      counter: seq<byte>, stamp: seq<byte>)
    requires IsWord(clock) && FeederSlots(op) <= args.Keys
    requires forall p :: p in FeederSlots(op) ==> Writes(env, args, p)
    requires ZZ in env && NoSpaces(env[ZZ]) == ToHex(counter) && TT in env && NoSpaces(env[TT]) == ToHex(stamp)
    ensures Open(FeederBody(op), map[]) <= args.Keys
    ensures Payload(Message(clock, FeederTemplate(op), env))
         == Ok([FeederType(op), 0x00] + counter + stamp + Filled(FeederBody(op), args))
  {
    FeederBodyWellformed(op);
    StandardApart(op);
    hide ZZ, TT, SS, WW, LL, CM, CC, II, NoSpaces, ToHex, Filled, Payload, Message, Open, Header, FeederBody, FeederSlots, Writes, IsWord;
    HeaderPayload(clock, FeederType(op), FeederBody(op), env, args, counter, stamp);
  }

  lemma StandardApart(op: FeederOp)
    ensures ZZ !in FeederSlots(op) && TT !in FeederSlots(op)
  {
    SlotsDistinct();
    hide ZZ, TT, SS, WW, LL, CM, CC, II;
  }

  // ----- weights

  /** What the three-byte signed read makes of a weight in hundredths. */
  function ReadWeight(n: nat): int {
    var low := n % 0x100_0000;
    if low < 0x80_0000 then low else low - 0x100_0000
  }

  lemma LittleThree(n: nat)
    ensures ToLittle(n, 3) == [n % 256, n / 256 % 256, n / 256 / 256 % 256]
    ensures ToLittle(n, 4)[..3] == ToLittle(n, 3)
  {
    var m := n / 256;
    var k := m / 256;
    assert ToLittle(k, 1) == [k % 256];
    assert ToLittle(m, 2) == [m % 256] + ToLittle(k, 1);
    assert ToLittle(k, 2) == [k % 256] + ToLittle(k / 256, 1);
    assert ToLittle(m, 3) == [m % 256] + ToLittle(k, 2);
  }

  lemma ThreeByteValue(b0: byte, b1: byte, b2: byte)
    ensures FromLittle([b0, b1, b2]) == b0 + 256 * b1 + 65536 * b2
    ensures Pow(16, 6) == 0x100_0000
  {
    assert [b2][1..] == [] && FromLittle([b2]) == b2;
    assert [b1, b2][1..] == [b2] && FromLittle([b1, b2]) == b1 + 256 * b2;
    assert [b0, b1, b2][1..] == [b1, b2];
  }

  lemma ThreeByteRemainder(n: nat)
    ensures n % 0x100_0000 == n % 256 + 256 * (n / 256 % 256) + 65536 * (n / 256 / 256 % 256)
  {
    var q := n / 256;
    var p := q / 256;
    var r := p / 256;
    var low := n % 256 + 256 * (q % 256) + 65536 * (p % 256);
    assert n == 256 * q + n % 256 && q == 256 * p + q % 256 && p == 256 * r + p % 256;
    assert n == 0x100_0000 * r + low && low < 0x100_0000;
    QuotientUnique(n, 0x100_0000, r, low);
  }

  lemma ThreeBytes(n: nat)
    ensures ToLittle(n, 4)[..3] == ToLittle(n, 3)
    ensures FromLittleSigned(ToLittle(n, 3)) == ReadWeight(n)
  {
    hide ToLittle, FromLittle, Pow;
    LittleThree(n);
    ThreeByteValue(n % 256, n / 256 % 256, n / 256 / 256 % 256);
    ThreeByteRemainder(n);
  }

  lemma RoundBound(n: int)
    ensures n < 0x80_0000 ==> F.RoundHundredths(n) <= 83886
    ensures forall w: nat :: n == w * 100 ==> F.RoundHundredths(n) == w
  {
  }

  /** A target weight is read back exactly up to 83886 grams. */
  lemma WeightBound(w: nat)
    ensures F.RoundHundredths(ReadWeight(w * 100)) == w <==> w <= 83886
  {
    RoundBound(ReadWeight(w * 100));
  }

  // ----- what each feeder operation is read as

  /** The bytes a validated argument stands for: its table entry, or the number itself. */
  lemma ChosenBytes(choices: map<string, seq<byte>>, b: base, state: string) returns (bs: seq<byte>)
    requires Choose(choices, b, state).Ok?
    ensures bs in choices.Values && NoSpaces(Choose(choices, b, state).value) == ToHex(bs)
    ensures state in choices ==> bs == choices[state]
    ensures state !in choices ==> ParseInt(b, state).Ok? && ParseInt(b, state).value < 256 && bs == [ParseInt(b, state).value]
  {
    hide NoSpaces, ToHex, Spaced, ParseInt, Hb, Pow;
    if state in choices {
      bs := choices[state];
    } else {
      var n := ParseInt(b, state).value;
      var k :| k in choices && Spaced(choices[k]) == Hb(n);
      bs := choices[k];
      SpacedByte(bs, n);
    }
    SpacedHex(bs);
  }

  lemma NumberHasNoSpace(n: nat)
    ensures forall i :: 0 <= i < |Hb(n)| ==> Hb(n)[i] != ' '
    ensures |Hb(n)| <= 2 ==> n < 256
    ensures 2 <= |Hb(n)|
  {
    PrintedHasNoSpace(16, Numeral(16, n));
    NumeralFits(16, n, 2);
    assert Pow(16, 2) == 256;
  }

  /** Only one byte is spelled like a number. */
  lemma SpacedByte(bs: seq<byte>, n: nat)
    requires Spaced(bs) == Hb(n)
    ensures n < 256 && bs == [n]
  {
    NumberHasNoSpace(n);
    hide Hb;
    if |bs| == 1 {
      assert bs == [bs[0]] && ToHex(bs) == Hex2(bs[0]) + "";
      Hex2Value(bs[0]);
      Hex2Value(n);
      SameHex(bs[0], n);
    } else if bs != [] {
      SpaceInside(ToHex(bs));
    }
  }

  lemma SpaceInside(h: string)
    requires 2 < |h|
    ensures 2 < |SplitByte(h)| && SplitByte(h)[2] == ' '
  {
  }

  lemma SameHex(x: byte, y: byte)
    requires Hex2(x) == Hex2(y)
    ensures x == y
  {
    hide Hex2, Value;
    Hex2Value(x);
    Hex2Value(y);
  }

  /** Weight, delay or mode: one register byte and four value bytes, of which three are read. */
  lemma RegisterDecodes(t: Tables, device: Mac, counter: nat, stamp: seq<byte>, register: byte, n: nat)
    requires |stamp| == 4
    ensures var v := FrameBytes(0x09, counter, stamp, [register] + ToLittle(n, 4));
            8 < |v| && v[0] == 0x09 && v[8] == register && v[9..] == ToLittle(n, 4)
            && FromLittleSigned(F.Slice(v, 9, 12)) == ReadWeight(n)
  {
    hide FromLittleSigned, FrameBytes, ToLittle;
    var rest := [register] + ToLittle(n, 4);
    FrameParts(0x09, counter, stamp, rest);
    BodySlice(0x09, counter, stamp, rest, 1, 4);
    ThreeBytes(n);
    assert F.Slice(rest, 1, 4) == ToLittle(n, 4)[..3];
    var v := FrameBytes(0x09, counter, stamp, rest);
    assert v[9..] == v[8..][1..];
  }

  /** The chips that are read back, in lower case: ten hexadecimal digits, or FDX-B as far as it survives. */
  ghost predicate GoodChip(chip: string) {
    || (|chip| == 10 && IsNumeral(16, chip))
    || exists c: nat, n: nat :: IsChip(c, n) && 1 <= c && 16 <= n % 256 && chip == ChipText(c, n)
  }

  lemma GoodChipBytes(chip: string) returns (bs: seq<byte>)
    requires GoodChip(chip)
    ensures |bs| == 7 && bs[6] in {0x01, 0x03} && BytesToTag(bs) == Ok(Some(Lower(chip)))
    ensures ChipToHex(chip).Ok? && FromHex(ChipToHex(chip).value) == Ok(bs) && IsNumeral(16, ChipToHex(chip).value)
  {
    hide ChipText, BytesToTag, ChipToHex, ToLittle, ToHex, FromHex, IsPrinted, IsNumeral;
    if |chip| == 10 && IsNumeral(16, chip) {
      bs := HdxBytes(chip);
    } else {
      var c: nat, n: nat :| IsChip(c, n) && 1 <= c && 16 <= n % 256 && chip == ChipText(c, n);
      FdxBytes(c, n);
      bs := ToLittle(Chips.Packed(c, n), 6) + [1];
      HexRoundTrip(bs);
      FdxIsLower(c, n);
    }
    FromHexLength(ChipToHex(chip).value);
  }

  lemma HdxBytes(chip: string) returns (bs: seq<byte>)
    requires |chip| == 10 && IsNumeral(16, chip)
    ensures |bs| == 7 && bs[6] == 0x03 && BytesToTag(bs) == Ok(Some(Lower(chip)))
    ensures ChipToHex(chip) == Ok(chip + "0003") && FromHex(chip + "0003") == Ok(bs)
  {
    hide Hex2;
    NumeralFree(chip);
    ContainsNot(chip, ".");
    LowerPrinted(chip);
    var cs := HexBytes(Lower(chip));
    FromHexLower(chip);
    HdxSuffix([]);
    assert ToHex([]) == "" && "" + "0003" == "0003" && [] + [0, 3] == [0, 3];
    HexRoundTrip([0, 3]);
    FromHexAppend(chip, "0003");
    bs := cs + [0, 3];
    assert bs[..5] == cs;
    HdxBytesRoundTrip(bs);
  }

  lemma NumeralFree(s: string)
    requires IsNumeral(16, s)
    ensures Free(s, {'.'})
  {
    assert DigitValue('.') == 16;
  }

  lemma FdxIsLower(country: nat, number: nat)
    ensures Lower(ChipText(country, number)) == ChipText(country, number)
  {
    var s := ChipText(country, number);
    var c, n := Numeral(10, country), ZFill(Numeral(10, number), 12);
    hide Numeral;
    assert forall i :: 0 <= i < |s| ==> s[i] == '.' || s[i] in c || s[i] in n;
    assert forall i :: 0 <= i < |s| ==> LowerCase(s[i]) == s[i];
  }

  /** "state-index-chip", inside the range the frame can carry. */
  ghost predicate GoodTag(state: string) {
    var parts := Split(state, {'-'});
    && |parts| == 3 && TagStateValue(parts[0]).Some?
    && ParseInt(10, parts[1]).Ok? && ParseInt(10, parts[1]).value < 256 && GoodChip(parts[2])
    && !(ParseInt(10, parts[1]).value == 0 && parts[0] == "LockState")
  }

  /** What a state argument denotes among the choices. */
  predicate Denotes(choices: map<string, seq<byte>>, b: base, state: string, bs: seq<byte>) {
    && bs in choices.Values
    && (state in choices ==> bs == choices[state])
    && (state !in choices ==>
          ParseInt(b, state).Ok? && ParseInt(b, state).value < 256 && bs == [ParseInt(b, state).value])
  }

  /** A name, or the number it stands for in hexadecimal. */
  predicate Names(state: string, name: string, n: nat) {
    state == name || ParseInt(16, state) == Ok(n)
  }

  /** What the device is told by each operation, in the words of the decoder. */
  ghost predicate FeederMeans(t: Tables, op: FeederOp, state: string, body: F.Body) {
    match op
    case FeederAck => false
    case FeederGet =>
      || (state == "Time" && body == F.Query("07", "00"))
      || (state == "Config" && body == F.Query("09", "00ff"))
      || (state == "Unknown0b" && body == F.Query("0b", "00"))
      || (state == "Battery" && body == F.Query("0c", "00"))
      || (state == "Boot10" && body == F.Query("10", "00"))
      || (state == "Tags" && body == F.Query("11", "00ff"))
      || (state == "Boot17" && body == F.Query("17", "0000"))
    case FeederSetTime => body == F.Time("0000000007")
    case SetLeftScale => body == F.UpdateState(F.LeftScale(F.RoundHundredths(ReadWeight(Value(10, state) * 100))))
    case SetRightScale => body == F.UpdateState(F.RightScale(F.RoundHundredths(ReadWeight(Value(10, state) * 100))))
    case SetBowlCount =>
      || (Names(state, "One", 1) && body == F.UpdateState(F.BowlCount("One")))
      || (Names(state, "Two", 2) && body == F.UpdateState(F.BowlCount("Two")))
    case SetCloseDelay => body == F.UpdateState(F.CloseDelay(state))
    case Set12 => body == F.UpdateState(F.Set12(500, "f4010000"))
    case SetCustom =>
      FeederCustomModeValue(state).Some? && body == F.UpdateState(F.CustomMode(FeederCustomModeValue(state).value, Some(state)))
    case CustomIntruder => body == F.UpdateState(F.CustomMode(0x100, Some("Intruder")))
    case CustomGeniusCat => body == F.UpdateState(F.CustomMode(0x80, Some("GeniusCat")))
    case ZeroScale =>
      || (Names(state, "Left", 1) && body == F.ZeroScales("ZeroLeft"))
      || (Names(state, "Right", 2) && body == F.ZeroScales("ZeroRight"))
      || (Names(state, "Both", 3) && body == F.ZeroScales("ZeroBoth"))
    case FeederTag =>
      var parts := Split(state, {'-'});
      |parts| == 3 && ParseInt(10, parts[1]).Ok?
      && body == F.Tag(t.Animal(Some(Lower(parts[2]))), "Normal", 2, ParseInt(10, parts[1]).value, parts[0])
  }

  /** The bytes that fill the slots of a feeder template. */
  ghost predicate FeederArgs(op: FeederOp, state: string, args: map<string, seq<byte>>) {
    && FeederSlots(op) <= args.Keys
    && match op
       case FeederGet => Denotes(FeederChoices(op), 16, state, args[SS])
       case SetBowlCount => Denotes(FeederChoices(op), 16, state, args[SS])
       case ZeroScale => Denotes(FeederChoices(op), 16, state, args[SS])
       case SetLeftScale => args[WW] == ToLittle(Value(10, state) * 100, 4)
       case SetRightScale => args[WW] == ToLittle(Value(10, state) * 100, 4)
       case SetCloseDelay => FeederCloseDelayValue(state).Some? && args[LL] == ToLittle(FeederCloseDelayValue(state).value, 4)
       case SetCustom => FeederCustomModeValue(state).Some? && args[CM] == ToLittle(FeederCustomModeValue(state).value, 4)
       case FeederTag =>
         var parts := Split(state, {'-'});
         && GoodTag(state)
         && args[SS] == [TagStateValue(parts[0]).value] && args[II] == [ParseInt(10, parts[1]).value]
         && |args[CC]| == 7 && args[CC][6] in {0x01, 0x03} && BytesToTag(args[CC]) == Ok(Some(Lower(parts[2])))
       case _ => true
  }

  /** The accepted arguments are written as those bytes. */
  lemma FeederArgsWritten(op: FeederOp, state: string, env0: map<string, string>) returns (args: map<string, seq<byte>>)
    requires op != FeederAck && FeederArguments(op, state, env0).Ok? && (op == FeederTag ==> GoodTag(state))
    ensures FeederArgs(op, state, args)
    ensures forall p :: p in FeederSlots(op) ==> Writes(FeederArguments(op, state, env0).value, args, p)
  {
    hide ZZ, TT, SS, WW, LL, CM, CC, II, NoSpaces, ToHex, FromHex, Spaced, Choose, ToLittle, Denotes, FeederChoices, Hb, BytesToTag,
      ChipToHex, Split, GoodChip, FeederCloseDelayValue, FeederCustomModeValue, Pow, Encode, Value;
    SlotsDistinct();
    hide Distinct;
    ArgumentsOf(op, state, env0);
    args := map[];
    if Validated(op) {
      var bs := ChosenDenotes(FeederChoices(op), 16, state);
      HexRoundTrip(bs);
      args := map[SS := bs];
    } else if op == SetLeftScale || op == SetRightScale {
      WeightWritten(state);
      HexRoundTrip(ToLittle(Value(10, state) * 100, 4));
      args := map[WW := ToLittle(Value(10, state) * 100, 4)];
    } else if op == SetCloseDelay {
      SpacedHex(ToLittle(FeederCloseDelayValue(state).value, 4));
      HexRoundTrip(ToLittle(FeederCloseDelayValue(state).value, 4));
      args := map[LL := ToLittle(FeederCloseDelayValue(state).value, 4)];
    } else if op == SetCustom {
      SpacedHex(ToLittle(FeederCustomModeValue(state).value, 4));
      HexRoundTrip(ToLittle(FeederCustomModeValue(state).value, 4));
      args := map[CM := ToLittle(FeederCustomModeValue(state).value, 4)];
    } else if op == FeederTag {
      args := TagWritten(state, env0);
    }
  }

  lemma ChosenDenotes(choices: map<string, seq<byte>>, b: base, state: string) returns (bs: seq<byte>)
    requires Choose(choices, b, state).Ok?
    ensures Denotes(choices, b, state, bs) && NoSpaces(Choose(choices, b, state).value) == ToHex(bs)
  {
    hide Choose, NoSpaces, ToHex, ParseInt;
    bs := ChosenBytes(choices, b, state);
  }

  lemma WeightWritten(state: string)
    requires WeightText(state).Ok?
    ensures NoSpaces(WeightText(state).value) == ToHex(ToLittle(Value(10, state) * 100, 4))
  {
    SpacedHex(ToLittle(Value(10, state) * 100, 4));
  }

  lemma TagWritten(state: string, env0: map<string, string>) returns (args: map<string, seq<byte>>)
    requires GoodTag(state) && FeederArguments(FeederTag, state, env0).Ok?
    ensures FeederArgs(FeederTag, state, args)
    ensures forall p :: p in FeederSlots(FeederTag) ==> Writes(FeederArguments(FeederTag, state, env0).value, args, p)
  {
    SlotsDistinct();
    hide ZZ, TT, SS, WW, LL, CM, CC, II, NoSpaces, ToHex, FromHex, SplitByte, Hb, BytesToTag, ChipToHex, Split, GoodChip, ParseInt, Distinct, Hex2,
      IsNumeral;
    SlotsDistinct();
    var parts := Split(state, {'-'});
    var chip := GoodChipBytes(parts[2]);
    SplitNumeral(ChipToHex(parts[2]).value);
    HbWritten(TagStateValue(parts[0]).value);
    HbWritten(ParseInt(10, parts[1]).value);
    DistinctSlots();
    args := map[SS := [TagStateValue(parts[0]).value], II := [ParseInt(10, parts[1]).value], CC := chip];
  }

  lemma DistinctSlots()
    ensures SS != II && SS != CC && II != CC
  {
    SlotsDistinct();
    hide SS, II, CC;
  }

  lemma SplitNumeral(h: string)
    requires IsNumeral(16, h)
    ensures NoSpaces(SplitByte(h)) == h
  {
    assert DigitValue(' ') == 16;
    SplitByteJoins(h);
  }

  lemma HbWritten(x: byte)
    ensures NoSpaces(Hb(x)) == ToHex([x]) && FromHex(NoSpaces(Hb(x))) == Ok([x])
  {
    HexRoundTrip([x]);
    Hex2Value(x);
    PrintedHasNoSpace(16, Hex2(x));
    NoSpacesSame(Hex2(x));
    assert [x][1..] == [];
    assert ToHex([x]) == Hex2(x) + "";
  }

  // ----- decoding each body

  /** A configuration register is decoded from its number and its signed three-byte value. */
  lemma SettingDecodes(t: Tables, device: Mac, counter: nat, stamp: seq<byte>, register: byte, n: nat, setting: F.Setting)
    requires |stamp| == 4
    requires match register
             case 0x0a => setting == F.LeftScale(F.RoundHundredths(ReadWeight(n)))
             case 0x0b => setting == F.RightScale(F.RoundHundredths(ReadWeight(n)))
             case 0x0c => setting == F.BowlCount(FeederBowlsName(ReadWeight(n)))
             case 0x0d => setting == F.CloseDelay(FeederCloseDelayName(ReadWeight(n)))
             case 0x12 => setting == F.Set12(ReadWeight(n), ToHex(ToLittle(n, 4)))
             case 0x14 => setting == F.CustomMode(ReadWeight(n), FeederCustomModeName(ReadWeight(n)))
             case _ => false
    ensures F.DecodeBody(t, device, FrameBytes(0x09, counter, stamp, [register] + ToLittle(n, 4))) == Ok(F.UpdateState(setting))
  {
    hide FrameBytes, FromLittleSigned, ToLittle, ToHex, F.RoundHundredths, ReadWeight, FeederBowlsName, FeederCloseDelayName,
      FeederCustomModeName, F.Slice;
    RegisterDecodes(t, device, counter, stamp, register, n);
  }

  lemma SmallValues()
    ensures ToLittle(500, 4) == [0xf4, 0x01, 0x00, 0x00]
    ensures ToLittle(0x100, 4) == [0x00, 0x01, 0x00, 0x00] && ToLittle(0x80, 4) == [0x80, 0x00, 0x00, 0x00]
    ensures ToLittle(1, 4) == [0x01, 0x00, 0x00, 0x00] && ToLittle(2, 4) == [0x02, 0x00, 0x00, 0x00]
  {
    hide ToLittle;
    LittleFour(500);
    LittleFour(0x100);
    LittleFour(0x80);
    LittleFour(1);
    LittleFour(2);
  }

  lemma SmallTexts()
    ensures ToHex([0xf4, 0x01, 0x00, 0x00]) == "f4010000"
    ensures ToHex([0x00, 0x00, 0x00, 0x00, 0x07]) == "0000000007"
  {
    hide Hex2, ToHex;
    SmallHex();
    HexF4();
    HexFour(0xf4, 0x01, 0x00, 0x00);
    HexFour(0x00, 0x00, 0x00, 0x07);
    ToHexCons(0x00, [0x00, 0x00, 0x00, 0x07]);
    assert [0x00] + [0x00, 0x00, 0x00, 0x07] == [0x00, 0x00, 0x00, 0x00, 0x07];
  }

  lemma HexF4()
    ensures Hex2(0xf4) == "f4" && Hex2(0x07) == "07"
  {
    FixedSnoc(16, 0xf4, 1);
    FixedSnoc(16, 0x0f, 0);
    FixedSnoc(16, 0x07, 1);
    FixedSnoc(16, 0, 0);
  }

  lemma HexFour(a: byte, b: byte, c: byte, d: byte)
    ensures ToHex([a, b, c, d]) == Hex2(a) + Hex2(b) + Hex2(c) + Hex2(d)
  {
    hide Hex2;
    ToHexCons(a, [b, c, d]);
    ToHexCons(b, [c, d]);
    ToHexCons(c, [d]);
    ToHexCons(d, []);
    assert [a] + [b, c, d] == [a, b, c, d] && [b] + [c, d] == [b, c, d] && [c] + [d] == [c, d] && [d] + [] == [d];
    assert ToHex([]) == "";
  }

  lemma LittleFour(n: nat)
    ensures ToLittle(n, 4) == [n % 256, n / 256 % 256, n / 256 / 256 % 256, n / 256 / 256 / 256 % 256]
  {
    var m := n / 256;
    var k := m / 256;
    var l := k / 256;
    assert ToLittle(l, 1) == [l % 256];
    assert ToLittle(k, 2) == [k % 256] + ToLittle(l, 1);
    assert ToLittle(m, 3) == [m % 256] + ToLittle(k, 2);
  }

  lemma ReadSmall(n: nat)
    ensures n < 0x80_0000 ==> ReadWeight(n) == n
  {
  }

  /** What stands for a name or a number among the choices of each operation. */
  ghost predicate Chosen(op: FeederOp, state: string, bs: seq<byte>) {
    match op
    case FeederGet =>
      || (state == "Time" && bs == [0x07, 0x00])
      || (state == "Config" && bs == [0x09, 0x00, 0xff])
      || (state == "Unknown0b" && bs == [0x0b, 0x00])
      || (state == "Battery" && bs == [0x0c, 0x00])
      || (state == "Boot10" && bs == [0x10, 0x00])
      || (state == "Tags" && bs == [0x11, 0x00, 0xff])
      || (state == "Boot17" && bs == [0x17, 0x00, 0x00])
    case SetBowlCount => (Names(state, "One", 1) && bs == [0x01]) || (Names(state, "Two", 2) && bs == [0x02])
    case ZeroScale =>
      || (Names(state, "Left", 1) && bs == [0x01])
      || (Names(state, "Right", 2) && bs == [0x02])
      || (Names(state, "Both", 3) && bs == [0x03])
    case _ => false
  }

  lemma ChoicesKnown(op: FeederOp, state: string, bs: seq<byte>)
    requires Validated(op)
    ensures Denotes(FeederChoices(op), 16, state, bs) <==> Chosen(op, state, bs)
  {
    hide ParseInt;
    NamesAreNoNumbers();
    NamesDiffer();
    var c := FeederChoices(op);
    match op
    case FeederGet =>
      assert c["Time"] == [0x07, 0x00] && c["Config"] == [0x09, 0x00, 0xff] && c["Unknown0b"] == [0x0b, 0x00];
      assert c["Battery"] == [0x0c, 0x00] && c["Boot10"] == [0x10, 0x00] && c["Tags"] == [0x11, 0x00, 0xff];
      assert c["Boot17"] == [0x17, 0x00, 0x00];
      assert c.Keys == {"Time", "Config", "Unknown0b", "Battery", "Boot10", "Tags", "Boot17"};
    case SetBowlCount =>
      assert c["One"] == [0x01] && c["Two"] == [0x02];
    case ZeroScale =>
      assert c["Left"] == [0x01] && c["Right"] == [0x02] && c["Both"] == [0x03];
    case _ =>
  }

  lemma NamesDiffer()
    ensures "Time" != "Tags" && "Boot10" != "Boot17" && "Boot9" != "Boot10"
    ensures "Config" != "Boot10" && "Config" != "Boot17" && "Battery" != "Unknown0b"
    ensures "One" != "Two" && "Left" != "Both" && "Left" != "Right" && "Right" != "Both"
  {
    assert "Time"[1] == 'i' && "Tags"[1] == 'a' && "Boot10"[5] == '0' && "Boot17"[5] == '7' && "Config"[0] == 'C';
    assert "One"[0] == 'O' && "Two"[0] == 'T' && "Left"[0] == 'L' && "Both"[0] == 'B';
  }

  lemma NamesAreNoNumbers()
    ensures ParseInt(16, "One").Err? && ParseInt(16, "Two").Err?
    ensures ParseInt(16, "Left").Err? && ParseInt(16, "Right").Err? && ParseInt(16, "Both").Err?
  {
    assert DigitValue("One"[0]) == 16 && DigitValue("Two"[0]) == 16;
    assert DigitValue("Left"[0]) == 16 && DigitValue("Right"[0]) == 16 && DigitValue("Both"[1]) == 16;
    StripNothing("One");
    StripNothing("Two");
    StripNothing("Left");
    StripNothing("Right");
    StripNothing("Both");
  }

  lemma DelayNames(state: string)
    requires FeederCloseDelayValue(state).Some?
    ensures FeederCloseDelayValue(state).value < 0x80_0000
    ensures FeederCloseDelayName(FeederCloseDelayValue(state).value) == state
  {
  }

  lemma ModeNames(state: string)
    requires FeederCustomModeValue(state).Some?
    ensures FeederCustomModeValue(state).value < 0x80_0000
    ensures FeederCustomModeName(FeederCustomModeValue(state).value) == Some(state)
  {
  }

  lemma TagStateNames(state: string)
    requires TagStateValue(state).Some?
    ensures TagStateName(TagStateValue(state).value) == state
    ensures TagStateValue(state).value == 2 <==> state == "LockState"
  {
  }

  lemma QueryDecodes(t: Tables, device: Mac, counter: nat, stamp: seq<byte>, bs: seq<byte>)
    requires |stamp| == 4 && bs != []
    ensures F.DecodeBody(t, device, FrameBytes(0x01, counter, stamp, bs)) == Ok(F.Query(Hex2(bs[0]), ToHex(bs[1..])))
  {
    hide FrameBytes, Hex2, ToHex, Hb;
    FrameParts(0x01, counter, stamp, bs);
    Hex2Value(bs[0]);
    var v := FrameBytes(0x01, counter, stamp, bs);
    assert v[9..] == v[8..][1..];
  }

  /** The types and data that are asked for, as they are printed. */
  lemma QueryTexts()
    ensures Hex2(0x07) == "07" && Hex2(0x09) == "09" && Hex2(0x0b) == "0b" && Hex2(0x0c) == "0c"
    ensures Hex2(0x10) == "10" && Hex2(0x11) == "11" && Hex2(0x17) == "17"
    ensures ToHex([0x07, 0x00][1..]) == "00" && ToHex([0x09, 0x00, 0xff][1..]) == "00ff" && ToHex([0x17, 0x00, 0x00][1..]) == "0000"
    ensures ToHex([0x0b, 0x00][1..]) == "00" && ToHex([0x0c, 0x00][1..]) == "00" && ToHex([0x10, 0x00][1..]) == "00"
    ensures ToHex([0x11, 0x00, 0xff][1..]) == "00ff"
  {
    hide Hex2, ToHex;
    PairDigits(0x07);
    PairDigits(0x09);
    PairDigits(0x0b);
    PairDigits(0x0c);
    PairDigits(0x10);
    PairDigits(0x11);
    PairDigits(0x17);
    PairDigits(0x00);
    PairDigits(0xff);
    HexPair(0x00, 0xff);
    HexPair(0x00, 0x00);
    ToHexCons(0x00, []);
    assert [0x00] + [] == [0x00] && ToHex([]) == "" && "00" + "" == "00";
    assert [0x07, 0x00][1..] == [0x00] && [0x0b, 0x00][1..] == [0x00] && [0x0c, 0x00][1..] == [0x00] && [0x10, 0x00][1..] == [0x00];
    assert [0x09, 0x00, 0xff][1..] == [0x00, 0xff] && [0x11, 0x00, 0xff][1..] == [0x00, 0xff];
    assert [0x17, 0x00, 0x00][1..] == [0x00, 0x00];
  }

  lemma PairDigits(x: byte)
    ensures Hex2(x) == [DigitChar(x / 16), DigitChar(x % 16)]
  {
    FixedSnoc(16, x, 1);
    FixedSnoc(16, x / 16, 0);
  }

  lemma HexPair(a: byte, b: byte)
    ensures ToHex([a, b]) == Hex2(a) + Hex2(b)
  {
    hide Hex2;
    ToHexCons(a, [b]);
    ToHexCons(b, []);
    assert [a] + [b] == [a, b] && [b] + [] == [b] && ToHex([]) == "";
  }

  lemma TimeDecodes(t: Tables, device: Mac, counter: nat, stamp: seq<byte>)
    requires |stamp| == 4
    ensures F.DecodeBody(t, device, FrameBytes(0x07, counter, stamp, [0x00, 0x00, 0x00, 0x00, 0x07])) == Ok(F.Time("0000000007"))
  {
    SmallTexts();
    hide FrameBytes, Hex2, ToHex, Hb;
    FrameParts(0x07, counter, stamp, [0x00, 0x00, 0x00, 0x00, 0x07]);
    var v := FrameBytes(0x07, counter, stamp, [0x00, 0x00, 0x00, 0x00, 0x07]);
    assert F.Slice(v, 8, |v| + 8) == v[8..];
  }

  const ZEROING: seq<byte> := [0x00, 0x19, 0x00, 0x00, 0x00, 0x03, 0x00, 0x00, 0x00, 0x00, 0x01]

  lemma ZeroScaleDecodes(t: Tables, device: Mac, counter: nat, stamp: seq<byte>, scale: byte)
    requires |stamp| == 4
    ensures F.DecodeBody(t, device, FrameBytes(0x0d, counter, stamp, ZEROING + [scale]))
         == Ok(F.ZeroScales(FeederZeroScalesName(scale)))
  {
    hide FrameBytes, FeederZeroScalesName;
    FrameParts(0x0d, counter, stamp, ZEROING + [scale]);
    assert (ZEROING + [scale])[11] == scale;
  }

  lemma NeverEmpty(chip: string)
    ensures Lower(chip) != "Empty"
  {
    assert "Empty"[0] == 'E';
    assert chip != "" ==> Lower(chip)[0] == LowerCase(chip[0]);
  }

  /** A tag frame, unless it is the lock state of the flap itself. */
  lemma TagDecodes(t: Tables, device: Mac, counter: nat, stamp: seq<byte>, chip: seq<byte>, lock: byte, index: byte, tagState: byte)
    requires |stamp| == 4 && |chip| == 7 && chip[6] in {0x01, 0x03, 0x07} && BytesToTag(chip).Ok?
    requires !(index == 0 && tagState == 2)
    ensures F.DecodeBody(t, device, FrameBytes(0x11, counter, stamp, chip + [lock, index, tagState]))
         == Ok(F.Tag(t.TagAnimal(BytesToTag(chip).value), CatFlapLockStateName(lock), lock, index, TagStateName(tagState)))
  {
    hide FrameBytes, CatFlapLockStateName, TagStateName, BytesToTag, PetDoorLockStateValue;
    var rest := chip + [lock, index, tagState];
    FrameParts(0x11, counter, stamp, rest);
    var v := FrameBytes(0x11, counter, stamp, rest);
    assert v[8..15] == v[8..][..7] == chip;
    assert rest[6] == chip[6] && rest[7] == lock && rest[8] == index && rest[9] == tagState;
    assert v[8 + 6] == chip[6] && v[8 + 7] == lock && v[8 + 8] == index && v[8 + 9] == tagState;
  }

  /** The body of each operation, written out. */
  function BodyBytes(op: FeederOp, args: map<string, seq<byte>>): seq<byte>
    requires FeederSlots(op) <= args.Keys
  {
    match op
    case FeederAck => args[SS] + [0x00, 0x00]
    case FeederGet => args[SS]
    case FeederSetTime => [0x00, 0x00, 0x00, 0x00, 0x07]
    case SetLeftScale => [0x0a] + args[WW]
    case SetRightScale => [0x0b] + args[WW]
    case SetBowlCount => [0x0c] + args[SS] + [0x00, 0x00, 0x00]
    case SetCloseDelay => [0x0d] + args[LL]
    case Set12 => [0x12, 0xf4, 0x01, 0x00, 0x00]
    case SetCustom => [0x14] + args[CM]
    case CustomIntruder => [0x14, 0x00, 0x01, 0x00, 0x00]
    case CustomGeniusCat => [0x14, 0x80, 0x00, 0x00, 0x00]
    case ZeroScale => ZEROING + args[SS]
    case FeederTag => args[CC] + [0x02] + args[II] + args[SS]
  }

  lemma FilledOne(bs: seq<byte>, p: string, args: map<string, seq<byte>>)
    requires p in args
    ensures Open(Slot(p, Done), map[]) == {p} && Open(Raw(bs, Slot(p, Done)), map[]) == {p}
    ensures Filled(Slot(p, Done), args) == args[p]
    ensures Filled(Raw(bs, Slot(p, Done)), args) == bs + args[p]
  {
    assert Open(Slot(p, Done), map[]) == {p};
  }

  lemma FilledTwo(bs: seq<byte>, p: string, cs: seq<byte>, args: map<string, seq<byte>>)
    requires p in args
    ensures var t := Slot(p, Raw(cs, Done)); Open(t, map[]) == {p} && Filled(t, args) == args[p] + cs
    ensures var t := Raw(bs, Slot(p, Raw(cs, Done))); Open(t, map[]) == {p} && Filled(t, args) == bs + args[p] + cs
  {
    var r := Raw(cs, Done);
    assert Filled(r, args) == cs && Open(r, map[]) == {};
    assert Open(Slot(p, r), map[]) == {p};
    assert Filled(Slot(p, r), args) == args[p] + cs;
    assert bs + (args[p] + cs) == bs + args[p] + cs;
  }

  lemma FilledTag(args: map<string, seq<byte>>)
    requires CC in args && II in args && SS in args
    ensures var t := Slot(CC, Raw([0x02], Slot(II, Slot(SS, Done))));
            Open(t, map[]) <= args.Keys && Filled(t, args) == args[CC] + [0x02] + args[II] + args[SS]
  {
    hide SS, CC, II;
    FilledOne([], SS, args);
    var i := Slot(II, Slot(SS, Done));
    var r := Raw([0x02], i);
    assert Open(i, map[]) == {II, SS} && Open(r, map[]) == {II, SS};
    assert Filled(i, args) == args[II] + args[SS];
    assert Filled(r, args) == [0x02] + (args[II] + args[SS]);
    assert Filled(Slot(CC, r), args) == args[CC] + ([0x02] + (args[II] + args[SS]));
    assert args[CC] + ([0x02] + (args[II] + args[SS])) == args[CC] + [0x02] + args[II] + args[SS];
  }

  lemma FilledBody(op: FeederOp, args: map<string, seq<byte>>)
    requires FeederSlots(op) <= args.Keys
    ensures Open(FeederBody(op), map[]) <= args.Keys
    ensures Filled(FeederBody(op), args) == BodyBytes(op, args)
  {
    hide ZZ, TT, SS, WW, LL, CM, CC, II;
    match op
    case FeederAck => FilledTwo([], SS, [0x00, 0x00], args);
    case FeederGet => FilledOne([], SS, args);
    case SetLeftScale => FilledOne([0x0a], WW, args);
    case SetRightScale => FilledOne([0x0b], WW, args);
    case SetBowlCount => FilledTwo([0x0c], SS, [0x00, 0x00, 0x00], args);
    case SetCloseDelay => FilledOne([0x0d], LL, args);
    case SetCustom => FilledOne([0x14], CM, args);
    case ZeroScale => FilledOne(ZEROING, SS, args);
    case FeederTag => FilledTag(args);
    case _ =>
  }

  /** The setting operations, each as a register and a value. */
  lemma SettingBodyDecodes(t: Tables, device: Mac, op: FeederOp, state: string, args: map<string, seq<byte>>,
                           counter: nat, stamp: seq<byte>)
    returns (body: F.Body)
    requires |stamp| == 4 && FeederArgs(op, state, args) && FeederType(op) == 0x09
    ensures F.DecodeBody(t, device, FrameBytes(0x09, counter, stamp, BodyBytes(op, args))) == Ok(body)
    ensures FeederMeans(t, op, state, body)
  {
    hide ZZ, TT, SS, WW, LL, CM, CC, II, FrameBytes, ToLittle, ToHex, F.RoundHundredths, ReadWeight, FeederChoices, F.DecodeBody,
      FeederCloseDelayName, FeederCloseDelayValue, FeederCustomModeName, FeederCustomModeValue, Value;
    SmallValues();
    SmallTexts();
    var register, n, setting := SettingParts(op, state, args);
    SettingDecodes(t, device, counter, stamp, register, n, setting);
    body := F.UpdateState(setting);
  }

  lemma SettingParts(op: FeederOp, state: string, args: map<string, seq<byte>>)
    returns (register: byte, n: nat, setting: F.Setting)
    requires FeederArgs(op, state, args) && FeederType(op) == 0x09
    ensures BodyBytes(op, args) == [register] + ToLittle(n, 4)
    ensures match register
            case 0x0a => setting == F.LeftScale(F.RoundHundredths(ReadWeight(n)))
            case 0x0b => setting == F.RightScale(F.RoundHundredths(ReadWeight(n)))
            case 0x0c => setting == F.BowlCount(FeederBowlsName(ReadWeight(n)))
            case 0x0d => setting == F.CloseDelay(FeederCloseDelayName(ReadWeight(n)))
            case 0x12 => setting == F.Set12(ReadWeight(n), ToHex(ToLittle(n, 4)))
            case 0x14 => setting == F.CustomMode(ReadWeight(n), FeederCustomModeName(ReadWeight(n)))
            case _ => false
    ensures forall t :: FeederMeans(t, op, state, F.UpdateState(setting))
  {
    hide ZZ, TT, SS, WW, LL, CM, CC, II, ToLittle, ToHex, F.RoundHundredths, ReadWeight, FeederChoices,
      FeederCloseDelayName, FeederCloseDelayValue, FeederCustomModeName, FeederCustomModeValue, Value;
    SmallValues();
    SmallTexts();
    match op
    case SetLeftScale =>
      register, n := 0x0a, Value(10, state) * 100;
      setting := F.LeftScale(F.RoundHundredths(ReadWeight(n)));
    case SetRightScale =>
      register, n := 0x0b, Value(10, state) * 100;
      setting := F.RightScale(F.RoundHundredths(ReadWeight(n)));
    case SetBowlCount =>
      ChoicesKnown(op, state, args[SS]);
      register, n := 0x0c, args[SS][0];
      ReadSmall(n);
      setting := F.BowlCount(FeederBowlsName(n));
      assert [0x0c] + args[SS] + [0x00, 0x00, 0x00] == [0x0c] + (args[SS] + [0x00, 0x00, 0x00]);
    case SetCloseDelay =>
      register, n := 0x0d, FeederCloseDelayValue(state).value;
      DelayNames(state);
      ReadSmall(n);
      setting := F.CloseDelay(state);
    case Set12 =>
      register, n, setting := 0x12, 500, F.Set12(500, "f4010000");
      ReadSmall(n);
    case SetCustom =>
      register, n := 0x14, FeederCustomModeValue(state).value;
      ModeNames(state);
      ReadSmall(n);
      setting := F.CustomMode(n, Some(state));
    case CustomIntruder =>
      IntruderAndGenius();
      register, n, setting := 0x14, 0x100, F.CustomMode(0x100, Some("Intruder"));
      ReadSmall(n);
    case CustomGeniusCat =>
      IntruderAndGenius();
      register, n, setting := 0x14, 0x80, F.CustomMode(0x80, Some("GeniusCat"));
      ReadSmall(n);
  }

  lemma IntruderAndGenius()
    ensures FeederCustomModeName(0x100) == Some("Intruder") && FeederCustomModeName(0x80) == Some("GeniusCat")
    ensures FeederCustomModeValue("Intruder") == Some(0x100)
  {
  }

  /** Every feeder body is decoded as the operation means it. */
  lemma FeederBodyDecodes(t: Tables, device: Mac, op: FeederOp, state: string, args: map<string, seq<byte>>,
                          counter: nat, stamp: seq<byte>)
    returns (body: F.Body)
    requires op != FeederAck && |stamp| == 4 && FeederArgs(op, state, args)
    ensures F.DecodeBody(t, device, FrameBytes(FeederType(op), counter, stamp, BodyBytes(op, args))) == Ok(body)
    ensures FeederMeans(t, op, state, body)
  {
    hide ZZ, TT, SS, WW, LL, CM, CC, II, FrameBytes, F.DecodeBody, FeederChoices, ToHex, Hex2, ToLittle, Split, GoodChip, BytesToTag;
    match op
    case FeederGet =>
      ChoicesKnown(op, state, args[SS]);
      QueryTexts();
      QueryDecodes(t, device, counter, stamp, args[SS]);
      body := F.Query(Hex2(args[SS][0]), ToHex(args[SS][1..]));
    case FeederSetTime =>
      TimeDecodes(t, device, counter, stamp);
      body := F.Time("0000000007");
    case ZeroScale =>
      ChoicesKnown(op, state, args[SS]);
      var scale := args[SS][0];
      ZeroScaleDecodes(t, device, counter, stamp, scale);
      body := F.ZeroScales(FeederZeroScalesName(scale));
    case FeederTag =>
      var parts := Split(state, {'-'});
      var index := ParseInt(10, parts[1]).value;
      TagStateNames(parts[0]);
      NeverEmpty(parts[2]);
      TagDecodes(t, device, counter, stamp, args[CC], 0x02, index, TagStateValue(parts[0]).value);
      body := F.Tag(t.Animal(Some(Lower(parts[2]))), "Normal", 2, index, parts[0]);
      assert args[CC] + [0x02] + args[II] + args[SS] == args[CC] + [0x02, index, TagStateValue(parts[0]).value];
    case _ =>
      body := SettingBodyDecodes(t, device, op, state, args, counter, stamp);
  }

  // ----- main results

  /** The arguments that are accepted. */
  ghost predicate FeederAccepts(op: FeederOp, state: string) {
    match op
    case FeederGet => state in {"Time", "Config", "Unknown0b", "Battery", "Boot10", "Tags", "Boot17"}
    case SetBowlCount => Names(state, "One", 1) || Names(state, "Two", 2)
    case ZeroScale => Names(state, "Left", 1) || Names(state, "Right", 2) || Names(state, "Both", 3)
    case SetLeftScale => state != "" && IsNumeral(10, state) && Value(10, state) <= 42949672
    case SetRightScale => state != "" && IsNumeral(10, state) && Value(10, state) <= 42949672
    case SetCloseDelay => state in {"Fast", "Normal", "Felaqua", "Slow"}
    case SetCustom => FeederCustomModeValue(state).Some?
    case FeederTag =>
      var parts := Split(state, {'-'});
      |parts| == 3 && TagStateValue(parts[0]).Some? && ParseInt(10, parts[1]).Ok? && ChipToHex(parts[2]).Ok?
    case _ => true
  }

  lemma ChosenAccepted(choices: map<string, seq<byte>>, b: base, state: string)
    ensures Choose(choices, b, state).Ok? <==> exists bs :: Denotes(choices, b, state, bs)
  {
    hide Choose, ParseInt, Spaced, Hb;
    if Choose(choices, b, state).Ok? {
      var bs := ChosenDenotes(choices, b, state);
    }
    if bs :| Denotes(choices, b, state, bs) {
      DenotesChosen(choices, b, state, bs);
    }
  }

  lemma DenotesChosen(choices: map<string, seq<byte>>, b: base, state: string, bs: seq<byte>)
    requires Denotes(choices, b, state, bs)
    ensures Choose(choices, b, state).Ok?
  {
    hide ParseInt, Spaced, Hb, ToHex;
    if state !in choices {
      var k :| k in choices && choices[k] == bs;
      OneByteText(bs[0]);
    }
  }

  lemma OneByteText(x: byte)
    ensures Spaced([x]) == Hb(x)
  {
    hide Hex2, IsPrinted;
    Hex2Value(x);
    assert [x][1..] == [];
    assert ToHex([x]) == Hex2(x);
  }

  lemma WeightAccepted(state: string)
    ensures WeightText(state).Ok? <==> state != "" && IsNumeral(10, state) && Value(10, state) <= 42949672
  {
    hide Spaced, ToLittle, Value;
    PowersOfSixteen();
  }

  /** The rest of the acceptance, operation by operation. */
  lemma ArgumentsAccepted(op: FeederOp, state: string, env: map<string, string>)
    requires op != FeederAck
    ensures FeederArguments(op, state, env).Ok? <==> FeederAccepts(op, state)
  {
    if Validated(op) {
      ChoiceAccepted(op, state);
    }
    hide ZZ, TT, SS, WW, LL, CM, CC, II, Choose, WeightText, Denotes, FeederChoices, Spaced, ToLittle, ParseInt, Split, ChipToHex,
      GoodChip, ToHex, SplitByte, Value, IsNumeral;
    ChosenAccepted(FeederChoices(op), 16, state);
    WeightAccepted(state);
    DelayAccepted(state);
  }

  lemma ChoiceAccepted(op: FeederOp, state: string)
    requires Validated(op)
    ensures (exists bs :: Denotes(FeederChoices(op), 16, state, bs)) <==> FeederAccepts(op, state)
  {
    hide Denotes, FeederChoices, ParseInt;
    forall bs
      ensures Denotes(FeederChoices(op), 16, state, bs) <==> Chosen(op, state, bs)
    {
      ChoicesKnown(op, state, bs);
    }
    if FeederAccepts(op, state) {
      var bs: seq<byte> := match op
        case FeederGet =>
          if state == "Time" then [0x07, 0x00] else if state == "Config" then [0x09, 0x00, 0xff]
          else if state == "Unknown0b" then [0x0b, 0x00] else if state == "Battery" then [0x0c, 0x00]
          else if state == "Boot10" then [0x10, 0x00] else if state == "Tags" then [0x11, 0x00, 0xff] else [0x17, 0x00, 0x00]
        case SetBowlCount => if Names(state, "One", 1) then [0x01] else [0x02]
        case ZeroScale => if Names(state, "Left", 1) then [0x01] else if Names(state, "Right", 2) then [0x02] else [0x03]
        case _ => [];
      assert Chosen(op, state, bs);
    }
  }

  lemma DelayAccepted(state: string)
    ensures FeederCloseDelayValue(state).Some? <==> state in {"Fast", "Normal", "Felaqua", "Slow"}
  {
  }

  /**
   A feeder message is generated exactly for accepted arguments, and every one that is
   generated decodes to its type, counter, time and argument.
   */
  lemma FeederRoundTrip(t: Tables, device: Mac, op: FeederOp, state: string, send: nat, now: Stamp, clock: string)
    returns (body: F.Body)
    requires op != FeederAck && send < 65536 && InRange(now) && IsWord(clock)
    ensures FeederMessage(op, state, send, now, clock).Ok? <==> FeederAccepts(op, state)
    ensures FeederAccepts(op, state) && (op == FeederTag ==> GoodTag(state)) ==>
              && DecodeMessage(t, device, FeederMessage(op, state, send, now, clock).value)
                 == Ok(F.Frame(Hb(FeederType(op)), Numeral(10, send), Text(now), body))
              && FeederMeans(t, op, state, body)
  {
    hide ZZ, TT, SS, WW, LL, CM, CC, II, FeederArguments, FeederAccepts, GoodTag, Spaced, ToLittle, ToHex, NoSpaces, FeederTemplate, FeederBody,
      Encoded, Message, Payload, FeederArgs, FeederMeans, F.Decode, F.DecodeBody, Writes, BodyBytes, FeederSlots, FeederType, IsWord, Text, FeederMessage, Slots, Filled, InRange;
    var bs := StampRoundTrip(now);
    var env0 := Slots(send, bs);
    FeederMessageParts(op, state, send, now, clock);
    ArgumentsAccepted(op, state, env0);
    body := F.Unknown("");
    if FeederAccepts(op, state) && (op == FeederTag ==> GoodTag(state)) {
      SlotsHold(send, bs);
      var env := FeederArguments(op, state, env0).value;
      var args := FeederArgsWritten(op, state, env0);
      StandardKept(op, state, env0);
      ArgsCover(op, state, args);
      FeederFrameText(clock, op, env, args, send, bs);
      body := FeederBodyDecodes(t, device, op, state, args, send, bs);
      HeaderDecodes(t, device, FeederType(op), send, now, bs, BodyBytes(op, args));
    }
  }

  lemma FeederFrameText(clock: string, op: FeederOp, env: map<string, string>, args: map<string, seq<byte>>,
                        send: nat, stamp: seq<byte>)
    requires IsWord(clock) && FeederSlots(op) <= args.Keys
    requires forall p :: p in FeederSlots(op) ==> Writes(env, args, p)
    requires ZZ in env && NoSpaces(env[ZZ]) == ToHex(ToLittle(send, 2)) && TT in env && NoSpaces(env[TT]) == ToHex(stamp)
    ensures Payload(Message(clock, FeederTemplate(op), env)) == Ok(FrameBytes(FeederType(op), send, stamp, BodyBytes(op, args)))
  {
    hide ZZ, TT, SS, WW, LL, CM, CC, II, NoSpaces, ToHex, Filled, Payload, Message, Open, FeederTemplate, FeederBody, FeederSlots,
      Writes, IsWord, BodyBytes, ToLittle, FeederType;
    FeederPayload(clock, op, env, args, ToLittle(send, 2), stamp);
    FilledBody(op, args);
  }

  lemma FeederMessageParts(op: FeederOp, state: string, send: nat, now: Stamp, clock: string)
    requires op != FeederAck
    ensures FeederMessage(op, state, send, now, clock)
         == match Encoded(now)
            case Err(e) => Err(e)
            case Ok(stamp) =>
              match FeederArguments(op, state, Slots(send, stamp))
              case Err(e) => Err(e)
              case Ok(env) => Ok(Message(clock, FeederTemplate(op), env))
  {
    hide Encoded, FeederArguments, Slots, Message, FeederTemplate;
  }

  lemma SlotsHold(send: nat, stamp: seq<byte>)
    ensures ZZ in Slots(send, stamp) && NoSpaces(Slots(send, stamp)[ZZ]) == ToHex(ToLittle(send, 2))
    ensures TT in Slots(send, stamp) && NoSpaces(Slots(send, stamp)[TT]) == ToHex(stamp)
  {
    SlotsDistinct();
    hide ZZ, TT, NoSpaces, ToHex, Spaced;
    SpacedHex(ToLittle(send, 2));
    SpacedHex(stamp);
  }

  lemma ArgsCover(op: FeederOp, state: string, args: map<string, seq<byte>>)
    requires FeederArgs(op, state, args)
    ensures FeederSlots(op) <= args.Keys
  {
  }

  /** The arguments leave counter and time alone. */
  lemma StandardKept(op: FeederOp, state: string, env: map<string, string>)
    requires op != FeederAck && FeederArguments(op, state, env).Ok? && ZZ in env && TT in env
    ensures var e := FeederArguments(op, state, env).value;
            ZZ in e && TT in e && e[ZZ] == env[ZZ] && e[TT] == env[TT]
  {
    SlotsDistinct();
    hide ZZ, TT, SS, WW, LL, CM, CC, II, Choose, FeederTagArguments, WeightText, ValueText, FeederChoices;
  }
}
