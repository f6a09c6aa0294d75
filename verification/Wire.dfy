/**
 The commands on the wire: every accepted command of a feeder or cat flap, byte by byte,
 stated in numbers and not through the tables and templates that make it.
 */
module Wire {
  import opened Arithmetic
  import opened Bytes
  import opened Chips
  import opened Commands
  import opened Constants
  import opened Databases
  import opened FlapRoundTrips
  import opened Generators
  import opened Numerals
  import opened Results
  import opened RoundTrips
  import opened Templates
  import opened Texts
  import opened Timestamps
  import F = Frames

  /** Type, 00, counter, time, and the body. */
  function Command(kind: byte, send: nat, stamp: seq<byte>, body: seq<byte>): seq<byte> {
    [kind, 0x00, send % 256, send / 256 % 256] + stamp + body
  }

  lemma CommandFrame(kind: byte, send: nat, stamp: seq<byte>, body: seq<byte>)
    ensures FrameBytes(kind, send, stamp, body) == Command(kind, send, stamp, body)
  {
    assert ToLittle(send / 256, 1) == [send / 256 % 256];
  }

  // ----- feeders

  /** The bits of the custom modes. */
  ghost predicate ModeBits(state: string, low: byte, high: byte) {
    || (state == "Disabled" && low == 0x00 && high == 0x00)
    || (state == "Bit1" && low == 0x01 && high == 0x00) || (state == "Bit2" && low == 0x02 && high == 0x00)
    || (state == "Bit3" && low == 0x04 && high == 0x00) || (state == "Bit4" && low == 0x08 && high == 0x00)
    || (state == "Bit5" && low == 0x10 && high == 0x00) || (state == "Bit6" && low == 0x20 && high == 0x00)
    || (state == "NonSelective" && low == 0x40 && high == 0x00) || (state == "GeniusCat" && low == 0x80 && high == 0x00)
    || (state == "Intruder" && low == 0x00 && high == 0x01) || (state == "Bit10" && low == 0x00 && high == 0x02)
    || (state == "Bit11" && low == 0x00 && high == 0x04) || (state == "Bit12" && low == 0x00 && high == 0x08)
    || (state == "Bit13" && low == 0x00 && high == 0x10) || (state == "Bit14" && low == 0x00 && high == 0x20)
    || (state == "Bit15" && low == 0x00 && high == 0x40) || (state == "Bit16" && low == 0x00 && high == 0x80)
  }

  /** A chip's seven bytes. */
  ghost predicate ChipBytes(chip: string, bs: seq<byte>) {
    |bs| == 7 && bs[6] in {0x01, 0x03} && BytesToTag(bs) == Ok(Some(Lower(chip)))
  }

  /** Hundredths of a number of grams, in four bytes. */
  function WeightBytes(grams: nat): seq<byte> {
    var n := grams * 100;
    [n % 256, n / 256 % 256, n / 256 / 256 % 256, n / 256 / 256 / 256 % 256]
  }

  /** The type and body that tell a feeder what an operation and its argument mean. */
  ghost predicate FeederBytes(op: FeederOp, state: string, kind: byte, body: seq<byte>) {
    match op
    case FeederAck => false
    case FeederGet =>
      && kind == 0x01
      && (|| (state == "Time" && body == [0x07, 0x00])
          || (state == "Config" && body == [0x09, 0x00, 0xff])
          || (state == "Unknown0b" && body == [0x0b, 0x00])
          || (state == "Battery" && body == [0x0c, 0x00])
          || (state == "Boot10" && body == [0x10, 0x00])
          || (state == "Tags" && body == [0x11, 0x00, 0xff])
          || (state == "Boot17" && body == [0x17, 0x00, 0x00]))
    case FeederSetTime => kind == 0x07 && body == [0x00, 0x00, 0x00, 0x00, 0x07]
    case SetLeftScale => kind == 0x09 && body == [0x0a] + WeightBytes(Value(10, state))
    case SetRightScale => kind == 0x09 && body == [0x0b] + WeightBytes(Value(10, state))
    case SetBowlCount =>
      && kind == 0x09
      && (|| (Names(state, "One", 1) && body == [0x0c, 0x01, 0x00, 0x00, 0x00])
          || (Names(state, "Two", 2) && body == [0x0c, 0x02, 0x00, 0x00, 0x00]))
    case SetCloseDelay =>
      && kind == 0x09
      && (|| (state == "Fast" && body == [0x0d, 0x00, 0x00, 0x00, 0x00])
          || (state == "Normal" && body == [0x0d, 0xa0, 0x0f, 0x00, 0x00])
          || (state == "Felaqua" && body == [0x0d, 0x88, 0x13, 0x00, 0x00])
          || (state == "Slow" && body == [0x0d, 0x20, 0x4e, 0x00, 0x00]))
    case Set12 => kind == 0x09 && body == [0x12, 0xf4, 0x01, 0x00, 0x00]
    case SetCustom => kind == 0x09 && exists low: byte, high: byte :: ModeBits(state, low, high) && body == [0x14, low, high, 0x00, 0x00]
    case CustomIntruder => kind == 0x09 && body == [0x14, 0x00, 0x01, 0x00, 0x00]
    case CustomGeniusCat => kind == 0x09 && body == [0x14, 0x80, 0x00, 0x00, 0x00]
    case ZeroScale =>
      && kind == 0x0d && |body| == 12 && body[..11] == [0x00, 0x19, 0x00, 0x00, 0x00, 0x03, 0x00, 0x00, 0x00, 0x00, 0x01]
      && (|| (Names(state, "Left", 1) && body[11] == 0x01)
          || (Names(state, "Right", 2) && body[11] == 0x02)
          || (Names(state, "Both", 3) && body[11] == 0x03))
    case FeederTag =>
      var parts := Split(state, {'-'});
      && kind == 0x11 && |parts| == 3
      && exists chip: seq<byte>, tagState: byte, index: nat ::
           && ChipBytes(parts[2], chip) && ParseInt(10, parts[1]) == Ok(index) && index < 256 && TagStateByte(parts[0], tagState)
           && body == chip + [0x02, index, tagState]
  }

  ghost predicate TagStateByte(name: string, tagState: byte) {
    || (name == "Enabled" && tagState == 0x00)
    || (name == "Disabled" && tagState == 0x01)
    || (name == "LockState" && tagState == 0x02)
  }

  lemma DelayBytes(state: string)
    requires FeederCloseDelayValue(state).Some?
    ensures var bs := ToLittle(FeederCloseDelayValue(state).value, 4);
            || (state == "Fast" && bs == [0x00, 0x00, 0x00, 0x00])
            || (state == "Normal" && bs == [0xa0, 0x0f, 0x00, 0x00])
            || (state == "Felaqua" && bs == [0x88, 0x13, 0x00, 0x00])
            || (state == "Slow" && bs == [0x20, 0x4e, 0x00, 0x00])
  {
    hide ToLittle;
    LittleFour(0);
    LittleFour(4000);
    LittleFour(5000);
    LittleFour(20000);
  }

  lemma ModeBytes(state: string) returns (low: byte, high: byte)
    requires FeederCustomModeValue(state).Some?
    ensures ModeBits(state, low, high) && ToLittle(FeederCustomModeValue(state).value, 4) == [low, high, 0x00, 0x00]
  {
    hide ToLittle;
    var n := FeederCustomModeValue(state).value;
    low, high := n % 256, n / 256;
    LittleFour(n);
  }

  lemma TagStateBytes(name: string)
    requires TagStateValue(name).Some?
    ensures TagStateByte(name, TagStateValue(name).value)
  {
  }

  lemma FeederBytesOf(op: FeederOp, state: string, args: map<string, seq<byte>>)
    requires op != FeederAck && FeederArgs(op, state, args)
    ensures FeederBytes(op, state, FeederType(op), BodyBytes(op, args))
  {
    hide ZZ, TT, SS, WW, LL, CM, CC, II, ToLittle, FeederChoices, Denotes, Names, Split, GoodChip, BytesToTag, ParseInt, Value,
      FeederCloseDelayValue, FeederCustomModeValue, ModeBits, TagStateValue, TagStateByte;
    match op
    case FeederGet => ChoicesKnown(op, state, args[SS]);
    case SetBowlCount =>
      ChoicesKnown(op, state, args[SS]);
    case ZeroScale =>
      ChoicesKnown(op, state, args[SS]);
      assert (ZEROING + args[SS])[..11] == ZEROING;
    case SetLeftScale => LittleFour(Value(10, state) * 100);
    case SetRightScale => LittleFour(Value(10, state) * 100);
    case SetCloseDelay => DelayBytes(state);
    case SetCustom =>
      var low, high := ModeBytes(state);
      assert BodyBytes(op, args) == [0x14, low, high, 0x00, 0x00];
    case FeederTag =>
      var parts := Split(state, {'-'});
      TagStateBytes(parts[0]);
      assert ChipBytes(parts[2], args[CC]);
      assert BodyBytes(op, args) == args[CC] + [0x02, ParseInt(10, parts[1]).value, TagStateValue(parts[0]).value];
    case _ =>
  }

  /** An accepted feeder command carries exactly these bytes. */
  lemma FeederWire(op: FeederOp, state: string, send: nat, now: Stamp, clock: string)
    returns (kind: byte, stamp: seq<byte>, body: seq<byte>)
    requires op != FeederAck && send < 65536 && InRange(now) && IsWord(clock)
    requires FeederAccepts(op, state) && (op == FeederTag ==> GoodTag(state))
    ensures FeederMessage(op, state, send, now, clock).Ok? && Encoded(now) == Ok(stamp)
    ensures Payload(FeederMessage(op, state, send, now, clock).value) == Ok(Command(kind, send, stamp, body))
    ensures FeederBytes(op, state, kind, body)
  {
    hide ZZ, TT, SS, WW, LL, CM, CC, II, FeederArguments, FeederAccepts, GoodTag, Spaced, ToLittle, ToHex, NoSpaces, FeederTemplate, FeederBody,
      Encoded, Message, Payload, FeederArgs, FeederBytes, Writes, BodyBytes, FeederSlots, FeederType, IsWord, FeederMessage, Slots, Filled,
      InRange, Text, Command;
    stamp := StampRoundTrip(now);
    var env0 := Slots(send, stamp);
    FeederMessageParts(op, state, send, now, clock);
    ArgumentsAccepted(op, state, env0);
    SlotsHold(send, stamp);
    var env := FeederArguments(op, state, env0).value;
    var args := FeederArgsWritten(op, state, env0);
    StandardKept(op, state, env0);
    ArgsCover(op, state, args);
    FeederFrameText(clock, op, env, args, send, stamp);
    FeederBytesOf(op, state, args);
    kind, body := FeederType(op), BodyBytes(op, args);
    CommandFrame(kind, send, stamp, body);
  }

  /** An acknowledgement carries the counter and type it acknowledges, and two zeros. */
  lemma AckWire(kind: byte, counter: nat, now: Stamp, clock: string) returns (stamp: seq<byte>)
    requires counter < 65536 && InRange(now) && IsWord(clock)
    ensures AckMessage(AckState(Hex2(kind), Numeral(10, counter)), now, clock).Ok? && Encoded(now) == Ok(stamp)
    ensures Payload(AckMessage(AckState(Hex2(kind), Numeral(10, counter)), now, clock).value)
         == Ok(Command(0x00, counter, stamp, [kind, 0x00, 0x00]))
  {
    hide Encoded, InRange, IsWord, AckMessage, AckState, Payload, FrameBytes, Hex2, Numeral, F.Decode, Text, Command;
    stamp := StampRoundTrip(now);
    AckRoundTrip(Tables(map[], map[], map[], map[], map[], map[], map[]), "", kind, counter, now, clock);
    CommandFrame(0x00, counter, stamp, [kind, 0x00, 0x00]);
    assert [kind] + [0x00, 0x00] == [kind, 0x00, 0x00];
  }

  // ----- cat flaps

  /** The lock byte of each lock command. */
  function LockCode(lock: LockOp): byte {
    match lock
    case Unlocked => 0x06
    case LockKeepIn => 0x03
    case LockKeepOut => 0x05
    case Locked => 0x04
  }

  /** The lock byte a switch asks for, by the mode the flap is in. */
  function KeepCode(side: Side, state: string, lm: int): byte {
    if side == KeepIn && state == "ON" then (if lm == 0 then 0x03 else if lm == 2 then 0x04 else 0x06)
    else if side == KeepIn && state == "OFF" then (if lm == 3 then 0x05 else 0x06)
    else if side == KeepOut && state == "ON" then (if lm == 0 then 0x05 else if lm == 1 then 0x04 else 0x06)
    else if side == KeepOut && state == "OFF" then (if lm == 3 then 0x03 else 0x06)
    else 0x06
  }

  ghost predicate TagLockByte(name: string, lock: byte) {
    || (name == "Normal" && lock == 0x02)
    || (name == "KeepIn" && lock == 0x03)
    || (name == "Locked" && lock == 0x04)
    || (name == "KeepOut" && lock == 0x05)
    || (name == "Unlocked" && lock == 0x06)
    || (name !in {"Normal", "KeepIn", "Locked", "KeepOut", "Unlocked"} && lock == 0x03)
  }

  /** The curfews of a command: nine bytes each, filled up to four. */
  ghost predicate CurfewPieces(pairs: seq<(Stamp, Stamp)>, entries: seq<byte>) {
    && |entries| == 9 * (if |pairs| < 4 then 4 else |pairs|)
    && forall i :: 0 <= i < |entries| / 9 ==> Piece(pairs, i, entries[9 * i..9 * i + 9])
  }

  /** Start, end and 03, to the minute; or the filler. */
  ghost predicate Piece(pairs: seq<(Stamp, Stamp)>, i: nat, piece: seq<byte>) {
    if i < |pairs| then
      && Encoded(pairs[i].0.(second := 0)).Ok? && Encoded(pairs[i].1.(second := 0)).Ok?
      && piece == Encoded(pairs[i].0.(second := 0)).value + Encoded(pairs[i].1.(second := 0)).value + [0x03]
    else piece == [0x00, 0x00, 0x42, 0x00, 0x00, 0x00, 0x42, 0x00, 0x06]
  }

  /** The type and body that tell a cat flap what an operation and its argument mean. */
  ghost predicate FlapBytes(op: CatFlapOp, state: string, lm: int, zone: Zone, kind: byte, body: seq<byte>) {
    match op
    case FlapAck => false
    case FlapGet =>
      && kind == 0x01
      && (|| (state == "Boot9" && body == [0x09, 0x00, 0xff])
          || (state == "Unknown0b" && body == [0x0b, 0x00])
          || (state == "Battery" && body == [0x0c, 0x00])
          || (state == "Boot10" && body == [0x10, 0x00])
          || (state == "Tags" && body == [0x11, 0x00, 0xff])
          || (state == "Boot17" && body == [0x17, 0x00, 0x00]))
    case FlapSetTime => kind == 0x07 && body == [0x00, 0x00, 0x00, 0x00, 0x07]
    case Lock(lock) => kind == 0x11 && body == [0x00, 0x00, 0x00, 0x00, 0x00, 0x00, 0x07, LockCode(lock), 0x00, 0x02]
    case Keep(side) => kind == 0x11 && body == [0x00, 0x00, 0x00, 0x00, 0x00, 0x00, 0x07, KeepCode(side, state, lm), 0x00, 0x02]
    case FlapTag =>
      var parts := Split(state, {'-'});
      && kind == 0x11 && |parts| == 4
      && exists chip: seq<byte>, lock: byte, tagState: byte, index: nat ::
           && ChipBytes(parts[1], chip) && ParseInt(10, parts[0]) == Ok(index) && index < 256 && TagLockByte(parts[2], lock)
           && (TagStateByte(parts[3], tagState) || (parts[3] !in {"Enabled", "Disabled", "LockState"} && tagState == 0x00))
           && body == chip + [lock, index, tagState]
    case FlapCurfew =>
      && kind == 0x12 && Parsed(CurfewsOf(state), zone).Ok?
      && 8 <= |body| && body[..8] == [0x00, 0x00, 0x00, 0x00, 0x00, 0x00, 0x07, 0x00]
      && CurfewPieces(Parsed(CurfewsOf(state), zone).value, body[8..])
  }

  lemma {:induction false} FillerPieces(k: nat, i: nat)
    requires i < k
    ensures |Fillers(k)| == 9 * k && Fillers(k)[9 * i..9 * i + 9] == [0x00, 0x00, 0x42, 0x00, 0x00, 0x00, 0x42, 0x00, 0x06]
  {
    hide F.CurfewEntries;
    FillersVanish(k);
    FillersVanish(k - 1);
    var rest := Fillers(k - 1);
    assert Fillers(k) == FILLER + rest && (FILLER + rest)[..9] == FILLER;
    if i != 0 {
      FillerPieces(k - 1, i - 1);
      Later(FILLER, rest, i);
    }
  }

  /** Past the first nine bytes. */
  lemma Later(first: seq<byte>, rest: seq<byte>, i: nat)
    requires |first| == 9 && 0 < i && 9 * i <= |rest|
    ensures (first + rest)[9 * i..9 * i + 9] == rest[9 * (i - 1)..9 * (i - 1) + 9]
  {
    var j := 9 * (i - 1);
    assert (first + rest)[9..] == rest;
    assert (first + rest)[9 + j..9 + j + 9] == (first + rest)[9..][j..j + 9];
  }

  lemma EntryPiece(p: (Stamp, Stamp))
    requires InRange(p.0) && InRange(p.1)
    ensures Encoded(p.0.(second := 0)).Ok? && Encoded(p.1.(second := 0)).Ok?
    ensures CurfewEntry(p) == Ok(Encoded(p.0.(second := 0)).value + Encoded(p.1.(second := 0)).value + [0x03])
    ensures |CurfewEntry(p).value| == 9
  {
    hide Encoded, FromText, TwoDigits, ToHex, Text, ToText, Separated, FromHex;
    var s, e := p.0.(second := 0), p.1.(second := 0);
    var a := StampRoundTrip(s);
    var b := StampRoundTrip(e);
    EmptyPrinted();
    ParseSeparated("", s, " ", " ", " ");
    ParseSeparated("", e, " ", " ", " ");
    assert "" + TwoDigits(s.year) == TwoDigits(s.year) && "" + TwoDigits(e.year) == TwoDigits(e.year);
    ToHexAppend(a, b);
    HexRoundTrip(a + b);
  }

  lemma {:induction false} CurfewLayout(pairs: seq<(Stamp, Stamp)>, count: nat, i: nat)
    requires AllInRange(pairs) && i < (if |pairs| + count < 4 then 4 - count else |pairs|)
    ensures CurfewBytes(pairs, count).Ok? && |CurfewBytes(pairs, count).value| == 9 * (if |pairs| + count < 4 then 4 - count else |pairs|)
    ensures Piece(pairs, i, CurfewBytes(pairs, count).value[9 * i..9 * i + 9])
    decreases |pairs|
  {
    hide CurfewEntry, F.CurfewEntries, CurfewTexts, Encoded, InRange;
    CurfewRoundTrip(pairs, count);
    if pairs == [] {
      FillerPieces(4 - count, i);
    } else {
      EntryPiece(pairs[0]);
      CurfewRoundTrip(pairs[1..], count + 1);
      var first, rest := CurfewEntry(pairs[0]).value, CurfewBytes(pairs[1..], count + 1).value;
      assert CurfewBytes(pairs, count).value == first + rest;
      if i != 0 {
        CurfewLayout(pairs[1..], count + 1, i - 1);
        Later(first, rest, i);
        assert i < |pairs| ==> pairs[1..][i - 1] == pairs[i];
      }
    }
  }

  lemma CurfewsLaidOut(pairs: seq<(Stamp, Stamp)>)
    requires AllInRange(pairs)
    ensures CurfewBytes(pairs, 0).Ok? && CurfewPieces(pairs, CurfewBytes(pairs, 0).value)
  {
    hide CurfewBytes, Piece, AllInRange;
    CurfewLayout(pairs, 0, 0);
    var entries := CurfewBytes(pairs, 0).value;
    forall i | 0 <= i < |entries| / 9
      ensures Piece(pairs, i, entries[9 * i..9 * i + 9])
    {
      CurfewLayout(pairs, 0, i);
    }
  }

  lemma TagLockBytes(name: string)
    ensures TagLockByte(name, FlapLock(name))
  {
  }

  lemma TagStateChoices(name: string)
    ensures TagStateByte(name, FlapTagState(name)) || (name !in {"Enabled", "Disabled", "LockState"} && FlapTagState(name) == 0x00)
  {
  }

  lemma KeepCodes(side: Side, state: string, lm: int)
    ensures LockByte(LockChoice(side, state, lm)) == KeepCode(side, state, lm)
  {
  }

  lemma FlapBytesOf(op: CatFlapOp, state: string, lm: int, zone: Zone, args: map<string, seq<byte>>)
    requires op != FlapAck && CatFlapArgs(op, state, zone, args)
    ensures FlapBytes(op, state, lm, zone, CatFlapType(op), CatFlapBytes(op, state, lm, args))
  {
    hide ZZ, TT, SS, WW, LL, CM, CC, II, KK, AA, CatFlapChoices, Denotes, Split, GoodChip, BytesToTag, ParseInt, FlapLock, FlapTagState,
      TagStateByte, TagLockByte, LockChoice, KeepCode, Parsed, CurfewsOf, CurfewBytes, CurfewPieces, AllInRange;
    match op
    case FlapGet => FlapChoicesKnown(state, args[SS]);
    case Keep(side) => KeepCodes(side, state, lm);
    case FlapTag =>
      var parts := Split(state, {'-'});
      var index := ParseInt(10, parts[0]).value;
      TagLockBytes(parts[2]);
      TagStateChoices(parts[3]);
      assert ChipBytes(parts[1], args[CC]);
      assert CatFlapBytes(op, state, lm, args) == args[CC] + [FlapLock(parts[2]), index, FlapTagState(parts[3])];
    case FlapCurfew =>
      CurfewsLaidOut(Parsed(CurfewsOf(state), zone).value);
      var body := CatFlapBytes(op, state, lm, args);
      assert body[..8] == [0x00, 0x00, 0x00, 0x00, 0x00, 0x00, 0x07, 0x00] && body[8..] == args[AA];
    case _ =>
  }

  /** An accepted cat flap command carries exactly these bytes. */
  lemma CatFlapWire(op: CatFlapOp, state: string, lm: int, zone: Zone, entries: Result<string>, send: nat, now: Stamp, clock: string)
    returns (kind: byte, stamp: seq<byte>, body: seq<byte>)
    requires op != FlapAck && send < 65536 && InRange(now) && IsWord(clock)
    requires op == FlapCurfew ==> ZoneInRange(zone) && EntriesOf(entries, state, zone)
    requires CatFlapAccepts(op, state, zone) && (op == FlapTag ==> GoodFlapTag(state))
    ensures CatFlapMessage(op, state, lm, entries, send, now, clock).Ok? && Encoded(now) == Ok(stamp)
    ensures Payload(CatFlapMessage(op, state, lm, entries, send, now, clock).value) == Ok(Command(kind, send, stamp, body))
    ensures FlapBytes(op, state, lm, zone, kind, body)
  {
    hide ZZ, TT, SS, WW, LL, CM, CC, II, KK, AA, CatFlapArguments, CatFlapAccepts, GoodFlapTag, ToLittle, ToHex, NoSpaces, CatFlapTemplate, CatFlapBody,
      Encoded, Message, Payload, CatFlapArgs, FlapBytes, Writes, CatFlapBytes, CatFlapSlots, CatFlapType, IsWord, Text, CatFlapMessage, Slots,
      InRange, EntriesOf, AllSlots, ZoneInRange, Command;
    stamp := StampRoundTrip(now);
    CatFlapMessageParts(op, state, lm, entries, send, now, clock);
    FlapArgumentsAccepted(op, state, zone, entries);
    CurfewParsed(op, state, zone);
    var env := CatFlapArguments(op, state, entries).value;
    var args := CatFlapArgsWritten(op, state, zone, entries, send, stamp);
    FlapArgsCover(op, state, zone, args);
    CatFlapFrameText(clock, op, state, lm, env, args, send, stamp);
    FlapBytesOf(op, state, lm, zone, args);
    kind, body := CatFlapType(op), CatFlapBytes(op, state, lm, args);
    CommandFrame(kind, send, stamp, body);
  }

  // ----- the times of a curfew argument

  /** From an hour and minute to another. */
  datatype Hours = Hours(startHour: nat, startMinute: nat, endHour: nat, endMinute: nat) {
    predicate Valid() {
      startHour < 24 && startMinute < 60 && endHour < 24 && endMinute < 60
    }

    function Text(): string {
      TwoDigits(startHour) + ":" + TwoDigits(startMinute) + "-" + TwoDigits(endHour) + ":" + TwoDigits(endMinute)
    }

    function Moments(zone: Zone): (Stamp, Stamp) {
      (zone(startHour, startMinute), zone(endHour, endMinute))
    }
  }

  /** An hour and a minute of two digits each are a time of day exactly below 24 and 60. */
  lemma ClockParses(hour: nat, minute: nat)
    requires hour < 100 && minute < 100
    ensures ParseClock(TwoDigits(hour) + ":" + TwoDigits(minute))
         == if hour < 24 && minute < 60 then Ok((hour, minute)) else Err(ValueError)
  {
    hide Split, Fixed, Value, Pow;
    var h, m := TwoDigits(hour), TwoDigits(minute);
    Separators(h);
    Separators(m);
    hide Free;
    SplitAppend(h, ':', m, {':'});
    SplitFree(m, {':'});
    assert h + ":" + m == h + [':'] + m;
    TwoDigitValue(hour);
    TwoDigitValue(minute);
  }

  lemma Separators(s: string)
    requires IsPrinted(10, s)
    ensures Free(s, {':'}) && Free(s, {'-'}) && Free(s, {','})
  {
    assert DigitValue(':') == 16 && DigitValue('-') == 16 && DigitValue(',') == 16;
  }

  lemma TwoDigitValue(n: nat)
    requires n < 100
    ensures IsNumeral(10, TwoDigits(n)) && Value(10, TwoDigits(n)) == n
  {
    hide Fixed, Value;
    PrintedIsNumeral(10, TwoDigits(n));
    TwoDigitsValue(n);
  }

  lemma ClockFree(hour: nat, minute: nat)
    ensures Free(TwoDigits(hour) + ":" + TwoDigits(minute), {'-'}) && Free(TwoDigits(hour) + ":" + TwoDigits(minute), {','})
  {
    hide Fixed;
    Separators(TwoDigits(hour));
    Separators(TwoDigits(minute));
  }

  /** One curfew is parsed as its start and end. */
  lemma HoursParse(c: Hours, zone: Zone)
    requires c.Valid()
    ensures ParseCurfew(c.Text(), zone) == Ok(c.Moments(zone)) && Free(c.Text(), {','}) && 1 < |c.Text()|
  {
    hide Split, TwoDigits, ParseClock;
    var a, b := TwoDigits(c.startHour) + ":" + TwoDigits(c.startMinute), TwoDigits(c.endHour) + ":" + TwoDigits(c.endMinute);
    ClockParses(c.startHour, c.startMinute);
    ClockParses(c.endHour, c.endMinute);
    ClockFree(c.startHour, c.startMinute);
    ClockFree(c.endHour, c.endMinute);
    assert c.Text() == a + ['-'] + b;
    assert Free(c.Text(), {','});
    hide Free;
    SplitAppend(a, '-', b, {'-'});
    SplitFree(b, {'-'});
  }

  /** Curfews separated by commas. */
  function CurfewState(cs: seq<Hours>): string {
    if cs == [] then ""
    else if |cs| == 1 then cs[0].Text()
    else cs[0].Text() + "," + CurfewState(cs[1..])
  }

  function MomentsOf(cs: seq<Hours>, zone: Zone): seq<(Stamp, Stamp)> {
    if cs == [] then [] else [cs[0].Moments(zone)] + MomentsOf(cs[1..], zone)
  }

  lemma {:induction false} StateParses(cs: seq<Hours>, zone: Zone)
    requires cs != [] && forall c :: c in cs ==> c.Valid()
    ensures 1 < |CurfewState(cs)| && Parsed(Split(CurfewState(cs), {','}), zone) == Ok(MomentsOf(cs, zone))
    decreases |cs|
  {
    hide ParseCurfew, Split, Free, Hours.Text, Hours.Moments;
    var first, rest := cs[0].Text(), cs[1..];
    HoursParse(cs[0], zone);
    if |cs| == 1 {
      SplitFree(first, {','});
      assert [first][1..] == [] && Parsed([], zone) == Ok([]) && rest == [];
    } else {
      StateParses(rest, zone);
      var parts := Split(CurfewState(rest), {','});
      SplitAppend(first, ',', CurfewState(rest), {','});
      assert CurfewState(cs) == first + [','] + CurfewState(rest);
      assert ([first] + parts)[1..] == parts;
    }
  }

  /** A state of at most one character stands for no curfew. */
  lemma NoCurfew(state: string)
    ensures |state| <= 1 ==> CurfewsOf(state) == []
    ensures 1 < |state| ==> CurfewsOf(state) != []
  {
    hide Split;
  }

  /** Any list of times of day is parsed as their moments, in order. */
  lemma CurfewStateParses(cs: seq<Hours>, zone: Zone)
    requires forall c :: c in cs ==> c.Valid()
    ensures Parsed(CurfewsOf(CurfewState(cs)), zone) == Ok(MomentsOf(cs, zone))
    ensures |MomentsOf(cs, zone)| == |cs| && forall i :: 0 <= i < |cs| ==> MomentsOf(cs, zone)[i] == cs[i].Moments(zone)
  {
    hide Split, ParseCurfew, Hours.Text;
    MomentsInOrder(cs, zone);
    if cs != [] {
      StateParses(cs, zone);
    }
  }

  lemma {:induction false} MomentsInOrder(cs: seq<Hours>, zone: Zone)
    ensures |MomentsOf(cs, zone)| == |cs| && forall i :: 0 <= i < |cs| ==> MomentsOf(cs, zone)[i] == cs[i].Moments(zone)
  {
    hide Hours.Moments;
    if cs != [] {
      MomentsInOrder(cs[1..], zone);
      assert forall i :: 1 <= i < |cs| ==> cs[i] == cs[1..][i - 1] && MomentsOf(cs, zone)[i] == MomentsOf(cs[1..], zone)[i - 1];
    }
  }
}
