/**
 What devices report, byte by byte: frames built from their values decode to those values,
 and the rows that change are the ones the report names.
 */
module Reports {
  import opened Arithmetic
  import opened Bytes
  import opened Chips
  import opened Constants
  import opened Databases
  import opened Numerals
  import opened Results
  import opened RoundTrips
  import opened Timestamps
  import F = Frames

  // ----- signed numbers

  predicate IsSigned(n: int) {
    -0x8000_0000 <= n < 0x8000_0000
  }

  /** Four bytes, least significant first, in two's complement. */
  function Signed(n: int): (bs: seq<byte>)
    requires IsSigned(n)
    ensures |bs| == 4
  {
    var m: nat := if n < 0 then n + 0x1_0000_0000 else n;
    [m % 256, m / 256 % 256, m / 0x1_0000 % 256, m / 0x100_0000]
  }

  lemma SignedRoundTrip(n: int)
    requires IsSigned(n)
    ensures FromLittleSigned(Signed(n)) == n
  {
    hide FromLittle, Pow;
    var m: nat := if n < 0 then n + 0x1_0000_0000 else n;
    var bs := Signed(n);
    FourByteValue(bs[0], bs[1], bs[2], bs[3]);
    FourByteNumber(m);
    assert bs == [bs[0], bs[1], bs[2], bs[3]];
    PowersOfSixteen();
  }

  lemma FourByteValue(b0: byte, b1: byte, b2: byte, b3: byte)
    ensures FromLittle([b0, b1, b2, b3]) == b0 + 256 * b1 + 0x1_0000 * b2 + 0x100_0000 * b3
  {
    ThreeByteValue(b1, b2, b3);
    assert [b0, b1, b2, b3][1..] == [b1, b2, b3];
  }

  lemma FourByteNumber(m: nat)
    ensures m == m % 256 + 256 * (m / 256 % 256) + 0x1_0000 * (m / 0x1_0000 % 256) + 0x100_0000 * (m / 0x100_0000)
    ensures 0x8000_0000 <= m <==> 128 <= m / 0x100_0000
  {
    var q := m / 256;
    var p := q / 256;
    assert m / 0x1_0000 == p && m / 0x100_0000 == p / 256;
  }

  // ----- fields of a frame

  lemma Field(op: byte, counter: nat, stamp: seq<byte>, a: seq<byte>, s: seq<byte>, b: seq<byte>)
    requires |stamp| == 4
    ensures F.Slice(FrameBytes(op, counter, stamp, a + s + b), 8 + |a|, 8 + |a| + |s|) == s
  {
    hide FrameBytes;
    BodySlice(op, counter, stamp, a + s + b, |a|, |a| + |s|);
    assert (a + s + b)[|a|..|a| + |s|] == s;
  }

  /** The last field may be shorter than what is read of it. */
  lemma LastField(op: byte, counter: nat, stamp: seq<byte>, a: seq<byte>, s: seq<byte>, n: nat)
    requires |stamp| == 4 && |s| <= n
    ensures F.Slice(FrameBytes(op, counter, stamp, a + s), 8 + |a|, 8 + |a| + n) == s
  {
    hide FrameBytes;
    BodySlice(op, counter, stamp, a + s, |a|, |a| + n);
    assert (a + s)[|a|..] == s;
  }

  /** The frame once its body is decoded. */
  function Reported(op: byte, counter: nat, now: Stamp, body: F.Body): Result<F.Frame> {
    Ok(F.Frame(Hex2(op), Numeral(10, counter), Text(now), body))
  }

  // ----- feeds

  datatype Weights = Weights(leftFrom: int, leftTo: int, rightFrom: int, rightTo: int) {
    predicate Valid() {
      IsSigned(leftFrom) && IsSigned(leftTo) && IsSigned(rightFrom) && IsSigned(rightTo)
    }
  }

  /** Chip, action, seconds, two unused bytes, and the four weights. */
  function FeedBody(chip: seq<byte>, action: byte, seconds: byte, unused: (byte, byte), w: Weights, rest: seq<byte>): seq<byte>
    requires w.Valid()
  {
    chip + [action, seconds, unused.0, unused.1]
    + Signed(w.leftFrom) + Signed(w.leftTo) + Signed(w.rightFrom) + Signed(w.rightTo) + rest
  }

  /** The actions of a feeder, by number. */
  function Action(action: byte): Option<string> {
    if action == 0 then Some("Animal_Open") else if action == 1 then Some("Animal_Closed")
    else if action == 2 then Some("Intruder_Closed") else if action == 4 then Some("Manual_Open")
    else if action == 5 then Some("Manual_Closed") else if action == 6 then Some("Zero_Both")
    else if action == 7 then Some("Zero_Left") else if action == 8 then Some("Zero_Right") else None
  }

  lemma FeedFields(counter: nat, stamp: seq<byte>, chip: seq<byte>, action: byte, seconds: byte, unused: (byte, byte),
                   w: Weights, rest: seq<byte>)
    requires |stamp| == 4 && |chip| == 7 && w.Valid()
    ensures var v := FrameBytes(0x18, counter, stamp, FeedBody(chip, action, seconds, unused, w, rest));
            && 35 <= |v| && v[0] == 0x18 && v[8..15] == chip && v[15] == action && FromLittle(F.Slice(v, 16, 17)) == seconds
            && FromLittleSigned(F.Slice(v, 19, 23)) == w.leftFrom && FromLittleSigned(F.Slice(v, 23, 27)) == w.leftTo
            && FromLittleSigned(F.Slice(v, 27, 31)) == w.rightFrom && FromLittleSigned(F.Slice(v, 31, 35)) == w.rightTo
  {
    hide FrameBytes, FromLittleSigned, Signed, IsSigned;
    var body := FeedBody(chip, action, seconds, unused, w, rest);
    var lf, lt, rf, rt := Signed(w.leftFrom), Signed(w.leftTo), Signed(w.rightFrom), Signed(w.rightTo);
    var head := chip + [action, seconds, unused.0, unused.1];
    SignedRoundTrip(w.leftFrom);
    SignedRoundTrip(w.leftTo);
    SignedRoundTrip(w.rightFrom);
    SignedRoundTrip(w.rightTo);
    FrameParts(0x18, counter, stamp, body);
    assert body == head + lf + (lt + rf + rt + rest);
    Field(0x18, counter, stamp, head, lf, lt + rf + rt + rest);
    assert body == head + lf + lt + (rf + rt + rest);
    Field(0x18, counter, stamp, head + lf, lt, rf + rt + rest);
    assert body == head + lf + lt + rf + (rt + rest);
    Field(0x18, counter, stamp, head + lf + lt, rf, rt + rest);
    Field(0x18, counter, stamp, head + lf + lt + rf, rt, rest);
    assert body == chip + ([action, seconds, unused.0, unused.1] + (lf + lt + rf + rt + rest));
    var v := FrameBytes(0x18, counter, stamp, body);
    assert v[8..15] == v[8..][..7] == body[..7] == chip;
    assert body[7] == action && body[8] == seconds && v[8 + 7] == body[7] && v[8 + 8] == body[8];
    OneByte(seconds);
    assert F.Slice(v, 16, 17) == [seconds];
  }

  lemma OneByte(x: byte)
    ensures FromLittle([x]) == x
  {
    assert [x][1..] == [];
  }

  lemma ActionNames(action: byte)
    ensures FeederStateName(action) == Action(action)
  {
  }

  /** A feed decodes to its action, pet, seconds, four weights and the bowls of the feeder; one by hand has no pet. */
  lemma FeedDecodes(t: Tables, device: Mac, counter: nat, now: Stamp, stamp: seq<byte>, chip: seq<byte>, action: byte,
                    seconds: byte, unused: (byte, byte), w: Weights, rest: seq<byte>)
    requires counter < 65536 && InRange(now) && Encoded(now) == Ok(stamp) && |chip| == 7 && w.Valid() && Action(action).Some?
    ensures var v := FrameBytes(0x18, counter, stamp, FeedBody(chip, action, seconds, unused, w, rest));
            var bowls := if device in t.feeders then t.feeders[device].bowlType else 1;
            var body := animal => F.Feed(Action(action).value, animal, seconds, w.leftFrom, w.leftTo, w.rightFrom, w.rightTo, bowls);
            F.Decode(t, device, v)
            == if 4 <= action <= 7 then Reported(0x18, counter, now, body(Some("Manual")))
               else match BytesToTag(chip)
                    case Ok(tag) => Reported(0x18, counter, now, body(t.Animal(tag)))
                    case Err(e) => Err(e)
  {
    hide FrameBytes, FromLittleSigned, FromLittle, FeedBody, FeederStateName, Action, BytesToTag, Encoded, Text, InRange, Numeral, Hex2,
      Hb, ToText, F.Slice;
    var bs := StampRoundTrip(now);
    var body := FeedBody(chip, action, seconds, unused, w, rest);
    FeedFields(counter, stamp, chip, action, seconds, unused, w, rest);
    ActionNames(action);
    Hex2Value(0x18);
    if F.DecodeBody(t, device, FrameBytes(0x18, counter, stamp, body)).Ok? {
      HeaderDecodes(t, device, 0x18, counter, now, stamp, body);
    }
  }

  lemma FeedParts(t: Tables, device: Mac, v: seq<byte>, now: string)
    requires v != [] && v[0] == 0x18
    ensures match F.DecodeFeed(t, device, v)
            case Err(_) => F.Decode(t, device, v).Err?
            case Ok(body) => F.Decode(t, device, v).Ok? && F.Decode(t, device, v).value.body == body
    ensures F.Effect(t, device, v, now) == if |v| <= 15 then t else F.FeedEffect(t, device, v, now)
  {
    hide F.DecodeFeed, F.FeedEffect, FromLittle, Hb, Numeral, ToText, F.Slice;
  }

  /** The rows a feed stores: these bowls and this state, or none. */
  lemma StoredRows(t: Tables, device: Mac, tag: Option<string>, state: PetValue, left: int, right: int, eaten: bool, closed: bool,
                   now: string, m: Mac, row: (string, Mac))
    ensures var fed := if eaten && tag.Some? && tag.value in t.pets then t.SetPetState(tag.value, device, state, now) else t;
            var u := if closed then fed.SetBowls(device, left, right) else fed;
            && u == t.(feeders := u.feeders, petstate := u.petstate)
            && (m in u.feeders <==> m in t.feeders)
            && (m in t.feeders ==>
                  u.feeders[m] == if closed && (m == device || |device| <= 1)
                                  then Feeder(t.feeders[m].bowlType, left, right) else t.feeders[m])
            && (row in u.petstate <==> row in t.petstate)
            && (row in t.petstate ==>
                  u.petstate[row] == if eaten && row.1 == device && row.0 in t.pets && tag == Some(row.0)
                                     then PetState(now, state) else t.petstate[row])
  {
    hide Tables.SetPetState, Tables.SetBowls;
    var fed := if eaten && tag.Some? && tag.value in t.pets then t.SetPetState(tag.value, device, state, now) else t;
    if tag.Some? {
      PetRows(t, tag.value, device, state, now, row);
    }
    BowlRows(fed, device, left, right, m);
  }

  /**
   What a feed changes. Both bowls become what is left in them exactly when the feeder closed, whoever it was;
   a known pet's row becomes what is gone from them exactly when the feeder closed on that pet. Nothing else changes.
   */
  lemma FeedRows(t: Tables, device: Mac, v: seq<byte>, now: string, m: Mac, row: (string, Mac))
    requires v != [] && v[0] == 0x18
    ensures var u := F.Effect(t, device, v, now);
            match F.Decode(t, device, v)
            case Err(_) => u == t
            case Ok(frame) =>
              if !frame.body.Feed? then u == t
              else
                var body := frame.body;
                && 15 < |v| && u == t.(feeders := u.feeders, petstate := u.petstate)
                && (m in u.feeders <==> m in t.feeders)
                && (m in t.feeders ==>
                      u.feeders[m] == if v[15] in {1, 5} && (m == device || |device| <= 1)
                                      then Feeder(t.feeders[m].bowlType, body.leftTo, body.rightTo) else t.feeders[m])
                && (row in u.petstate <==> row in t.petstate)
                && (row in t.petstate ==>
                      u.petstate[row] == if v[15] == 1 && row.1 == device && row.0 in t.pets && BytesToTag(v[8..15]) == Ok(Some(row.0))
                                         then PetState(now, Ate(body.leftTo - body.leftFrom, body.rightTo - body.rightFrom))
                                         else t.petstate[row])
  {
    hide F.Decode, F.Effect, FromLittleSigned, FromLittle, FeederStateName, BytesToTag, F.Slice, ToHex, Tables.SetPetState, Tables.SetBowls;
    FeedParts(t, device, v, now);
    if 15 < |v| && FeederStateName(v[15]).Some? && F.FeedTag(v).Ok? {
      var body := F.DecodeFeed(t, device, v).value;
      StoredRows(t, device, F.FeedTag(v).value, Ate(body.leftTo - body.leftFrom, body.rightTo - body.rightFrom),
                 body.leftTo, body.rightTo, v[15] == 1, v[15] in {1, 5}, now, m, row);
    }
  }

  // ----- batteries

  /** Battery, two more numbers and a time. */
  function BatteryBody(battery: int, value2: int, value3: int, time: seq<byte>, rest: seq<byte>): seq<byte>
    requires IsSigned(battery) && IsSigned(value2) && IsSigned(value3)
  {
    Signed(battery) + Signed(value2) + Signed(value3) + time + rest
  }

  lemma BatteryFields(counter: nat, stamp: seq<byte>, battery: int, value2: int, value3: int, time: seq<byte>, rest: seq<byte>)
    requires |stamp| == 4 && |time| == 4 && IsSigned(battery) && IsSigned(value2) && IsSigned(value3)
    ensures var v := FrameBytes(0x0c, counter, stamp, BatteryBody(battery, value2, value3, time, rest));
            && v != [] && v[0] == 0x0c && FromLittleSigned(F.Slice(v, 8, 12)) == battery
            && FromLittleSigned(F.Slice(v, 12, 16)) == value2 && FromLittleSigned(F.Slice(v, 16, 20)) == value3
            && F.Slice(v, 20, 24) == time
  {
    hide FrameBytes, FromLittleSigned, Signed, IsSigned, F.Slice;
    var body := BatteryBody(battery, value2, value3, time, rest);
    var a, b, c := Signed(battery), Signed(value2), Signed(value3);
    SignedRoundTrip(battery);
    SignedRoundTrip(value2);
    SignedRoundTrip(value3);
    FrameParts(0x0c, counter, stamp, body);
    assert body == [] + a + (b + c + time + rest);
    Field(0x0c, counter, stamp, [], a, b + c + time + rest);
    assert body == a + b + (c + time + rest);
    Field(0x0c, counter, stamp, a, b, c + time + rest);
    assert body == a + b + c + (time + rest);
    Field(0x0c, counter, stamp, a + b, c, time + rest);
    Field(0x0c, counter, stamp, a + b + c, time, rest);
  }

  /** A battery report decodes to its numbers and stores the voltage, in ten-thousandths. */
  lemma BatteryDecodes(t: Tables, device: Mac, counter: nat, stamp: seq<byte>, battery: int, value2: int, value3: int,
                       at: Stamp, time: seq<byte>, rest: seq<byte>, now: string)
    requires |stamp| == 4 && IsSigned(battery) && IsSigned(value2) && IsSigned(value3) && InRange(at) && Encoded(at) == Ok(time)
    ensures var v := FrameBytes(0x0c, counter, stamp, BatteryBody(battery, value2, value3, time, rest));
            && F.DecodeBody(t, device, v) == Ok(F.Battery(battery, value2, value3, Text(at)))
            && F.Effect(t, device, v, now) == t.SetBattery(device, 10 * battery)
  {
    hide FrameBytes, FromLittleSigned, BatteryBody, IsSigned, Encoded, Text, InRange, ToText, F.Slice, F.DecodeBody, F.Effect,
      Tables.SetBattery;
    var bs := StampRoundTrip(at);
    BatteryFields(counter, stamp, battery, value2, value3, time, rest);
    BatteryParts(t, device, FrameBytes(0x0c, counter, stamp, BatteryBody(battery, value2, value3, time, rest)), now);
  }

  lemma BatteryParts(t: Tables, device: Mac, v: seq<byte>, now: string)
    requires v != [] && v[0] == 0x0c
    ensures F.DecodeBody(t, device, v) == Ok(F.DecodeBattery(v))
    ensures F.Effect(t, device, v, now) == t.SetBattery(device, FromLittleSigned(F.Slice(v, 8, 12)) * 10)
  {
    hide FromLittleSigned, F.Slice, F.DecodeBattery, Tables.SetBattery;
  }

  // ----- drinking

  /** Action, seconds, an unused byte, two weights, seven unused bytes, and the chip. */
  function DrinkingBody(action: byte, seconds: nat, unused: byte, from: int, to: int, gap: seq<byte>, chip: seq<byte>): seq<byte>
    requires IsSigned(from) && IsSigned(to)
  {
    [action] + ToLittle(seconds, 2) + [unused] + Signed(from) + Signed(to) + gap + chip
  }

  /** Drinking decodes to its action, seconds, weights and pet, and stores what is left in the bowl. */
  lemma DrinkingDecodes(t: Tables, device: Mac, counter: nat, stamp: seq<byte>, action: byte, seconds: nat, unused: byte,
                        from: int, to: int, gap: seq<byte>, chip: seq<byte>, now: string)
    requires |stamp| == 4 && IsSigned(from) && IsSigned(to) && seconds < 65536
    requires |gap| == 7 || (|gap| < 7 && chip == [])
    requires |chip| <= 7
    ensures var v := FrameBytes(0x1b, counter, stamp, DrinkingBody(action, seconds, unused, from, to, gap, chip));
            && F.Effect(t, device, v, now) == t.SetBowl1(device, to)
            && F.DecodeBody(t, device, v)
               == match (if chip == [] then Ok(None) else BytesToTag(chip))
                  case Ok(tag) => Ok(F.Drinking(Hex2(action), seconds, from, to, t.Animal(tag)))
                  case Err(e) => Err(e)
  {
    hide FrameBytes, FromLittleSigned, FromLittle, ToLittle, Signed, IsSigned, BytesToTag, Hb, Hex2, Pow, Tables.SetBowl1;
    var body := DrinkingBody(action, seconds, unused, from, to, gap, chip);
    var a, b, s := Signed(from), Signed(to), ToLittle(seconds, 2);
    SignedRoundTrip(from);
    SignedRoundTrip(to);
    PowersOfSixteen();
    LittleRoundTrip(seconds, 2);
    Hex2Value(action);
    FrameParts(0x1b, counter, stamp, body);
    assert body[0] == action;
    assert body == [action] + s + ([unused] + a + b + gap + chip);
    Field(0x1b, counter, stamp, [action], s, [unused] + a + b + gap + chip);
    assert body == [action] + s + [unused] + a + (b + gap + chip);
    Field(0x1b, counter, stamp, [action] + s + [unused], a, b + gap + chip);
    assert body == [action] + s + [unused] + a + b + (gap + chip);
    Field(0x1b, counter, stamp, [action] + s + [unused] + a, b, gap + chip);
    if chip != [] {
      LastField(0x1b, counter, stamp, [action] + s + [unused] + a + b + gap, chip, 7);
    }
  }

  // ----- movements

  /** Four unused bytes, a number, the direction, the chip, and another number. */
  function MovementBody(unused: seq<byte>, reading: nat, way: (byte, byte), chip: seq<byte>, other: nat, rest: seq<byte>): seq<byte> {
    unused + ToLittle(reading, 4) + [way.0, way.1] + chip + ToLittle(other, 4) + rest
  }

  /** The direction bytes in the order they are sent. */
  function Direction(way: (byte, byte)): string {
    if way == (0, 0) then "Out" else if way == (1, 1) then "In" else if way == (2, 1) then "LookedIn"
    else if way == (2, 0) then "LookedOut" else if way == (2, 2) then "Status2" else if way == (1, 2) then "Status1"
    else "**UNKNOWN**"
  }

  lemma DirectionNames(way: (byte, byte))
    ensures Direction(way)
         == match CatFlapDirectionName((way.0 as int) * 256 + way.1) { case Some(name) => name case None => "**UNKNOWN**" }
  {
  }

  /** A movement decodes to its pet, direction and numbers, and changes no row. */
  lemma MovementDecodes(t: Tables, device: Mac, counter: nat, stamp: seq<byte>, unused: seq<byte>, reading: nat, way: (byte, byte),
                        chip: seq<byte>, other: nat, rest: seq<byte>, now: string)
    requires |stamp| == 4 && |unused| == 4 && |chip| == 7 && reading < 0x1_0000_0000 && other < 0x1_0000_0000
    ensures var v := FrameBytes(0x13, counter, stamp, MovementBody(unused, reading, way, chip, other, rest));
            && F.Effect(t, device, v, now) == t
            && F.DecodeBody(t, device, v)
               == match BytesToTag(chip)
                  case Ok(tag) => Ok(F.PetMovement(t.TagAnimal(tag), Direction(way), reading, other))
                  case Err(e) => Err(e)
  {
    hide FrameBytes, FromLittle, ToLittle, BytesToTag, Pow, CatFlapDirectionName, Direction;
    var body := MovementBody(unused, reading, way, chip, other, rest);
    var a, b := ToLittle(reading, 4), ToLittle(other, 4);
    PowersOfSixteen();
    LittleRoundTrip(reading, 4);
    LittleRoundTrip(other, 4);
    DirectionNames(way);
    FrameParts(0x13, counter, stamp, body);
    assert body == unused + a + ([way.0, way.1] + chip + b + rest);
    Field(0x13, counter, stamp, unused, a, [way.0, way.1] + chip + b + rest);
    assert body == unused + a + [way.0, way.1] + chip + (b + rest);
    Field(0x13, counter, stamp, unused + a + [way.0, way.1], chip, b + rest);
    Field(0x13, counter, stamp, unused + a + [way.0, way.1] + chip, b, rest);
    assert body[8] == way.0 && body[9] == way.1;
    var v := FrameBytes(0x13, counter, stamp, body);
    assert v[8 + 8] == way.0 && v[8 + 9] == way.1;
  }

  // ----- tags

  /** A slot without a chip is empty; a type byte that is not known makes the frame unknown. */
  lemma SlotDecodes(t: Tables, device: Mac, counter: nat, stamp: seq<byte>, chip: seq<byte>, lock: byte, index: byte, tagState: byte, now: string)
    requires |stamp| == 4 && |chip| == 7 && chip[6] !in {0x01, 0x03} && !(index == 0 && tagState == 2)
    ensures var v := FrameBytes(0x11, counter, stamp, chip + [lock, index, tagState]);
            && F.Effect(t, device, v, now) == t
            && F.DecodeBody(t, device, v)
               == Ok(if chip[6] == 0x07 then F.Tag(Some("Empty"), CatFlapLockStateName(lock), lock, index, TagStateName(tagState))
                     else F.Unknown(ToHex(v)))
  {
    hide FrameBytes, CatFlapLockStateName, TagStateName, PetDoorLockStateValue, ToHex;
    var rest := chip + [lock, index, tagState];
    FrameParts(0x11, counter, stamp, rest);
    var v := FrameBytes(0x11, counter, stamp, rest);
    assert v[8..15] == v[8..][..7] == chip;
    assert rest[6] == chip[6] && rest[7] == lock && rest[8] == index && rest[9] == tagState;
    assert v[8 + 6] == chip[6] && v[8 + 7] == lock && v[8 + 8] == index && v[8 + 9] == tagState;
  }

  // ----- frames that are too short

  /** The curfew entries of a frame are complete, up to four bytes at the end. */
  lemma {:induction false} CurfewEnd(es: seq<byte>)
    ensures F.CurfewEntries(es).Err? <==> 5 <= |es| % 9
    ensures F.CurfewEntries(es).Err? ==> F.CurfewEntries(es) == Err(IndexError)
    decreases |es|
  {
    hide ToText;
    if 9 <= |es| {
      CurfewEnd(es[9..]);
    }
  }

  lemma TagErrors(bs: seq<byte>)
    ensures BytesToTag(bs).Err? ==> BytesToTag(bs) == Err(ValueError)
  {
    hide Numeral, PadLeft, IsNumeral, Value, Strip, FromLittle;
  }

  /** Exactly these frames raise IndexError: those that end before a byte that is looked at. */
  lemma TooShort(t: Tables, device: Mac, v: seq<byte>)
    ensures F.Decode(t, device, v) == Err(IndexError)
       <==> || v == []
            || (v[0] in {0x00, 0x01, 0x09, 0x1b} && |v| <= 8)
            || (v[0] == 0x0d && |v| != 20 && |v| <= 29)
            || (v[0] == 0x11 && (|v| <= 16 || (|v| == 17 && (v[16] == 0 || (v[14] in {0x01, 0x03, 0x07} && BytesToTag(v[8..15]).Ok?)))))
            || (v[0] == 0x12 && 16 <= |v| && 5 <= (|v| - 16) % 9)
            || (v[0] == 0x13 && |v| <= 17)
            || (v[0] == 0x18 && |v| <= 15)
  {
    hide F.Decode0d, F.Decode11, F.DecodeFeed, F.DecodeMovement, F.DecodeDrinking, F.CurfewEntries, BytesToTag, FromLittle, FromLittleSigned,
      ToHex, Hb, Numeral, ToText;
    if v != [] {
      ShortFeeds(t, device, v);
      ShortLocks(t, v);
      CurfewEnd(F.Slice(v, 16, |v| + 16));
    }
  }

  lemma ShortFeeds(t: Tables, device: Mac, v: seq<byte>)
    ensures F.DecodeFeed(t, device, v) == Err(IndexError) <==> |v| <= 15
    ensures F.DecodeMovement(t, v) == Err(IndexError) <==> |v| <= 17
    ensures F.DecodeDrinking(t, v) == Err(IndexError) <==> |v| <= 8
  {
    hide BytesToTag, FromLittle, FromLittleSigned, ToHex, Hb, FeederStateName, CatFlapDirectionName;
    TagErrors(F.Slice(v, 18, 25));
    TagErrors(F.Slice(v, 27, 34));
    if 15 < |v| {
      TagErrors(v[8..15]);
    }
    NoTag();
  }

  lemma NoTag()
    ensures BytesToTag([]).Ok?
  {
  }

  lemma ShortLocks(t: Tables, v: seq<byte>)
    ensures F.Decode0d(v) == Err(IndexError) <==> |v| != 20 && |v| <= 29
    ensures F.Decode11(t, v) == Err(IndexError)
       <==> |v| <= 16 || (|v| == 17 && (v[16] == 0 || (v[14] in {0x01, 0x03, 0x07} && BytesToTag(v[8..15]).Ok?)))
  {
    hide BytesToTag, ToHex, CatFlapLockStateName, TagStateName, FeederZeroScalesName, PetDoorLockStateValue;
    if 16 < |v| {
      TagErrors(v[8..15]);
    }
    forall name
      ensures PetDoorLockStateValue(name).Err? ==> PetDoorLockStateValue(name) == Err(KeyError)
    {
      LockErrors(name);
    }
  }

  lemma LockErrors(name: string)
    ensures PetDoorLockStateValue(name).Err? ==> PetDoorLockStateValue(name) == Err(KeyError)
  {
  }

  // ----- settings and the rest

  /** Grams are the nearest to the hundredths, and the even ones when two are equally near. */
  lemma RoundNearest(n: int)
    ensures var w := F.RoundHundredths(n);
            -50 <= n - 100 * w <= 50 && ((n - 100 * w == 50 || n - 100 * w == -50) ==> w % 2 == 0)
  {
  }

  /** The registers no command writes. The custom mode is the only setting that is stored. */
  lemma RegisterReported(t: Tables, device: Mac, counter: nat, stamp: seq<byte>, register: byte, n: nat, now: string)
    requires |stamp| == 4
    ensures var v := FrameBytes(0x09, counter, stamp, [register] + ToLittle(n, 4));
            && F.Effect(t, device, v, now) == (if register == 0x14 then t.SetCustomMode(device, ReadWeight(n)) else t)
            && (register !in {0x0a, 0x0b, 0x0c, 0x0d, 0x12, 0x14} ==>
                  F.DecodeBody(t, device, v)
                  == Ok(F.UpdateState(
                          if register == 0x05 then F.Training(ReadWeight(n))
                          else if register == 0x17 then F.ZeroLeft(ReadWeight(n))
                          else if register == 0x18 then F.ZeroRight(ReadWeight(n))
                          else if register == 0x19 then F.OtherSetting(ToHex(ToLittle(n, 4)))
                          else F.OtherSetting(ToHex(ToLittle(n, 3))))))
  {
    hide FrameBytes, FromLittleSigned, ToLittle, ToHex, F.RoundHundredths, ReadWeight, FeederBowlsName, FeederCloseDelayName,
      FeederCustomModeName, Tables.SetCustomMode, F.Slice;
    RegisterDecodes(t, device, counter, stamp, register, n);
    ThreeBytes(n);
    LittleParts(counter, stamp, register, n);
  }

  lemma LittleParts(counter: nat, stamp: seq<byte>, register: byte, n: nat)
    requires |stamp| == 4
    ensures F.Slice(FrameBytes(0x09, counter, stamp, [register] + ToLittle(n, 4)), 9, 12) == ToLittle(n, 3)
  {
    hide FrameBytes, ToLittle;
    var rest := [register] + ToLittle(n, 4);
    BodySlice(0x09, counter, stamp, rest, 1, 4);
    ThreeBytes(n);
    assert F.Slice(rest, 1, 4) == ToLittle(n, 4)[..3];
  }

  /** The lock state of a flap during a curfew stands at byte 29. */
  lemma CurfewLockDecodes(t: Tables, device: Mac, counter: nat, stamp: seq<byte>, unused: seq<byte>, lock: byte, rest: seq<byte>, now: string)
    requires |stamp| == 4 && |unused| == 21
    ensures var v := FrameBytes(0x0d, counter, stamp, unused + [lock] + rest);
            && F.Effect(t, device, v, now) == t
            && F.DecodeBody(t, device, v)
               == if lock == 3 then Ok(F.CurfewLockState("KeepIn", 1))
                  else if lock == 4 then Ok(F.CurfewLockState("Locked", 3))
                  else if lock == 5 then Ok(F.CurfewLockState("KeepOut", 2))
                  else if lock == 6 then Ok(F.CurfewLockState("Unlocked", 0))
                  else Err(KeyError)
  {
    hide FrameBytes, PetDoorLockStateValue, CatFlapLockStateName;
    LockCodes(lock);
    var body := unused + [lock] + rest;
    FrameParts(0x0d, counter, stamp, body);
    assert body[21] == lock;
    var v := FrameBytes(0x0d, counter, stamp, body);
    assert v[8 + 21] == lock;
  }

  lemma LockCodes(lock: byte)
    ensures lock == 3 ==> CatFlapLockStateName(lock) == "KeepIn" && PetDoorLockStateValue("KeepIn") == Ok(1)
    ensures lock == 4 ==> CatFlapLockStateName(lock) == "Locked" && PetDoorLockStateValue("Locked") == Ok(3)
    ensures lock == 5 ==> CatFlapLockStateName(lock) == "KeepOut" && PetDoorLockStateValue("KeepOut") == Ok(2)
    ensures lock == 6 ==> CatFlapLockStateName(lock) == "Unlocked" && PetDoorLockStateValue("Unlocked") == Ok(0)
    ensures !(3 <= lock <= 6) ==> PetDoorLockStateValue(CatFlapLockStateName(lock)) == Err(KeyError)
  {
    F.LockNumbers(lock);
    if !(3 <= lock <= 6) && lock != 2 {
      F.DigitsOnly(lock);
    }
  }

  /** The kinds that are reported as they are; none of them changes a row. */
  lemma PlainDecodes(t: Tables, device: Mac, op: byte, counter: nat, stamp: seq<byte>, rest: seq<byte>, now: string)
    requires |stamp| == 4 && op !in {0x09, 0x0c, 0x0d, 0x11, 0x12, 0x13, 0x18, 0x1b}
    ensures var v := FrameBytes(op, counter, stamp, rest);
            && F.Effect(t, device, v, now) == t
            && F.DecodeBody(t, device, v)
               == if op in {0x0b, 0x10, 0x16} then Ok(F.Msg("Msg" + Hex2(op), ToHex([counter / 256 % 256] + stamp + rest)))
                  else if op == 0x07 then Ok(F.Time(ToHex(rest)))
                  else if op in {0x00, 0x01} && rest == [] then Err(IndexError)
                  else if op == 0x00 then Ok(F.Ack(Hex2(rest[0])))
                  else if op == 0x01 then Ok(F.Query(Hex2(rest[0]), ToHex(rest[1..])))
                  else Ok(F.Unknown(ToHex([op, 0x00, counter % 256, counter / 256 % 256] + stamp + rest)))
  {
    hide ToHex, Hb, Hex2;
    TwoBytes(counter);
    Hex2Value(op);
    var v := FrameBytes(op, counter, stamp, rest);
    assert v == [op, 0x00, counter % 256, counter / 256 % 256] + stamp + rest;
    assert v[3..] == [counter / 256 % 256] + stamp + rest && v[8..] == rest;
    if rest != [] {
      Hex2Value(rest[0]);
      assert v[8] == rest[0] && v[9..] == rest[1..];
    }
  }

  lemma TwoBytes(n: nat)
    ensures ToLittle(n, 2) == [n % 256, n / 256 % 256]
  {
    assert ToLittle(n / 256, 1) == [n / 256 % 256];
  }
}
