/**
 Frames of feeders, cat flaps and water bowls: parseframe, the curfew loop inside it, and
 the loop over the frames of a 126 payload.
 */
module Frames {
  import opened Bytes
  import opened Chips
  import opened Constants
  import opened Databases
  import opened Numerals
  import opened Results
  import Timestamps

  datatype Setting =
    | Training(mode: int)
    | LeftScale(grams: int)
    | RightScale(grams: int)
    | BowlCount(bowls: string)
    | CloseDelay(delay: string)
    | Set12(value: int, msg: string)
    | CustomMode(mode: int, name: Option<string>)
    | ZeroLeft(weight: int)
    | ZeroRight(weight: int)
    | OtherSetting(msg: string)

  /** What a frame reports. Weights are in hundredths, battery voltages in thousandths. */
  datatype Body =
    | Msg(op: string, message: string)
    | Ack(message: string)
    | Query(kind: string, subData: string)
    | Time(kind: string)
    | UpdateState(setting: Setting)
    | Battery(battery: int, value2: int, value3: int, batteryTime: string)
    | ZeroScales(scale: string)
    | CurfewLockState(lockState: string, number: int)
    | LockState(lockState: string, number: int)
    | Tag(animal: Option<string>, lockState: string, number: int, offset: int, tagState: string)
    | Curfew(entries: seq<(string, string)>)
    | PetMovement(animal: Option<string>, direction: string, reading: nat, otherTs: nat)
    | Feed(action: string, animal: Option<string>, seconds: nat,
           leftFrom: int, leftTo: int, rightFrom: int, rightTo: int, bowlCount: int)
    | Drinking(action: string, seconds: nat, from: int, to: int, animal: Option<string>)
    | Unknown(msg: string)

  /** The type and counter are what an acknowledgement repeats. */
  datatype Frame = Frame(msg: string, counter: string, stamp: string, body: Body)

  /** value[i:j], which stops at the end of the value. */
  function Slice(v: seq<byte>, i: nat, j: nat): (s: seq<byte>)
    requires i <= j
    ensures j <= |v| ==> s == v[i..j]
    ensures i <= |v| < j ==> s == v[i..]
    ensures |v| < i ==> s == []
  {
    v[if i < |v| then i else |v|..if j < |v| then j else |v|]
  }

  /** round(n / 100): to the nearest, halves to even. */
  function RoundHundredths(n: int): int {
    var q, r := n / 100, n % 100;
    if r < 50 || (r == 50 && q % 2 == 0) then q else q + 1
  }

  // ----- decoding, branch by branch

  /** Configuration registers: the value is three bytes, signed. */
  function DecodeSetting(v: seq<byte>): Result<Setting> {
    if |v| <= 8 then Err(IndexError) else
    var value := FromLittleSigned(Slice(v, 9, 12));
    match v[8]
    case 0x05 => Ok(Training(value))
    case 0x0a => Ok(LeftScale(RoundHundredths(value)))
    case 0x0b => Ok(RightScale(RoundHundredths(value)))
    case 0x0c => Ok(BowlCount(FeederBowlsName(value)))
    case 0x0d => Ok(CloseDelay(FeederCloseDelayName(value)))
    case 0x12 => Ok(Set12(value, ToHex(v[9..])))
    case 0x14 => Ok(CustomMode(value, FeederCustomModeName(value)))
    case 0x17 => Ok(ZeroLeft(value))
    case 0x18 => Ok(ZeroRight(value))
    case 0x19 => Ok(OtherSetting(ToHex(v[9..])))
    case _ => Ok(OtherSetting(ToHex(Slice(v, 9, 12))))
  }

  function DecodeBattery(v: seq<byte>): Body {
    Battery(FromLittleSigned(Slice(v, 8, 12)), FromLittleSigned(Slice(v, 12, 16)),
            FromLittleSigned(Slice(v, 16, 20)), Timestamps.ToText(Slice(v, 20, 24)))
  }

  function Decode0d(v: seq<byte>): Result<Body> {
    if |v| == 20 then Ok(ZeroScales(FeederZeroScalesName(v[19])))
    else if |v| <= 29 then Err(IndexError)
    else
      var name := CatFlapLockStateName(v[29]);
      var number :- PetDoorLockStateValue(name);
      Ok(CurfewLockState(name, number))
  }

  /** Tag slot 0 with tag state LockState carries the lock state of the flap itself. */
  function Decode11(t: Tables, v: seq<byte>): Result<Body> {
    if |v| <= 16 || (v[16] == 0 && |v| <= 17) then Err(IndexError)
    else if v[16] == 0 && v[17] == 2 then
      var name := CatFlapLockStateName(v[15]);
      var number :- PetDoorLockStateValue(name);
      Ok(LockState(name, number))
    else if v[14] in {0x01, 0x03, 0x07} then
      var tag :- BytesToTag(v[8..15]);
      if |v| <= 17 then Err(IndexError) else
      Ok(Tag(t.TagAnimal(tag), CatFlapLockStateName(v[15]), v[15], v[16], TagStateName(v[17])))
    else Ok(Unknown(ToHex(v)))
  }

  /** Nine bytes an entry: start, end and state; only the entries that are on are kept. */
  function CurfewEntries(es: seq<byte>): Result<seq<(string, string)>> {
    if |es| <= 4 then Ok([])
    else if |es| <= 8 then Err(IndexError)
    else
      Prepend(if es[8] == 3 then [(Timestamps.ToText(es[0..4]), Timestamps.ToText(es[4..8]))] else [],
              CurfewEntries(es[9..]))
  }

  function DecodeMovement(t: Tables, v: seq<byte>): Result<Body> {
    var tag :- BytesToTag(Slice(v, 18, 25));
    if |v| <= 17 then Err(IndexError) else
    var way: int := (v[16] as int) * 256 + v[17];
    var direction := match CatFlapDirectionName(way) { case Some(name) => name case None => "**UNKNOWN**" };
    Ok(PetMovement(t.TagAnimal(tag), direction, FromLittle(Slice(v, 12, 16)), FromLittle(Slice(v, 25, 29))))
  }

  /** A feed by hand has no tag. */
  function FeedTag(v: seq<byte>): Result<Option<string>>
    requires 15 < |v|
  {
    if 4 <= v[15] < 8 then Ok(None) else BytesToTag(v[8..15])
  }

  function DecodeFeed(t: Tables, device: Mac, v: seq<byte>): Result<Body> {
    if |v| <= 15 then Err(IndexError) else
    if FeederStateName(v[15]).None? then Ok(Unknown(ToHex(v))) else
    var tag :- FeedTag(v);
    Ok(Feed(FeederStateName(v[15]).value,
            if 4 <= v[15] < 8 then Some("Manual") else t.Animal(tag),
            FromLittle(Slice(v, 16, 17)),
            FromLittleSigned(Slice(v, 19, 23)), FromLittleSigned(Slice(v, 23, 27)),
            FromLittleSigned(Slice(v, 27, 31)), FromLittleSigned(Slice(v, 31, 35)),
            if device in t.feeders then t.feeders[device].bowlType else 1))
  }

  function DecodeDrinking(t: Tables, v: seq<byte>): Result<Body> {
    if |v| <= 8 then Err(IndexError) else
    var tag :- if 27 < |v| then BytesToTag(Slice(v, 27, 34)) else Ok(None);
    Ok(Drinking(Hb(v[8]), FromLittle(Slice(v, 9, 11)), FromLittleSigned(Slice(v, 12, 16)),
                FromLittleSigned(Slice(v, 16, 20)), t.Animal(tag)))
  }

  function DecodeBody(t: Tables, device: Mac, v: seq<byte>): Result<Body>
    requires v != []
  {
    match v[0]
    case 0x0b => Ok(Msg("Msg" + Hb(v[0]), ToHex(Slice(v, 3, |v| + 3))))
    case 0x10 => Ok(Msg("Msg" + Hb(v[0]), ToHex(Slice(v, 3, |v| + 3))))
    case 0x16 => Ok(Msg("Msg" + Hb(v[0]), ToHex(Slice(v, 3, |v| + 3))))
    case 0x00 => if |v| <= 8 then Err(IndexError) else Ok(Ack(Hb(v[8])))
    case 0x01 => if |v| <= 8 then Err(IndexError) else Ok(Query(Hb(v[8]), ToHex(v[9..])))
    case 0x07 => Ok(Time(ToHex(Slice(v, 8, |v| + 8))))
    case 0x09 => var s :- DecodeSetting(v); Ok(UpdateState(s))
    case 0x0c => Ok(DecodeBattery(v))
    case 0x0d => Decode0d(v)
    case 0x11 => Decode11(t, v)
    case 0x12 => var es :- CurfewEntries(Slice(v, 16, |v| + 16)); Ok(Curfew(es))
    case 0x13 => DecodeMovement(t, v)
    case 0x18 => DecodeFeed(t, device, v)
    case 0x1B => DecodeDrinking(t, v)
    case _ => Ok(Unknown(ToHex(v)))
  }

  function Decode(t: Tables, device: Mac, v: seq<byte>): Result<Frame> {
    if v == [] then Err(IndexError) else
    var body :- DecodeBody(t, device, v);
    Ok(Frame(Hb(v[0]), Numeral(10, FromLittle(Slice(v, 2, 4))), Timestamps.ToText(Slice(v, 4, 8)), body))
  }

  // ----- what decoding does to the tables

  function FeedEffect(t: Tables, device: Mac, v: seq<byte>, now: string): Tables
    requires 15 < |v|
  {
    if FeederStateName(v[15]).None? || FeedTag(v).Err? then t else
    var leftTo, rightTo := FromLittleSigned(Slice(v, 23, 27)), FromLittleSigned(Slice(v, 31, 35));
    var left := leftTo - FromLittleSigned(Slice(v, 19, 23));
    var right := rightTo - FromLittleSigned(Slice(v, 27, 31));
    var tag := FeedTag(v).value;
    var fed :=
      if v[15] == 1 && tag.Some? && tag.value in t.pets
      then t.SetPetState(tag.value, device, Ate(left, right), now) else t;
    if v[15] in {1, 5} then fed.SetBowls(device, leftTo, rightTo) else fed
  }

  function Effect(t: Tables, device: Mac, v: seq<byte>, now: string): Tables {
    if v == [] then t else
    match v[0]
    case 0x09 =>
      if 8 < |v| && v[8] == 0x14 then t.SetCustomMode(device, FromLittleSigned(Slice(v, 9, 12))) else t
    case 0x0c => t.SetBattery(device, FromLittleSigned(Slice(v, 8, 12)) * 10)
    case 0x11 =>
      if Decode11(t, v).Ok? && Decode11(t, v).value.LockState?
      then t.SetLockingMode(device, Decode11(t, v).value.number) else t
    case 0x18 => if |v| <= 15 then t else FeedEffect(t, device, v, now)
    case 0x1B => if |v| <= 8 then t else t.SetBowl1(device, FromLittleSigned(Slice(v, 16, 20)))
    case _ => t
  }

  // ----- the decoder itself

  /** The while loop over curfewentries, which deletes nine bytes from the front each time. */
  method ReadCurfews(value: seq<byte>) returns (r: Result<seq<(string, string)>>)
    ensures r == CurfewEntries(value)
  {
    hide Timestamps.ToText, CatFlapCurfewStateName;
    var entries := value;
    var curfews := [];
    PrependTwice([], [], CurfewEntries(value));
    while 4 < |entries|
      invariant CurfewEntries(value) == Prepend(curfews, CurfewEntries(entries))
      decreases |entries|
    {
      if |entries| <= 8 {
        return Err(IndexError);
      }
      CurfewOn(entries[8]);
      PrependTwice(curfews, [(Timestamps.ToText(entries[0..4]), Timestamps.ToText(entries[4..8]))], CurfewEntries(entries[9..]));
      PrependTwice([], [], CurfewEntries(entries[9..]));
      if CatFlapCurfewStateName(entries[8]) == "On" {
        curfews := curfews + [(Timestamps.ToText(entries[0..4]), Timestamps.ToText(entries[4..8]))];
      }
      entries := entries[9..];
    }
    assert curfews + [] == curfews;
    return Ok(curfews);
  }

  lemma DigitsOnly(x: nat)
    ensures Str(x) != "" && DigitValue(Str(x)[0]) < 10
  {
  }

  lemma CurfewOn(x: byte)
    ensures CatFlapCurfewStateName(x) == "On" <==> x == 3
  {
    DigitsOnly(x);
  }

  lemma TagStateIsLock(x: byte)
    ensures TagStateName(x) == "LockState" <==> x == 2
  {
    DigitsOnly(x);
  }

  /** The lock bytes that have a pet door state, and its number: 6, 3, 5 and 4 are 0, 1, 2 and 3. */
  lemma LockNumbers(x: byte)
    ensures PetDoorLockStateValue(CatFlapLockStateName(x)).Ok? <==> 3 <= x <= 6
    ensures 3 <= x <= 6 ==>
              PetDoorLockStateValue(CatFlapLockStateName(x)) == Ok(if x == 6 then 0 else if x == 3 then 1 else if x == 5 then 2 else 3)
  {
    if x < 2 || 6 < x {
      DigitsOnly(x);
    }
  }

  /** parseframe: the report is decoded while the tables are updated. */
  method ParseFrame(db: Database, device: Mac, value: seq<byte>, now: string) returns (r: Result<Frame>)
    modifies db
    ensures r == Decode(old(db.Rows()), device, value)
    ensures db.Rows() == Effect(old(db.Rows()), device, value, now)
  {
    hide Timestamps.ToText, FromLittle, FromLittleSigned, ToHex, Hb, Numeral, BytesToTag, CurfewEntries;
    if value == [] {
      return Err(IndexError);
    }
    var stamp := Timestamps.ToText(Slice(value, 4, 8));
    var msg, counter := Hb(value[0]), Numeral(10, FromLittle(Slice(value, 2, 4)));
    var t := Tables(db.devices, db.doors, db.feeders, db.tagmap, db.pets, db.petstate, db.counters);
    var body: Body;
    if value[0] == 0x0b || value[0] == 0x10 || value[0] == 0x16 {
      body := Msg("Msg" + msg, ToHex(Slice(value, 3, |value| + 3)));
    } else if value[0] == 0x00 {
      if |value| <= 8 { return Err(IndexError); }
      body := Ack(Hb(value[8]));
    } else if value[0] == 0x01 {
      if |value| <= 8 { return Err(IndexError); }
      body := Query(Hb(value[8]), ToHex(value[9..]));
    } else if value[0] == 0x07 {
      body := Time(ToHex(Slice(value, 8, |value| + 8)));
    } else if value[0] == 0x09 {
      var setting :- DecodeSetting(value);
      if setting.CustomMode? {
        db.UpdateCustomMode(device, setting.mode);
      }
      body := UpdateState(setting);
    } else if value[0] == 0x0c {
      body := DecodeBattery(value);
      db.UpdateBattery(device, body.battery * 10);
    } else if value[0] == 0x0d {
      body :- Decode0d(value);
    } else if value[0] == 0x11 {
      body :- Decode11(t, value);
      if body.LockState? {
        db.UpdateLockingMode(device, body.number);
      }
    } else if value[0] == 0x12 {
      var curfews := ReadCurfews(Slice(value, 16, |value| + 16));
      if curfews.Err? { return Err(curfews.error); }
      body := Curfew(curfews.value);
    } else if value[0] == 0x13 {
      body :- DecodeMovement(t, value);
    } else if value[0] == 0x18 {
      body :- DecodeFeed(t, device, value);
      if body.Feed? {
        StoreFeed(db, device, value, body, now);
      }
    } else if value[0] == 0x1B {
      if |value| <= 8 { return Err(IndexError); }
      db.UpdateBowl1(device, FromLittleSigned(Slice(value, 16, 20)));
      body :- DecodeDrinking(t, value);
    } else {
      body := Unknown(ToHex(value));
    }
    r := Ok(Frame(msg, counter, stamp, body));
  }

  /** The table updates of a feed: what a known pet ate, and what is left in the bowls. */
  method StoreFeed(db: Database, device: Mac, value: seq<byte>, body: Body, now: string)
    requires 15 < |value| && body.Feed? && DecodeFeed(db.Rows(), device, value) == Ok(body)
    modifies db
    ensures db.Rows() == FeedEffect(old(db.Rows()), device, value, now)
  {
    hide FromLittle, FromLittleSigned, BytesToTag;
    if !(4 <= value[15] < 8) {
      var tag := BytesToTag(value[8..15]);
      if tag.value.Some? && tag.value.value in db.pets && value[15] == 1 {
        db.UpdatePetState(tag.value.value, device, Ate(body.leftTo - body.leftFrom, body.rightTo - body.rightFrom), now);
      }
    }
    if value[15] == 1 || value[15] == 5 {
      db.UpdateBowls(device, body.leftTo, body.rightTo);
    }
  }

  // ----- the frames of a 126 payload

  /** A length byte before each frame. */
  function Framed(frames: seq<seq<byte>>): seq<byte>
    requires forall f :: f in frames ==> |f| < 256
  {
    if frames == [] then [] else [|frames[0]| as byte] + frames[0] + Framed(frames[1..])
  }

  /** The frames the loop cuts off the front, and what it leaves. */
  function Unframed(payload: seq<byte>): (seq<seq<byte>>, seq<byte>)
    decreases |payload|
  {
    if |payload| <= 2 then ([], payload) else
    var n: int := (payload[0] as int) + 1;
    var (frames, rest) := Unframed(if n <= |payload| then payload[n..] else []);
    ([Slice(payload, 1, n)] + frames, rest)
  }

  /** Frames decoded one after the other, each against the tables the ones before it left. */
  function DecodeAll(t: Tables, device: Mac, frames: seq<seq<byte>>, now: string): Result<seq<Frame>>
    decreases |frames|
  {
    hide Decode, Effect;
    if frames == [] then Ok([]) else
    var first :- Decode(t, device, frames[0]);
    Prepend([first], DecodeAll(Effect(t, device, frames[0], now), device, frames[1..], now))
  }

  function EffectAll(t: Tables, device: Mac, frames: seq<seq<byte>>, now: string): Tables
    decreases |frames|
  {
    hide Decode, Effect;
    if frames == [] then t
    else if Decode(t, device, frames[0]).Err? then Effect(t, device, frames[0], now)
    else EffectAll(Effect(t, device, frames[0], now), device, frames[1..], now)
  }

  /** A byte buffer that is consumed in place. */
  class Buffer {
    var bytes: seq<byte>

    constructor (bs: seq<byte>)
      ensures bytes == bs
    {
      bytes := bs;
    }

    /** del payload[0:n] */
    method Delete(n: nat)
      modifies this
      ensures bytes == if n <= |old(bytes)| then old(bytes)[n..] else []
    {
      bytes := if n <= |bytes| then bytes[n..] else [];
    }
  }

  /** parsemultiframe: decodes and deletes the first frame until at most two bytes are left. */
  method ParseMultiFrame(db: Database, device: Mac, payload: Buffer, now: string) returns (r: Result<seq<Frame>>)
    modifies db, payload
    ensures r == DecodeAll(old(db.Rows()), device, Unframed(old(payload.bytes)).0, now)
    ensures db.Rows() == EffectAll(old(db.Rows()), device, Unframed(old(payload.bytes)).0, now)
    ensures r.Ok? ==> payload.bytes == Unframed(old(payload.bytes)).1
  {
    hide Decode, Effect;
    var response := [];
    PrependTwice([], [], DecodeAll(db.Rows(), device, Unframed(payload.bytes).0, now));
    while 2 < |payload.bytes|
      invariant Unframed(payload.bytes).1 == Unframed(old(payload.bytes)).1
      invariant DecodeAll(old(db.Rows()), device, Unframed(old(payload.bytes)).0, now)
             == Prepend(response, DecodeAll(db.Rows(), device, Unframed(payload.bytes).0, now))
      invariant EffectAll(old(db.Rows()), device, Unframed(old(payload.bytes)).0, now)
             == EffectAll(db.Rows(), device, Unframed(payload.bytes).0, now)
      decreases |payload.bytes|
    {
      var subframelength: int := (payload.bytes[0] as int) + 1;
      var currentframe := Slice(payload.bytes, 1, subframelength);
      var frame := ParseFrame(db, device, currentframe, now);
      ghost var frames := Unframed(payload.bytes).0;
      assert frames[0] == currentframe;
      if frame.Err? {
        return Err(frame.error);
      }
      ghost var before := response;
      response := response + [frame.value];
      payload.Delete(subframelength);
      PrependTwice(before, [frame.value], DecodeAll(db.Rows(), device, Unframed(payload.bytes).0, now));
    }
    assert response + [] == response;
    return Ok(response);
  }

  /** Unframing recovers a list of frames exactly when the last one has two bytes or more. */
  lemma {:induction false} UnframingInverts(frames: seq<seq<byte>>)
    requires forall f :: f in frames ==> |f| < 256
    ensures Unframed(Framed(frames)) == (frames, []) <==> frames == [] || 2 <= |frames[|frames| - 1]|
  {
    if frames != [] {
      var f, rest := frames[0], frames[1..];
      var payload := Framed(frames);
      UnframingInverts(rest);
      assert payload == [|f| as byte] + (f + Framed(rest));
      if 2 < |payload| {
        assert payload[|f| + 1..] == Framed(rest);
        assert Slice(payload, 1, |f| + 1) == f;
        var others := Unframed(Framed(rest)).0;
        assert ([f] + others)[1..] == others;
        assert frames == [f] + rest;
        if rest != [] {
          assert rest[|rest| - 1] == frames[|frames| - 1];
        }
      } else if rest != [] {
        assert |Framed(rest)| >= 1 + |rest[0]|;
        ShortFrames(rest);
        assert rest[|rest| - 1] == frames[|frames| - 1];
      }
    }
  }

  lemma {:induction false} ShortFrames(frames: seq<seq<byte>>)
    requires forall f :: f in frames ==> |f| < 256
    ensures forall f :: f in frames ==> |f| + 1 <= |Framed(frames)|
  {
    if frames != [] {
      ShortFrames(frames[1..]);
    }
  }

  /** Frames behind length bytes that need not be true. */
  function Marked(lengths: seq<byte>, frames: seq<seq<byte>>): seq<byte>
    requires |lengths| == |frames|
  {
    if frames == [] then [] else [lengths[0]] + frames[0] + Marked(lengths[1..], frames[1..])
  }

  lemma MarkedCons(length: byte, frame: seq<byte>, lengths: seq<byte>, frames: seq<seq<byte>>)
    requires |lengths| == |frames|
    ensures Marked([length] + lengths, [frame] + frames) == [length] + frame + Marked(lengths, frames)
  {
    assert ([length] + lengths)[1..] == lengths && ([frame] + frames)[1..] == frames;
  }

  /** Only the last frame may be shorter than its length byte says, and then nothing is left. */
  predicate Measured(lengths: seq<byte>, frames: seq<seq<byte>>, left: seq<byte>) {
    && |lengths| == |frames|
    && forall i :: 0 <= i < |frames| ==>
         |frames[i]| <= lengths[i] && (|frames[i]| < lengths[i] ==> i == |frames| - 1 && left == [])
  }

  lemma MeasuredCons(length: byte, frame: seq<byte>, lengths: seq<byte>, frames: seq<seq<byte>>, left: seq<byte>)
    requires Measured(lengths, frames, left) && |frame| <= length
    requires |frame| < length ==> frames == [] && left == []
    ensures Measured([length] + lengths, [frame] + frames, left)
  {
  }

  lemma UnframedStep(payload: seq<byte>) returns (frame: seq<byte>, tail: seq<byte>)
    requires 2 < |payload|
    ensures payload == [payload[0]] + frame + tail && |frame| <= payload[0] && |tail| < |payload|
    ensures |frame| < payload[0] ==> Unframed(tail) == ([], [])
    ensures Unframed(payload) == ([frame] + Unframed(tail).0, Unframed(tail).1)
  {
    var n: int := (payload[0] as int) + 1;
    frame := Slice(payload, 1, n);
    tail := if n <= |payload| then payload[n..] else [];
  }

  /**
   On any bytes: the frames handed out, with their length bytes, and at most two bytes more
   are the payload in order without gap or overlap.
   */
  lemma {:induction false} UnframingConsumes(payload: seq<byte>) returns (lengths: seq<byte>)
    ensures Measured(lengths, Unframed(payload).0, Unframed(payload).1) && |Unframed(payload).1| <= 2
    ensures payload == Marked(lengths, Unframed(payload).0) + Unframed(payload).1
    decreases |payload|
  {
    if |payload| <= 2 {
      lengths := [];
    } else {
      hide *;
      var frame, tail := UnframedStep(payload);
      var frames, left := Unframed(tail).0, Unframed(tail).1;
      var rest := UnframingConsumes(tail);
      MeasuredLengths(rest, frames, left);
      lengths := [payload[0]] + rest;
      MarkedCons(payload[0], frame, rest, frames);
      MeasuredCons(payload[0], frame, rest, frames, left);
      ConcatAssociative([payload[0]] + frame, Marked(rest, frames), left);
    }
  }

  lemma MeasuredLengths(lengths: seq<byte>, frames: seq<seq<byte>>, left: seq<byte>)
    requires Measured(lengths, frames, left)
    ensures |lengths| == |frames|
  {
  }

  // ----- locality

  lemma FeedLocality(t: Tables, device: Mac, v: seq<byte>, now: string)
    requires 15 < |v| && 1 < |device|
    ensures t.LocalTo(FeedEffect(t, device, v, now), device)
  {
    hide FromLittleSigned, FeedTag, Tables.LocalTo, Tables.SetPetState, Tables.SetBowls, FeederStateName;
    LocalSelf(t, device);
    if FeederStateName(v[15]).Some? && FeedTag(v).Ok? {
      var leftTo, rightTo := FromLittleSigned(Slice(v, 23, 27)), FromLittleSigned(Slice(v, 31, 35));
      var left := leftTo - FromLittleSigned(Slice(v, 19, 23));
      var right := rightTo - FromLittleSigned(Slice(v, 27, 31));
      var tag := FeedTag(v).value;
      var fed := t;
      if v[15] == 1 && tag.Some? && tag.value in t.pets {
        fed := t.SetPetState(tag.value, device, Ate(left, right), now);
        PetRowsLocal(t, tag.value, device, Ate(left, right), now);
      }
      BowlsRowLocal(fed, device, leftTo, rightTo);
      LocalTwice(t, fed, fed.SetBowls(device, leftTo, rightTo), device);
    }
  }

  /** A frame of one device changes no row of another. */
  lemma FrameLocality(t: Tables, device: Mac, v: seq<byte>, now: string)
    requires 1 < |device|
    ensures t.LocalTo(Effect(t, device, v, now), device)
  {
    hide FromLittleSigned, FeedEffect, Decode11, Tables.LocalTo, Tables.SetBattery, Tables.SetCustomMode, Tables.SetLockingMode, Tables.SetBowl1;
    LocalSelf(t, device);
    ModeRowsLocal(t, device, FromLittleSigned(Slice(v, 9, 12)));
    BatteryRowsLocal(t, device, FromLittleSigned(Slice(v, 8, 12)) * 10);
    BowlRowLocal(t, device, FromLittleSigned(Slice(v, 16, 20)));
    if v != [] && v[0] == 0x11 && Decode11(t, v).Ok? && Decode11(t, v).value.LockState? {
      LockRowsLocal(t, device, Decode11(t, v).value.number);
    }
    if v != [] && v[0] == 0x18 && 15 < |v| {
      FeedLocality(t, device, v, now);
    }
  }

  /** Nor does a whole payload. */
  lemma {:induction false} PayloadLocality(t: Tables, device: Mac, frames: seq<seq<byte>>, now: string)
    requires 1 < |device|
    ensures t.LocalTo(EffectAll(t, device, frames, now), device)
    decreases |frames|
  {
    hide Effect, Decode, Tables.LocalTo;
    LocalSelf(t, device);
    if frames != [] {
      var u := Effect(t, device, frames[0], now);
      FrameLocality(t, device, frames[0], now);
      PayloadLocality(u, device, frames[1..], now);
      LocalTwice(t, u, EffectAll(u, device, frames[1..], now), device);
    }
  }

  /** No frame touches the message counters. */
  lemma {:induction false} CountersStay(t: Tables, device: Mac, frames: seq<seq<byte>>, now: string)
    ensures EffectAll(t, device, frames, now).counters == t.counters
    decreases |frames|
  {
    hide Effect, Decode;
    if frames != [] {
      FrameKeepsCounters(t, device, frames[0], now);
      CountersStay(Effect(t, device, frames[0], now), device, frames[1..], now);
    }
  }

  lemma FrameKeepsCounters(t: Tables, device: Mac, v: seq<byte>, now: string)
    ensures Effect(t, device, v, now).counters == t.counters
  {
    hide FromLittleSigned, FeedEffect, Decode11, Slice;
    if v != [] && v[0] == 0x18 && 15 < |v| {
      FeedKeepsCounters(t, device, v, now);
    }
  }

  lemma FeedKeepsCounters(t: Tables, device: Mac, v: seq<byte>, now: string)
    requires 15 < |v|
    ensures FeedEffect(t, device, v, now).counters == t.counters
  {
    hide FromLittleSigned, FeedTag, FeederStateName, Slice, Tables.SetPetState, Tables.SetBowls;
    forall u: Tables, tag, value
      ensures u.SetPetState(tag, device, value, now).counters == u.counters
    {
      PetRows(u, tag, device, value, now, (tag, device));
    }
    forall u: Tables, left, right
      ensures u.SetBowls(device, left, right).counters == u.counters
    {
      BowlRows(u, device, left, right, device);
    }
  }
}
