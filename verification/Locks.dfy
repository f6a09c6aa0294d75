/**
 The lock protocol. A KeepIn or KeepOut request is turned into a command from the stored
 mode, the device reports the new mode, the decoder stores it and the switches follow.
 Pet doors and cat flaps do this with different encodings.
 */
module Locks {
  import opened Arithmetic
  import opened Bytes
  import opened Commands
  import opened Constants
  import opened Databases
  import opened FlapRoundTrips
  import opened Numerals
  import opened Results
  import opened RoundTrips
  import opened Texts
  import D = Doors
  import F = Frames
  import Timestamps

  // ----- pet door messages

  datatype DoorOp = DoorLock(lock: LockOp) | DoorCurfew | DoorKeep(side: Side) | CurfewSwitch

  /** The value written to register 36. */
  function DoorValue(op: DoorOp, state: string, lm: int): byte {
    match op
    case DoorLock(lock) => LockNumber(lock)
    case DoorCurfew => 4
    case DoorKeep(side) => LockNumber(LockChoice(side, state, lm))
    case CurfewSwitch => if state == "ON" then 4 else 0
  }

  /** Writing one byte to one register. */
  function DoorMessage(value: byte, clock: string): string {
    clock + " 1000 2 36 1 " + Hex2(value)
  }

  /** The door's own report of the register. */
  function StatusMessage(value: byte, clock: string, sequence: string, count: string): string {
    clock + " " + sequence + " 132 " + count + " 36 1 " + Hex2(value)
  }

  /** Offset, length and value of a 2 or 132 message; the length is read a second time, as decimal. */
  function DoorFields(message: string): Result<(nat, nat, string)> {
    var words := Words(message);
    if |words| < 3 then Err(IndexError) else
    var first := if words[2] == "132" then 4 else 3;
    if words[2] == "3" && |words| < 5 then Err(IndexError)
    else if words[2] != "132" && words[2] != "2" then Err(Rejected)
    else if |words| < first + 2 then Err(IndexError)
    else
      var length :- ParseInt(10, words[first + 1]);
      var offset :- ParseInt(10, words[first]);
      var again :- ParseInt(10, Hb(length));
      Ok((offset, again, Concat(words[first + 2..])))
  }

  /** The door does what a command says, and reports the registers that were written. */
  function Answer(command: string, c: Clock): string {
    match DoorFields(command)
    case Err(_) => ""
    case Ok((offset, length, value)) =>
      c.status + " " + c.sequence + " 132 " + c.count + " " + Numeral(10, offset) + " " + Numeral(10, length) + " " + value
  }

  /** Clocks and counters around one command: when it is made, and what precedes the door's report of it. */
  datatype Clock = Clock(at: Timestamps.Stamp, clock: string, now: string, status: string, sequence: string, count: string)

  predicate GoodClock(c: Clock) {
    && IsWord(c.clock) && Timestamps.InRange(c.at)
    && IsWord(c.status) && Timestamps.Moment(c.status).Ok? && IsWord(c.sequence) && c.sequence != "1000" && IsWord(c.count)
  }

  predicate GoodClocks(clocks: seq<Clock>) {
    forall i :: 0 <= i < |clocks| ==> GoodClock(clocks[i])
  }

  /** The pet door branch of generatemessage, for the lock. */
  method GenerateLock(db: Database, mac: Mac, op: DoorOp, state: string, clock: string) returns (r: Result<string>)
    ensures op.DoorKeep? && mac !in db.doors ==> r == Err(AttributeError)
    ensures !op.DoorKeep? || mac in db.doors ==>
              r == Ok(DoorMessage(DoorValue(op, state, if op.DoorKeep? then db.doors[mac].lockingMode else 0), clock))
  {
    var value: byte;
    match op {
      case DoorLock(lock) =>
        value := LockNumber(lock);
      case DoorCurfew =>
        value := 4;
      case CurfewSwitch =>
        if state == "ON" {
          value := 4;
        } else {
          value := 0;
        }
      case DoorKeep(side) =>
        if mac !in db.doors { return Err(AttributeError); }
        var lm := db.doors[mac].lockingMode;
        if (side == KeepIn && state == "OFF" && lm == 1) || (side == KeepOut && state == "OFF" && lm == 2) {
          value := 0;
        } else if (side == KeepIn && state == "ON" && lm == 0) || (side == KeepOut && state == "OFF" && lm == 3) {
          value := 1;
        } else if (side == KeepIn && state == "OFF" && lm == 3) || (side == KeepOut && state == "ON" && lm == 0) {
          value := 2;
        } else if (side == KeepIn && state == "ON" && lm == 2) || (side == KeepOut && state == "ON" && lm == 1) {
          value := 3;
        } else {
          value := 0;
        }
    }
    r := Ok(DoorMessage(value, clock));
  }

  /** The command for each lock state, for the curfew, and for its switch, as text. */
  lemma LockTexts(lm: int, state: string, clock: string)
    ensures DoorMessage(DoorValue(DoorLock(Unlocked), state, lm), clock) == clock + " 1000 2 36 1 00"
    ensures DoorMessage(DoorValue(DoorLock(LockKeepIn), state, lm), clock) == clock + " 1000 2 36 1 01"
    ensures DoorMessage(DoorValue(DoorLock(LockKeepOut), state, lm), clock) == clock + " 1000 2 36 1 02"
    ensures DoorMessage(DoorValue(DoorLock(Locked), state, lm), clock) == clock + " 1000 2 36 1 03"
    ensures DoorMessage(DoorValue(DoorCurfew, state, lm), clock) == clock + " 1000 2 36 1 04"
    ensures DoorMessage(DoorValue(CurfewSwitch, "ON", lm), clock) == clock + " 1000 2 36 1 04"
    ensures state != "ON" ==> DoorMessage(DoorValue(CurfewSwitch, state, lm), clock) == clock + " 1000 2 36 1 00"
  {
    hide Hex2;
    PairDigits(0);
    PairDigits(1);
    PairDigits(2);
    PairDigits(3);
    PairDigits(4);
    assert " 1000 2 36 1 00" == " 1000 2 36 1 " + "00" && " 1000 2 36 1 01" == " 1000 2 36 1 " + "01";
    assert " 1000 2 36 1 02" == " 1000 2 36 1 " + "02" && " 1000 2 36 1 03" == " 1000 2 36 1 " + "03";
    assert " 1000 2 36 1 04" == " 1000 2 36 1 " + "04";
  }

  // ----- reading the length twice

  lemma {:induction false} DecimalBelowHex(s: string)
    requires IsNumeral(10, s)
    ensures Value(10, s) <= Value(16, s)
    ensures 2 <= |s| && 0 < Value(16, s[..1]) ==> Value(10, s) < Value(16, s)
  {
    if s != "" {
      var t := s[..|s| - 1];
      DecimalBelowHex(t);
      if 2 <= |t| {
        assert t[..1] == s[..1];
      } else if |t| == 1 {
        assert t == s[..1];
      }
    }
  }

  /** hb prints the length in hex and int reads it in decimal: right exactly up to 9. */
  lemma LengthReread(n: nat)
    ensures ParseInt(10, Hb(n)) == Ok(n) <==> n <= 9
  {
    var h := Hb(n);
    var s := Numeral(16, n);
    PrintedHasNoSpace(16, s);
    StripNothing(h);
    if n <= 9 {
      assert s == [DigitChar(n)] && h == "0" + s;
      assert h[..1] == "0";
      assert Value(10, h[..1]) == 0;
    } else if n < 16 {
      assert h == "0" + s;
      assert DigitValue(h[1]) == n;
    } else {
      NumeralFits(16, n, 1);
      assert Pow(16, 1) == 16;
      NumeralLeads(16, n);
      ValueOfNumeral(16, n);
      if IsNumeral(10, s) {
        DecimalBelowHex(s);
        assert s[..1][..0] == "";
        assert Value(16, s[..1]) == DigitValue(s[0]);
        LeadingDigit(16, s);
      }
    }
  }

  // ----- decoding the lock register

  lemma OneWord(w: string)
    requires IsWord(w)
    ensures Words(w) == [w]
  {
    SplitFree(w, {' '});
    assert [w][1..] == [] && NonEmpty([]) == [];
    assert NonEmpty([w]) == [w] + [];
  }

  lemma RegisterWords(x: byte)
    ensures Words("36 1 " + Hex2(x)) == ["36", "1", Hex2(x)]
  {
    SmallWords();
    HexWord(x);
    hide Words, Hex2, Free;
    OneWord(Hex2(x));
    WordsCons("1", Hex2(x));
    WordsCons("36", "1 " + Hex2(x));
    assert "36" + " " + ("1 " + Hex2(x)) == "36 1 " + Hex2(x);
    assert "1" + " " + Hex2(x) == "1 " + Hex2(x);
  }

  lemma SmallWords()
    ensures IsWord("36") && IsWord("1") && IsWord("2") && IsWord("132") && IsWord("1000")
  {
    assert IsPrinted(10, "36") && IsPrinted(10, "1") && IsPrinted(10, "2") && IsPrinted(10, "132") && IsPrinted(10, "1000");
    hide IsPrinted, IsWord;
    DecimalWord("36");
    DecimalWord("1");
    DecimalWord("2");
    DecimalWord("132");
    DecimalWord("1000");
  }

  lemma DecimalWord(s: string)
    requires IsPrinted(10, s) && s != ""
    ensures IsWord(s)
  {
    PrintedHasNoSpace(10, s);
  }

  lemma CommandWords(x: byte, clock: string)
    requires IsWord(clock)
    ensures Words(DoorMessage(x, clock)) == [clock, "1000", "2", "36", "1", Hex2(x)]
  {
    SmallWords();
    RegisterWords(x);
    hide Words, Hex2, Free;
    var rest := "36 1 " + Hex2(x);
    WordsCons("2", rest);
    WordsCons("1000", "2 " + rest);
    WordsCons(clock, "1000 " + ("2 " + rest));
    assert "2" + " " + rest == "2 " + rest && "1000" + " " + ("2 " + rest) == "1000 " + ("2 " + rest);
    assert clock + " " + ("1000 " + ("2 " + rest)) == DoorMessage(x, clock);
  }

  lemma StatusWords(x: byte, clock: string, sequence: string, count: string)
    requires IsWord(clock) && IsWord(sequence) && IsWord(count)
    ensures Words(StatusMessage(x, clock, sequence, count)) == [clock, sequence, "132", count, "36", "1", Hex2(x)]
  {
    SmallWords();
    RegisterWords(x);
    hide Words, Hex2, Free;
    var rest := "36 1 " + Hex2(x);
    WordsCons(count, rest);
    WordsCons("132", count + " " + rest);
    WordsCons(sequence, "132 " + (count + " " + rest));
    WordsCons(clock, sequence + " " + ("132 " + (count + " " + rest)));
    assert "132" + " " + (count + " " + rest) == "132 " + (count + " " + rest);
    assert clock + " " + (sequence + " " + ("132 " + (count + " " + rest))) == StatusMessage(x, clock, sequence, count);
  }

  lemma SmallNumbers()
    ensures ParseInt(10, "36") == Ok(36) && ParseInt(10, "1") == Ok(1)
  {
    ParsePrinted(10, "36");
    ParsePrinted(10, "1");
    assert "36"[..1] == "3" && "3"[..0] == "" && "1"[..0] == "";
    assert Value(10, "3") == 3;
  }

  /** Command and report of the lock both name register 36, one byte, and its value. */
  lemma LockFields(x: byte, clock: string, sequence: string, count: string)
    requires IsWord(clock)
    ensures DoorFields(DoorMessage(x, clock)) == Ok((36, 1, Hex2(x)))
    ensures IsWord(sequence) && IsWord(count) ==>
              DoorFields(StatusMessage(x, clock, sequence, count)) == Ok((36, 1, Hex2(x)))
  {
    SmallNumbers();
    LengthReread(1);
    OneText(Hex2(x));
    hide Words, Hex2, ParseInt, Hb, DoorMessage, StatusMessage, Concat, Free;
    CommandWords(x, clock);
    if IsWord(sequence) && IsWord(count) {
      StatusWords(x, clock, sequence, count);
    }
  }

  lemma LockAnswered(x: byte, c: Clock)
    requires GoodClock(c)
    ensures Answer(DoorMessage(x, c.clock), c) == StatusMessage(x, c.status, c.sequence, c.count)
  {
    hide DoorFields, DoorMessage, Hex2, IsWord, Timestamps.InRange, Timestamps.Moment, Numeral;
    LockFields(x, c.clock, "", "");
    RegisterNumerals();
    assert " 36 1 " == " " + "36" + " " + "1" + " ";
    var front, h := c.status + " " + c.sequence + " 132 " + c.count, Hex2(x);
    assert front + " " + "36" + " " + "1" + " " + h == front + (" " + "36" + " " + "1" + " ") + h;
  }

  lemma RegisterNumerals()
    ensures Numeral(10, 36) == "36" && Numeral(10, 1) == "1"
  {
    assert Numeral(10, 3) == "3";
  }

  lemma OneText(s: string)
    ensures Concat([s]) == s
  {
    assert [s][1..] == [];
  }

  /** Decoding the register stores its value. */
  lemma LockStored(t: Tables, mac: Mac, x: byte, now: string)
    ensures D.DoorEffect(t, mac, 36, 1, Hex2(x), now) == t.SetLockingMode(mac, x)
    ensures D.DecodeDoor(t, mac, 36, 1, Hex2(x)) == Ok(D.NOTHING.(lock := Some(x)))
  {
    HexRoundTrip([x]);
    assert [x][1..] == [] && ToHex([x]) == Hex2(x) + "";
    assert FromHex(Hex2(x)) == Ok([x]);
    hide FromHex, Hex2, ToHex;
  }

  // ----- one request

  datatype Request = Request(side: Side, on: bool)

  function StateText(on: bool): string {
    if on then "ON" else "OFF"
  }

  /** One bit of the mode per side: 1 keeps in, 2 keeps out, 3 does both. */
  predicate Bit(mode: int, side: Side) {
    mode == 3 || mode == (if side == KeepIn then 1 else 2)
  }

  function OtherSide(side: Side): Side {
    if side == KeepIn then KeepOut else KeepIn
  }

  function NextMode(lm: int, r: Request): (mode: int)
    ensures 0 <= mode <= 3
  {
    LockNumber(LockChoice(r.side, StateText(r.on), lm))
  }

  /** A request sets its own bit and no other exactly when it changes that bit, or nothing is locked. */
  lemma RequestExact(lm: int, r: Request)
    requires 0 <= lm <= 3
    ensures (Bit(NextMode(lm, r), r.side) == r.on && Bit(NextMode(lm, r), OtherSide(r.side)) == Bit(lm, OtherSide(r.side)))
            <==> (Bit(lm, r.side) != r.on || lm == 0)
    ensures Bit(lm, r.side) == r.on ==> NextMode(lm, r) == 0
  {
    OnIsNotOff();
    hide StateText;
  }

  lemma OnIsNotOff()
    ensures StateText(true) == "ON" && StateText(false) == "OFF" && "ON" != "OFF"
  {
  }

  /** From any other mode, such as curfew, every request unlocks. */
  lemma OtherModesUnlock(lm: int, r: Request)
    requires !(0 <= lm <= 3)
    ensures NextMode(lm, r) == 0
  {
  }

  // ----- runs of requests

  function Modes(lm: int, requests: seq<Request>): int {
    if requests == [] then lm else NextMode(Modes(lm, requests[..|requests| - 1]), requests[|requests| - 1])
  }

  /** Every request changes its bit, or comes while nothing is locked. */
  predicate EffectiveRun(lm: int, requests: seq<Request>) {
    requests == [] ||
    (var before, r := Modes(lm, requests[..|requests| - 1]), requests[|requests| - 1];
     EffectiveRun(lm, requests[..|requests| - 1]) && (Bit(before, r.side) != r.on || before == 0))
  }

  /** The last request for a side, or what held before. */
  function LastRequest(initial: bool, requests: seq<Request>, side: Side): bool {
    if requests == [] then initial
    else if requests[|requests| - 1].side == side then requests[|requests| - 1].on
    else LastRequest(initial, requests[..|requests| - 1], side)
  }

  lemma {:induction false} ModesInRange(lm: int, requests: seq<Request>)
    requires 0 <= lm <= 3
    ensures 0 <= Modes(lm, requests) <= 3
  {
  }

  /** Over such runs both bits are the last requests of their sides. */
  lemma {:induction false} BitsAreLastRequests(lm: int, requests: seq<Request>, side: Side)
    requires 0 <= lm <= 3 && EffectiveRun(lm, requests)
    ensures Bit(Modes(lm, requests), side) == LastRequest(Bit(lm, side), requests, side)
  {
    if requests != [] {
      var before, r := requests[..|requests| - 1], requests[|requests| - 1];
      BitsAreLastRequests(lm, before, side);
      ModesInRange(lm, before);
      RequestExact(Modes(lm, before), r);
    }
  }

  /** All switches agree with the last requests after every step. */
  predicate AlwaysLastRequests(lm: int, requests: seq<Request>) {
    && (forall side :: Bit(Modes(lm, requests), side) == LastRequest(Bit(lm, side), requests, side))
    && (requests == [] || AlwaysLastRequests(lm, requests[..|requests| - 1]))
  }

  /** And only over such runs do they stay so all along. */
  lemma {:induction false} AgreementExact(lm: int, requests: seq<Request>)
    requires 0 <= lm <= 3
    ensures AlwaysLastRequests(lm, requests) <==> EffectiveRun(lm, requests)
  {
    if requests != [] {
      var before, r := requests[..|requests| - 1], requests[|requests| - 1];
      AgreementExact(lm, before);
      ModesInRange(lm, before);
      RequestExact(Modes(lm, before), r);
      if EffectiveRun(lm, requests) {
        BitsAreLastRequests(lm, requests, KeepIn);
        BitsAreLastRequests(lm, requests, KeepOut);
      } else if EffectiveRun(lm, before) {
        BitsAreLastRequests(lm, before, KeepIn);
        BitsAreLastRequests(lm, before, KeepOut);
        var other := OtherSide(r.side);
        assert LastRequest(Bit(lm, r.side), requests, r.side) == r.on;
        assert LastRequest(Bit(lm, other), requests, other) == LastRequest(Bit(lm, other), before, other);
      }
    }
  }

  // ----- the protocol through the messages

  /** A pet door request: the command is generated, the door answers, and the decoder stores the mode. */
  function DoorStep(t: Tables, mac: Mac, r: Request, c: Clock): Tables
    requires mac in t.doors
  {
    var command := DoorMessage(DoorValue(DoorKeep(r.side), StateText(r.on), t.doors[mac].lockingMode), c.clock);
    match DoorFields(Answer(command, c))
    case Ok((offset, length, value)) => D.DoorEffect(t, mac, offset, length, value, c.now)
    case Err(_) => t
  }

  /** A cat flap request: the frame is generated with the next counter, decoded, and the decoder stores the mode. */
  function FlapStep(t: Tables, mac: Mac, r: Request, at: Timestamps.Stamp, clock: string, now: string): Tables
    requires mac in t.doors && mac in t.counters
  {
    var send := NextSend(t.counters[mac].send);
    match CatFlapMessage(Keep(r.side), StateText(r.on), t.doors[mac].lockingMode, Err(Rejected), send, at, clock)
    case Err(_) => t
    case Ok(message) =>
      match Payload(message)
      case Ok(v) => F.Effect(t.SetSend(mac, send), mac, v, now)
      case Err(_) => t.SetSend(mac, send)
  }

  lemma DoorStepMode(t: Tables, mac: Mac, r: Request, c: Clock)
    requires mac in t.doors && GoodClock(c)
    ensures DoorStep(t, mac, r, c) == t.SetLockingMode(mac, NextMode(t.doors[mac].lockingMode, r))
  {
    hide Hex2, DoorFields, DoorMessage, StatusMessage, Answer, D.DoorEffect, LockChoice, StateText, IsWord, Timestamps.InRange, Timestamps.Moment;
    var x := DoorValue(DoorKeep(r.side), StateText(r.on), t.doors[mac].lockingMode);
    LockAnswered(x, c);
    LockFields(x, c.status, c.sequence, c.count);
    LockStored(t, mac, x, c.now);
  }

  /** A frame that reports the lock of the flap stores it. */
  lemma LockEffect(t: Tables, u: Tables, device: Mac, v: seq<byte>, now: string)
    ensures F.Decode(t, device, v).Ok? && F.Decode(t, device, v).value.body.LockState? ==>
              F.Effect(u, device, v, now) == u.SetLockingMode(device, F.Decode(t, device, v).value.body.number)
  {
    hide FromLittle, FromLittleSigned, ToHex, Hb, Timestamps.ToText, Numeral, CatFlapLockStateName, F.CurfewEntries, F.DecodeSetting,
      F.DecodeMovement, F.DecodeFeed, F.DecodeDrinking, F.Decode0d, F.DecodeBattery, F.FeedEffect;
    if F.Decode(t, device, v).Ok? && F.Decode(t, device, v).value.body.LockState? {
      LockBodyOnly(t, device, v);
    }
  }

  lemma LockBodyOnly(t: Tables, device: Mac, v: seq<byte>)
    requires v != [] && F.DecodeBody(t, device, v).Ok? && F.DecodeBody(t, device, v).value.LockState?
    ensures v[0] == 0x11 && F.Decode11(t, v) == F.DecodeBody(t, device, v)
    ensures forall u :: F.Decode11(u, v) == F.Decode11(t, v)
  {
    hide FromLittle, FromLittleSigned, ToHex, Hb, Timestamps.ToText, CatFlapLockStateName, F.CurfewEntries, F.DecodeSetting;
  }

  lemma FlapStepMode(t: Tables, mac: Mac, r: Request, at: Timestamps.Stamp, clock: string, now: string)
    requires mac in t.doors && mac in t.counters && IsWord(clock) && Timestamps.InRange(at)
    ensures FlapStep(t, mac, r, at, clock, now)
         == t.SetSend(mac, NextSend(t.counters[mac].send)).SetLockingMode(mac, NextMode(t.doors[mac].lockingMode, r))
  {
    hide Timestamps.Encoded, Timestamps.InRange, LockChoice, StateText, IsWord, F.Decode, F.Effect, CatFlapTemplate, Slots, Message,
      LockNumber, LockName, Payload, Timestamps.Text, CatFlapMessage, NextSend;
    var bs := Timestamps.StampRoundTrip(at);
    var send := NextSend(t.counters[mac].send);
    var lm := t.doors[mac].lockingMode;
    SendFits(t.counters[mac].send);
    var body := CatFlapRoundTrip(t, mac, Keep(r.side), StateText(r.on), lm, (h, m) => at, Err(Rejected), send, at, clock);
    var message := CatFlapMessage(Keep(r.side), StateText(r.on), lm, Err(Rejected), send, at, clock).value;
    LockEffect(t, t.SetSend(mac, send), mac, Payload(message).value, now);
  }

  lemma SendFits(send: nat)
    ensures NextSend(send) < 65536
  {
  }

  function DoorRun(t: Tables, mac: Mac, requests: seq<Request>, clocks: seq<Clock>): Tables
    requires mac in t.doors && |clocks| == |requests|
    decreases |requests|
  {
    if requests == [] then t else
    var n := |requests| - 1;
    var u := DoorRun(t, mac, requests[..n], clocks[..n]);
    if mac in u.doors then DoorStep(u, mac, requests[n], clocks[n]) else u
  }

  function FlapRun(t: Tables, mac: Mac, requests: seq<Request>, clocks: seq<Clock>): Tables
    requires mac in t.doors && |clocks| == |requests|
    decreases |requests|
  {
    if requests == [] then t else
    var n := |requests| - 1;
    var u := FlapRun(t, mac, requests[..n], clocks[..n]);
    if mac in u.doors && mac in u.counters then FlapStep(u, mac, requests[n], clocks[n].at, clocks[n].clock, clocks[n].now) else u
  }

  lemma {:induction false} DoorRunModes(t: Tables, mac: Mac, requests: seq<Request>, clocks: seq<Clock>)
    requires mac in t.doors && |clocks| == |requests| && GoodClocks(clocks)
    ensures mac in DoorRun(t, mac, requests, clocks).doors
    ensures DoorRun(t, mac, requests, clocks).doors[mac].lockingMode == Modes(t.doors[mac].lockingMode, requests)
    decreases |requests|
  {
    hide DoorStep, NextMode, GoodClock;
    if requests != [] {
      var n := |requests| - 1;
      DoorRunModes(t, mac, requests[..n], clocks[..n]);
      var u := DoorRun(t, mac, requests[..n], clocks[..n]);
      DoorStepMode(u, mac, requests[n], clocks[n]);
    }
  }

  lemma {:induction false} FlapRunModes(t: Tables, mac: Mac, requests: seq<Request>, clocks: seq<Clock>)
    requires mac in t.doors && mac in t.counters && |clocks| == |requests| && GoodClocks(clocks)
    ensures mac in FlapRun(t, mac, requests, clocks).doors && mac in FlapRun(t, mac, requests, clocks).counters
    ensures FlapRun(t, mac, requests, clocks).doors[mac].lockingMode == Modes(t.doors[mac].lockingMode, requests)
    decreases |requests|
  {
    hide FlapStep, IsWord, NextMode, Timestamps.InRange, Timestamps.Moment, NextSend;
    if requests != [] {
      var n := |requests| - 1;
      FlapRunModes(t, mac, requests[..n], clocks[..n]);
      var u := FlapRun(t, mac, requests[..n], clocks[..n]);
      FlapStepMode(u, mac, requests[n], clocks[n].at, clocks[n].clock, clocks[n].now);
    }
  }

  /** From equal stored modes, whatever they are, a pet door and a cat flap store equal modes after every run. */
  lemma Bisimulation(t: Tables, door: Mac, u: Tables, flap: Mac, requests: seq<Request>, clocks: seq<Clock>)
    requires door in t.doors && flap in u.doors && flap in u.counters && |clocks| == |requests| && GoodClocks(clocks)
    requires t.doors[door].lockingMode == u.doors[flap].lockingMode
    ensures door in DoorRun(t, door, requests, clocks).doors && flap in FlapRun(u, flap, requests, clocks).doors
    ensures DoorRun(t, door, requests, clocks).doors[door].lockingMode == FlapRun(u, flap, requests, clocks).doors[flap].lockingMode
  {
    hide DoorRun, FlapRun, Modes;
    DoorRunModes(t, door, requests, clocks);
    FlapRunModes(u, flap, requests, clocks);
  }

  // ----- Home Assistant switches

  /** What the three switches of a pet door show for a lock mode. */
  function Switches(mode: byte): (string, string, string) {
    (StateText(mode == 1 || mode == 3), StateText(mode == 2 || mode == 3), StateText(mode == 4))
  }

  /** Over effective runs the switches show the last request of each side. */
  lemma SwitchesAreLastRequests(lm: byte, requests: seq<Request>)
    requires lm <= 3 && EffectiveRun(lm, requests)
    ensures 0 <= Modes(lm, requests) <= 3
    ensures Switches(Modes(lm, requests))
         == (StateText(LastRequest(Bit(lm, KeepIn), requests, KeepIn)),
             StateText(LastRequest(Bit(lm, KeepOut), requests, KeepOut)), "OFF")
  {
    ModesInRange(lm, requests);
    BitsAreLastRequests(lm, requests, KeepIn);
    BitsAreLastRequests(lm, requests, KeepOut);
  }

  /** What is published for a lock mode. */
  function Shown(mac: Mac, mode: byte): seq<(string, string)> {
    [(mac + "_KeepIn/state", Switches(mode).0), (mac + "_KeepOut/state", Switches(mode).1), (mac + "_Curfew/state", Switches(mode).2)]
  }

  datatype CurfewShown = CurfewShown(state: int, curfews: string)

  /** The entry of a device among the states. */
  datatype DeviceState = DeviceState(state: string, curfew: Option<CurfewShown>)

  /** Everything the handler does with a report that was decoded: outcome, publications, states and rows. */
  datatype Handled = Handled(r: Result<()>, published: seq<(string, string)>, states: map<Mac, DeviceState>, rows: Tables)

  function HandleLock(mac: Mac, mode: byte, h: Handled): Handled {
    var shown := h.(published := h.published + Shown(mac, mode));
    if mac !in h.states then shown.(r := Err(KeyError))
    else shown.(states := h.states[mac := h.states[mac].(state := PetDoorLockStateName(mode))], rows := h.rows.SetLockingModes(mac, mode))
  }

  function HandleCurfew(mac: Mac, curfewState: int, curfews: string, h: Handled): Handled {
    if mac !in h.states || h.states[mac].curfew.None? then h.(r := Err(KeyError))
    else h.(states := h.states[mac := h.states[mac].(curfew := Some(CurfewShown(curfewState, curfews)))],
            rows := h.rows.SetCurfewEnabled(mac, curfewState))
  }

  /** The lock, then the curfew, then the status, which needs the device's entry. */
  function Handle(mac: Mac, report: D.Report, h: Handled): Handled {
    var locked := match report.lock { case Some(mode) => HandleLock(mac, mode, h) case None => h };
    if locked.r.Err? then locked else
    var curfew := match report.other { case CurfewSetting(s, c) => HandleCurfew(mac, s, c, locked) case _ => locked };
    if curfew.r.Err? || mac in curfew.states then curfew else curfew.(r := Err(KeyError))
  }

  /** The name of a lock mode. */
  function LockText(mode: byte): string {
    if mode == 0 then "Unlocked" else if mode == 1 then "KeepIn" else if mode == 2 then "KeepOut"
    else if mode == 3 then "Locked" else if mode == 4 then "Curfew" else Numeral(10, mode)
  }

  /** A reported lock: three switches, the name shown, and the stored mode; without a state only the switches. */
  lemma HandledLock(mac: Mac, mode: byte, h: Handled)
    requires h.r == Ok(())
    ensures Handle(mac, D.NOTHING.(lock := Some(mode)), h)
         == var shown := h.published + [(mac + "_KeepIn/state", if mode == 1 || mode == 3 then "ON" else "OFF"),
                                        (mac + "_KeepOut/state", if mode == 2 || mode == 3 then "ON" else "OFF"),
                                        (mac + "_Curfew/state", if mode == 4 then "ON" else "OFF")];
            if mac !in h.states then Handled(Err(KeyError), shown, h.states, h.rows)
            else Handled(Ok(()), shown, h.states[mac := DeviceState(LockText(mode), h.states[mac].curfew)],
                         h.rows.SetLockingModes(mac, mode))
    ensures Handle(mac, D.NOTHING.(lock := Some(mode)), h).published == h.published + Shown(mac, mode)
  {
    hide Tables.SetLockingModes, Numeral;
  }

  /** A reported curfew: shown and stored for a device that has shown one before. */
  lemma HandledCurfew(mac: Mac, enabled: int, curfews: string, h: Handled)
    requires h.r == Ok(())
    ensures Handle(mac, D.NOTHING.(other := D.CurfewSetting(enabled, curfews)), h)
         == if mac in h.states && h.states[mac].curfew.Some?
            then Handled(Ok(()), h.published,
                         h.states[mac := DeviceState(h.states[mac].state, Some(CurfewShown(enabled, curfews)))],
                         h.rows.SetCurfewEnabled(mac, enabled))
            else h.(r := Err(KeyError))
  {
    hide Tables.SetCurfewEnabled;
  }

  /** Any other report changes nothing, and needs a state to show. */
  lemma HandledOther(mac: Mac, report: D.Report, h: Handled)
    requires h.r == Ok(()) && report.lock.None? && !report.other.CurfewSetting?
    ensures Handle(mac, report, h) == if mac in h.states then h else h.(r := Err(KeyError))
  {
  }

  lemma LockRowKept(t: Tables, mac: Mac, mode: int)
    requires mac in t.doors
    ensures mac in t.SetLockingModes(mac, mode).doors && t.SetLockingModes(mac, mode).doors[mac].lockingMode == mode
  {
    hide Tables.SetLockingModes;
    DoorsRows(t, mac, mode, mac);
  }

  /** A message that was decoded without any report: only the status is published. */
  function NoReport(mac: Mac, states: map<Mac, DeviceState>): Result<()> {
    if mac in states then Ok(()) else Err(KeyError)
  }

  /** The published switches, the states shown, and the tables they come from. */
  class Bridge {
    const db: Database
    var published: seq<(string, string)>
    var states: map<Mac, DeviceState>

    constructor (db: Database, states: map<Mac, DeviceState>)
      ensures this.db == db && published == [] && this.states == states
    {
      this.db := db;
      published := [];
      this.states := states;
    }

    ghost function Now(r: Result<()>): Handled
      reads this, db
    {
      Handled(r, published, states, db.Rows())
    }

    /** on_petdoor_hub_message: reflected commands are ignored; a reported lock is published and stored. */
    method OnPetDoorMessage(mac: Mac, message: string, now: string) returns (r: Result<()>)
      modifies this`published, this`states, db
      ensures |Words(message)| < 2 ==> Now(r) == old(Now(Err(IndexError)))
      ensures 2 <= |Words(message)| && Words(message)[1] == "1000" ==> Now(r) == old(Now(Ok(())))
      ensures 2 <= |Words(message)| && Words(message)[1] != "1000" ==>
                match Timestamps.Moment(Words(message)[0])
                case Err(e) => Now(r) == old(Now(Err(e)))
                case Ok(_) =>
                  match DoorFields(message)
                  case Err(e) => Now(r) == old(Now(if e == Rejected && OtherKind(message) then NoReport(mac, states) else Err(e)))
                  case Ok((offset, length, value)) =>
                    var rows := D.DoorEffect(old(db.Rows()), mac, offset, length, value, now);
                    match D.DecodeDoor(old(db.Rows()), mac, offset, length, value)
                    case Err(e) => Now(r) == old(Now(Err(e))).(rows := rows)
                    case Ok(report) => Now(r) == Handle(mac, report, old(Now(Ok(()))).(rows := rows))
    {
      hide Words, DoorFields, D.DecodeDoor, D.DoorEffect, PetDoorLockStateName, Timestamps.Moment, OtherKind;
      if |Words(message)| < 2 { return Err(IndexError); }
      if Words(message)[1] == "1000" { return Ok(()); }
      var moment := Timestamps.Moment(Words(message)[0]);
      if moment.Err? { return Err(moment.error); }
      var fields := DoorFields(message);
      if fields.Err? {
        if fields.error == Rejected && OtherKind(message) {
          return NoReport(mac, states);
        }
        return Err(fields.error);
      }
      var (offset, length, value) := fields.value;
      var report := D.ParseDoorFrame(db, mac, offset, length, value, now);
      if report.Err? { return Err(report.error); }
      if report.value.lock.Some? {
        var mode := report.value.lock.value;
        PublishLock(mac, mode);
        if mac !in states { return Err(KeyError); }
        states := states[mac := states[mac].(state := PetDoorLockStateName(mode))];
        db.UpdateLockingModes(mac, mode);
      }
      if report.value.other.CurfewSetting? {
        if mac !in states || states[mac].curfew.None? { return Err(KeyError); }
        var (curfewState, curfews) := (report.value.other.curfewState, report.value.other.curfews);
        states := states[mac := states[mac].(curfew := Some(CurfewShown(curfewState, curfews)))];
        db.UpdateCurfewEnabled(mac, curfewState);
      }
      r := NoReport(mac, states);
    }

    method PublishLock(mac: Mac, mode: byte)
      modifies this`published
      ensures published == old(published) + Shown(mac, mode)
    {
      hide PetDoorLockStateName;
      LockNames(mode);
      var name := PetDoorLockStateName(mode);
      var keepIn, keepOut, curfew := "OFF", "OFF", "OFF";
      if Contains(name, "Curfew") {
        curfew := "ON";
      } else {
        if name == "KeepIn" || name == "Locked" {
          keepIn := "ON";
        }
        if name == "KeepOut" || name == "Locked" {
          keepOut := "ON";
        }
      }
      published := published + [(mac + "_KeepIn/state", keepIn), (mac + "_KeepOut/state", keepOut), (mac + "_Curfew/state", curfew)];
    }

    /** A request from one of the switches: the command is generated and sent, the door answers, and the answer is handled. */
    method FollowRequest(mac: Mac, request: Request, c: Clock)
      requires mac in db.doors && mac in states && GoodClock(c)
      modifies this`published, this`states, db
      ensures mac in db.doors && mac in states && mac in old(db.doors)
      ensures db.doors[mac].lockingMode == NextMode(old(db.doors)[mac].lockingMode, request)
      ensures published == old(published) + Shown(mac, NextMode(old(db.doors)[mac].lockingMode, request))
    {
      hide Words, DoorFields, D.DecodeDoor, D.DoorEffect, PetDoorLockStateName, Timestamps.Moment, Timestamps.InRange, IsWord, Hex2, Answer,
        DoorMessage, StatusMessage, StateText, LockChoice, Shown, OtherKind, Handle;
      var command := GenerateLock(db, mac, DoorKeep(request.side), StateText(request.on), c.clock);
      ghost var x := DoorValue(DoorKeep(request.side), StateText(request.on), db.doors[mac].lockingMode);
      LockAnswered(x, c);
      StatusStarts(x, c);
      LockFields(x, c.status, c.sequence, c.count);
      LockStored(db.Rows(), mac, x, c.now);
      HandledLock(mac, x, Handled(Ok(()), published, states, db.Rows().SetLockingMode(mac, x)));
      LockRowKept(db.Rows().SetLockingMode(mac, x), mac, x);
      var r := OnPetDoorMessage(mac, Answer(command.value, c), c.now);
    }

    /** A run of requests. */
    method FollowRequests(mac: Mac, requests: seq<Request>, clocks: seq<Clock>)
      requires mac in db.doors && mac in states && |clocks| == |requests| && GoodClocks(clocks)
      modifies this`published, this`states, db
      ensures mac in db.doors && mac in states && mac in old(db.doors)
      ensures db.doors[mac].lockingMode == Modes(old(db.doors)[mac].lockingMode, requests)
      ensures published == old(published) + Publications(mac, old(db.doors)[mac].lockingMode, requests)
    {
      hide GoodClock, NextMode, Shown;
      assert old(published) + [] == old(published);
      for n := 0 to |requests|
        invariant mac in db.doors && mac in states && mac in old(db.doors)
        invariant db.doors[mac].lockingMode == Modes(old(db.doors)[mac].lockingMode, requests[..n])
        invariant published == old(published) + Publications(mac, old(db.doors)[mac].lockingMode, requests[..n])
      {
        FollowRequest(mac, requests[n], clocks[n]);
        assert requests[..n + 1][..n] == requests[..n];
      }
      assert requests[..|requests|] == requests;
    }
  }

  /** Kinds of messages that decode to no report at all. */
  predicate OtherKind(message: string) {
    var words := Words(message);
    3 <= |words| && words[2] !in {"Hub", "10", "126", "127", "132", "2"}
  }

  /** The kinds of messages, one by one: those with frames, hub reports and registers, and all others. */
  lemma Kinds(message: string)
    requires 3 <= |Words(message)|
    ensures OtherKind(message) <==> Words(message)[2] !in {"126", "127"} + {"Hub", "10"} + {"132", "2"}
    ensures Words(message)[2] !in {"132", "2"} && !(Words(message)[2] == "3" && |Words(message)| < 5) ==> DoorFields(message) == Err(Rejected)
  {
    hide Words, ParseInt;
  }

  lemma StatusStarts(x: byte, c: Clock)
    requires GoodClock(c)
    ensures var words := Words(StatusMessage(x, c.status, c.sequence, c.count));
            2 <= |words| && words[1] != "1000" && Timestamps.Moment(words[0]).Ok?
  {
    hide Words, IsWord, Timestamps.Moment, Timestamps.InRange, StatusMessage;
    StatusWords(x, c.status, c.sequence, c.count);
  }

  // ----- what is published over a run

  function Publications(mac: Mac, lm: int, requests: seq<Request>): seq<(string, string)> {
    if requests == [] then []
    else Publications(mac, lm, requests[..|requests| - 1]) + Shown(mac, ModeByte(Modes(lm, requests)))
  }

  function ModeByte(mode: int): byte {
    if 0 <= mode < 256 then mode else 0
  }

  /** The switches as the last requests have them. */
  function LastShown(mac: Mac, lm: int, requests: seq<Request>): seq<(string, string)> {
    [(mac + "_KeepIn/state", StateText(LastRequest(Bit(lm, KeepIn), requests, KeepIn))),
     (mac + "_KeepOut/state", StateText(LastRequest(Bit(lm, KeepOut), requests, KeepOut))),
     (mac + "_Curfew/state", "OFF")]
  }

  /** Over an effective run, after every prefix of it, the last three publications are the last requests and no curfew. */
  lemma {:induction false} PublishedAreLastRequests(mac: Mac, lm: int, requests: seq<Request>, n: nat)
    requires 0 <= lm <= 3 && EffectiveRun(lm, requests) && 0 < n <= |requests|
    ensures |Publications(mac, lm, requests)| == 3 * |requests|
    ensures Publications(mac, lm, requests)[..3 * n] == Publications(mac, lm, requests[..n])
    ensures Publications(mac, lm, requests)[3 * n - 3..3 * n] == LastShown(mac, lm, requests[..n])
    decreases |requests|
  {
    hide Switches, Modes, Bit, StateText, LastRequest;
    var front := requests[..|requests| - 1];
    if |requests| == 1 {
      assert front == [] && Publications(mac, lm, front) == [];
    } else {
      PublishedAreLastRequests(mac, lm, front, if n < |requests| then n else 1);
    }
    var all := Publications(mac, lm, requests);
    assert |all| == 3 * |requests|;
    if n < |requests| {
      assert front[..n] == requests[..n];
      assert all[..3 * n] == Publications(mac, lm, front)[..3 * n];
      assert all[3 * n - 3..3 * n] == Publications(mac, lm, front)[3 * n - 3..3 * n];
    } else {
      assert requests[..n] == requests && all[..3 * n] == all;
      ModesInRange(lm, requests);
      SwitchesAreLastRequests(lm, requests);
      assert all[3 * n - 3..3 * n] == Shown(mac, ModeByte(Modes(lm, requests)));
    }
  }

  /** The names that drive the switches. */
  lemma LockNames(mode: byte)
    ensures var name := PetDoorLockStateName(mode);
            && (Contains(name, "Curfew") <==> mode == 4)
            && (name == "KeepIn" <==> mode == 1) && (name == "KeepOut" <==> mode == 2) && (name == "Locked" <==> mode == 3)
  {
    if 4 < mode {
      F.DigitsOnly(mode);
      PrintedNoC(Str(mode));
    } else {
      SmallNames();
    }
  }

  lemma PrintedNoC(s: string)
    requires IsPrinted(10, s)
    ensures !Contains(s, "Curfew")
  {
    assert DigitValue('u') == 16;
    ContainsNoLetter(s, "Curfew", "Curfew"[1]);
  }

  lemma SmallNames()
    ensures !Contains("Unlocked", "Curfew") && !Contains("KeepIn", "Curfew") && !Contains("KeepOut", "Curfew")
    ensures !Contains("Locked", "Curfew") && Contains("Curfew", "Curfew")
  {
    ContainsNot("Unlocked", "Curfew");
    ContainsNot("KeepIn", "Curfew");
    ContainsNot("KeepOut", "Curfew");
    ContainsNot("Locked", "Curfew");
  }
}
