/**
 The acknowledgement protocol: every frame a feeder or cat flap reports is acknowledged by
 its type and counter, in order, except acknowledgements themselves.
 */
module Acks {
  import opened Arithmetic
  import opened Bytes
  import opened Commands
  import opened Databases
  import opened FlapRoundTrips
  import opened Generators
  import opened Numerals
  import opened Results
  import opened RoundTrips
  import opened Templates
  import opened Texts
  import F = Frames
  import Timestamps

  /** The acknowledgements due for some decoded frames. */
  function AcksDue(frames: seq<F.Frame>, at: Timestamps.Stamp, clock: string): Result<seq<string>> {
    if frames == [] then Ok([])
    else if frames[0].body.Ack? then AcksDue(frames[1..], at, clock)
    else
      var ack :- AckMessage(AckState(frames[0].msg, frames[0].counter), at, clock);
      Prepend([ack], AcksDue(frames[1..], at, clock))
  }

  /**
   The frames in a status message: one for a 127, those behind length bytes for a 126. The
   handlers raise on reports without an operation; kinds that carry other reports are Rejected.
   */
  function FramesOf(message: string): Result<seq<seq<byte>>> {
    var words := Words(message);
    if |words| < 2 then Err(IndexError) else
    var _ :- Timestamps.Moment(words[0]);
    if |words| < 3 then Err(IndexError)
    else if words[2] in {"Hub", "10", "132"} then Err(Rejected)
    else if words[2] == "3" && |words| < 5 then Err(IndexError)
    else if words[2] != "126" && words[2] != "127" then Err(KeyError)
    else
      var v :- Payload(message);
      Ok(if words[2] == "127" then [v] else F.Unframed(v).0)
  }

  /** How often the counter is advanced by acknowledging some frames of a cat flap. */
  function CountAcked(frames: seq<F.Frame>): nat {
    if frames == [] then 0 else (if frames[0].body.Ack? then 0 else 1) + CountAcked(frames[1..])
  }

  function Advanced(send: nat, k: nat): nat {
    if k == 0 then send else NextSend(Advanced(send, k - 1))
  }

  class Bridge {
    const db: Database
    var published: seq<string>

    constructor (db: Database)
      ensures this.db == db && published == []
    {
      this.db := db;
      published := [];
    }

    /** Decode a status message, frame by frame. */
    method DecodeStatus(mac: Mac, message: string, now: string) returns (r: Result<seq<F.Frame>>)
      modifies db
      ensures FramesOf(message).Err? ==> r == Err(FramesOf(message).error) && db.Rows() == old(db.Rows())
      ensures FramesOf(message).Ok? ==>
                && r == F.DecodeAll(old(db.Rows()), mac, FramesOf(message).value, now)
                && db.Rows() == F.EffectAll(old(db.Rows()), mac, FramesOf(message).value, now)
    {
      hide Words, F.Decode, F.Effect, Timestamps.Moment, Payload;
      if |Words(message)| < 2 { return Err(IndexError); }
      var moment := Timestamps.Moment(Words(message)[0]);
      if moment.Err? { return Err(moment.error); }
      if |Words(message)| < 3 { return Err(IndexError); }
      var kind := Words(message)[2];
      if kind == "Hub" || kind == "10" || kind == "132" { return Err(Rejected); }
      if kind == "3" && |Words(message)| < 5 { return Err(IndexError); }
      if kind != "126" && kind != "127" { return Err(KeyError); }
      var v := Payload(message);
      if v.Err? { return Err(v.error); }
      if kind == "127" {
        OneFrame(db.Rows(), mac, v.value, now);
        var frame := F.ParseFrame(db, mac, v.value, now);
        r := match frame { case Ok(f) => Ok([f]) case Err(e) => Err(e) };
      } else {
        var payload := new F.Buffer(v.value);
        r := F.ParseMultiFrame(db, mac, payload, now);
      }
    }

    /** on_feeder_hub_message: acknowledgements carry the frame's counter and leave the device's own alone. */
    method OnFeederMessage(mac: Mac, message: string, at: Timestamps.Stamp, clock: string, now: string) returns (r: Result<()>)
      modifies this`published, db
      ensures 2 <= |Words(message)| && Words(message)[1] == "1000" ==>
                r == Ok(()) && published == old(published) && db.Rows() == old(db.Rows())
      ensures 2 <= |Words(message)| && Words(message)[1] != "1000" && FramesOf(message).Ok? ==>
                var frames := F.DecodeAll(old(db.Rows()), mac, FramesOf(message).value, now);
                && db.Rows() == F.EffectAll(old(db.Rows()), mac, FramesOf(message).value, now)
                && (frames.Err? ==> r == Err(frames.error) && published == old(published))
                && (frames.Ok? && AcksDue(frames.value, at, clock).Ok? ==>
                      r == Ok(()) && published == old(published) + AcksDue(frames.value, at, clock).value)
      ensures Timestamps.InRange(at) && IsWord(clock) ==>
                forall frames :: Reports(message, frames) && F.DecodeAll(old(db.Rows()), mac, frames, now).Ok? ==>
                  && r == Ok(()) && old(published) <= published
                  && Answers(old(db.Rows()), mac, F.DecodeAll(old(db.Rows()), mac, frames, now).value,
                             published[|old(published)|..], at)
    {
      hide Words, FramesOf, F.DecodeAll, F.EffectAll, AckMessage, AckState, Reports, Answers, IsWord, Timestamps.InRange;
      ReportsAnswered(db.Rows(), mac, message, at, clock, now);
      if |Words(message)| < 2 { return Err(IndexError); }
      if Words(message)[1] == "1000" { return Ok(()); }
      var decoded := DecodeStatus(mac, message, now);
      if decoded.Err? { return Err(decoded.error); }
      var frames, i := decoded.value, 0;
      PrependTwice([], [], AcksDue(frames, at, clock));
      ghost var rows, acks := db.Rows(), [];
      while i < |frames|
        invariant 0 <= i <= |frames|
        invariant published == old(published) + acks
        invariant AcksDue(frames, at, clock) == Prepend(acks, AcksDue(frames[i..], at, clock))
        invariant db.Rows() == rows
      {
        assert frames[i..][0] == frames[i] && frames[i..][1..] == frames[i + 1..];
        if !frames[i].body.Ack? {
          var ack := GenerateFeeder(db, mac, FeederAck, AckState(frames[i].msg, frames[i].counter), at, clock);
          if ack.Err? { return Err(ack.error); }
          published := published + [ack.value];
          PrependTwice(acks, [ack.value], AcksDue(frames[i + 1..], at, clock));
          acks := acks + [ack.value];
        }
        i := i + 1;
      }
      assert acks + [] == acks;
      r := Ok(());
    }

    /** on_catflap_hub_message: each acknowledgement also advances the device's counter. */
    method OnCatFlapMessage(mac: Mac, message: string, at: Timestamps.Stamp, clock: string, now: string) returns (r: Result<()>)
      modifies this`published, db
      ensures 2 <= |Words(message)| && Words(message)[1] == "1000" ==>
                r == Ok(()) && published == old(published) && db.Rows() == old(db.Rows())
      ensures 2 <= |Words(message)| && Words(message)[1] != "1000" && FramesOf(message).Ok? ==>
                var frames := F.DecodeAll(old(db.Rows()), mac, FramesOf(message).value, now);
                var rows := F.EffectAll(old(db.Rows()), mac, FramesOf(message).value, now);
                && (frames.Err? ==> r == Err(frames.error) && published == old(published) && db.Rows() == rows)
                && (frames.Ok? && AcksDue(frames.value, at, clock).Ok? && mac in rows.counters ==>
                      && r == Ok(())
                      && published == old(published) + AcksDue(frames.value, at, clock).value
                      && db.Rows() == rows.SetSend(mac, Advanced(rows.counters[mac].send, CountAcked(frames.value))))
                && (frames.Ok? && AcksDue(frames.value, at, clock).Ok? && mac !in rows.counters ==>
                      && r == (if CountAcked(frames.value) == 0 then Ok(()) else Err(AttributeError))
                      && published == old(published) && db.Rows() == rows)
      ensures Timestamps.InRange(at) && IsWord(clock) && mac in old(db.counters) ==>
                forall frames :: Reports(message, frames) && F.DecodeAll(old(db.Rows()), mac, frames, now).Ok? ==>
                  && r == Ok(()) && old(published) <= published
                  && Answers(old(db.Rows()), mac, F.DecodeAll(old(db.Rows()), mac, frames, now).value,
                             published[|old(published)|..], at)
    {
      hide Words, FramesOf, F.DecodeAll, F.EffectAll, AckMessage, AckState, NextSend, Reports, Answers, IsWord, Timestamps.InRange;
      ReportsAnswered(db.Rows(), mac, message, at, clock, now);
      if |Words(message)| < 2 { return Err(IndexError); }
      if Words(message)[1] == "1000" { return Ok(()); }
      var decoded := DecodeStatus(mac, message, now);
      if decoded.Err? { return Err(decoded.error); }
      r := AcknowledgeFlap(mac, decoded.value, at, clock);
    }

    /** The loop over the decoded frames of a cat flap. */
    method AcknowledgeFlap(mac: Mac, frames: seq<F.Frame>, at: Timestamps.Stamp, clock: string) returns (r: Result<()>)
      modifies this`published, db
      ensures AcksDue(frames, at, clock).Ok? && mac in old(db.counters) ==>
                && r == Ok(())
                && published == old(published) + AcksDue(frames, at, clock).value
                && db.Rows() == old(db.Rows()).SetSend(mac, Advanced(old(db.counters)[mac].send, CountAcked(frames)))
      ensures AcksDue(frames, at, clock).Ok? && mac !in old(db.counters) ==>
                && r == (if CountAcked(frames) == 0 then Ok(()) else Err(AttributeError))
                && published == old(published) && db.Rows() == old(db.Rows())
    {
      hide AckMessage, AckState, NextSend;
      var i := 0;
      PrependTwice([], [], AcksDue(frames, at, clock));
      ghost var rows, acks, k: nat := db.Rows(), [], 0;
      SetSame(rows, mac);
      while i < |frames|
        invariant 0 <= i <= |frames|
        invariant published == old(published) + acks
        invariant AcksDue(frames, at, clock) == Prepend(acks, AcksDue(frames[i..], at, clock))
        invariant CountAcked(frames) == k + CountAcked(frames[i..])
        invariant mac in rows.counters ==>
                    mac in db.counters && db.counters[mac].send == Advanced(rows.counters[mac].send, k)
                    && db.Rows() == rows.SetSend(mac, Advanced(rows.counters[mac].send, k))
        invariant mac !in rows.counters ==> k == 0 && acks == [] && db.Rows() == rows
      {
        assert frames[i..][0] == frames[i] && frames[i..][1..] == frames[i + 1..];
        if !frames[i].body.Ack? {
          var ack, _ := GenerateCatFlap(db, mac, FlapAck, AckState(frames[i].msg, frames[i].counter), (h, m) => at, at, clock);
          if ack.Err? { return Err(ack.error); }
          published := published + [ack.value];
          PrependTwice(acks, [ack.value], AcksDue(frames[i + 1..], at, clock));
          acks := acks + [ack.value];
          if mac in rows.counters {
            SetTwice(rows, mac, Advanced(rows.counters[mac].send, k), NextSend(Advanced(rows.counters[mac].send, k)));
          }
          k := k + 1;
        }
        i := i + 1;
      }
      assert acks + [] == acks;
      r := Ok(());
    }
  }

  lemma SetSame(t: Tables, mac: Mac)
    ensures mac in t.counters ==> t.SetSend(mac, t.counters[mac].send) == t
  {
  }

  lemma SetTwice(t: Tables, mac: Mac, a: nat, b: nat)
    ensures t.SetSend(mac, a).SetSend(mac, b) == t.SetSend(mac, b)
    ensures mac in t.counters ==> mac in t.SetSend(mac, b).counters && t.SetSend(mac, b).counters[mac].send == b
  {
  }

  lemma OneFrame(t: Tables, mac: Mac, v: seq<byte>, now: string)
    ensures F.DecodeAll(t, mac, [v], now) == match F.Decode(t, mac, v) { case Ok(f) => Ok([f]) case Err(e) => Err(e) }
    ensures F.EffectAll(t, mac, [v], now) == F.Effect(t, mac, v, now)
  {
    hide F.Decode, F.Effect;
    assert [v][1..] == [];
    assert F.DecodeAll(F.Effect(t, mac, v, now), mac, [], now) == Ok([]);
    if F.Decode(t, mac, v).Ok? {
      assert [F.Decode(t, mac, v).value] + [] == [F.Decode(t, mac, v).value];
    }
  }

  // ----- what the acknowledgements say

  /** A decoded frame's type is two hex digits and its counter a 16-bit decimal. */
  lemma DecodedHeader(t: Tables, device: Mac, v: seq<byte>) returns (kind: byte, counter: nat)
    ensures counter < 65536
    ensures F.Decode(t, device, v).Ok? ==>
              F.Decode(t, device, v).value.msg == Hex2(kind) && F.Decode(t, device, v).value.counter == Numeral(10, counter)
  {
    hide F.DecodeBody, Numeral, Hex2, Hb, Timestamps.ToText, Pow, FromLittle;
    var s := F.Slice(v, 2, 4);
    counter := FromLittle(s);
    LittleBytes(s);
    PowersOfSixteen();
    assert |s| <= 2;
    kind := if v == [] then 0 else v[0];
    Hex2Value(kind);
  }

  /** The acknowledgements due are one per frame that is no Ack, in order, each reading back as Ack of that frame. */
  ghost predicate Answers(t: Tables, device: Mac, frames: seq<F.Frame>, acks: seq<string>, at: Timestamps.Stamp) {
    if frames == [] then acks == []
    else if frames[0].body.Ack? then Answers(t, device, frames[1..], acks, at)
    else
      && acks != []
      && DecodeMessage(t, device, acks[0])
         == Ok(F.Frame("00", frames[0].counter, Timestamps.Text(at), F.Ack(frames[0].msg)))
      && Answers(t, device, frames[1..], acks[1..], at)
  }

  lemma {:induction false} AcksAnswer(t: Tables, u: Tables, device: Mac, vs: seq<seq<byte>>, at: Timestamps.Stamp, clock: string, now: string)
    requires Timestamps.InRange(at) && IsWord(clock) && F.DecodeAll(u, device, vs, now).Ok?
    ensures AcksDue(F.DecodeAll(u, device, vs, now).value, at, clock).Ok?
    ensures Answers(t, device, F.DecodeAll(u, device, vs, now).value, AcksDue(F.DecodeAll(u, device, vs, now).value, at, clock).value, at)
    decreases |vs|
  {
    hide F.Decode, F.Effect, AckMessage, AckState, DecodeMessage, Timestamps.Text, Timestamps.InRange, IsWord, Hex2, Numeral;
    if vs != [] {
      var first := F.Decode(u, device, vs[0]).value;
      var u' := F.Effect(u, device, vs[0], now);
      var frames := F.DecodeAll(u, device, vs, now).value;
      var rest := F.DecodeAll(u', device, vs[1..], now).value;
      assert frames == [first] + rest && frames[1..] == rest;
      AcksAnswer(t, u', device, vs[1..], at, clock, now);
      if !first.body.Ack? {
        var kind, counter := DecodedHeader(u, device, vs[0]);
        AckRoundTrip(t, device, kind, counter, at, clock);
        var ack := AckMessage(AckState(first.msg, first.counter), at, clock).value;
        var acks := AcksDue(rest, at, clock).value;
        assert AcksDue(frames, at, clock) == Ok([ack] + acks);
        assert ([ack] + acks)[1..] == acks;
      }
    }
  }

  lemma MessageWords(clock: string, t: Template, env: map<string, string>)
    requires IsWord(clock) && t != Done
    ensures |Words(Message(clock, t, env))| >= 3
    ensures Words(Message(clock, t, env))[0] == clock && Words(Message(clock, t, env))[1] == "1000" && Words(Message(clock, t, env))[2] == "127"
  {
    hide Tail, NoSpaces, Words, Free;
    TailStarts(t, env);
    var rest := Tail(t, env)[1..];
    LiteralWords();
    WordsCons(clock, "1000 " + ("127 " + rest));
    WordsCons("1000", "127 " + rest);
    WordsCons("127", rest);
    MessageText(clock, Tail(t, env));
    assert clock + " " + ("1000 " + ("127 " + rest)) == Message(clock, t, env);
    assert "1000" + " " + ("127 " + rest) == "1000 " + ("127 " + rest);
    assert "127" + " " + rest == "127 " + rest;
  }

  /** A message that ends the exchange: reflected, it is a command; decoded, it is an Ack, which asks for nothing. */
  ghost predicate Settles(t: Tables, device: Mac, ack: string, at: Timestamps.Stamp, clock: string, now: string) {
    && 2 <= |Words(ack)| && Words(ack)[1] == "1000"
    && FramesOf(ack).Ok? && |FramesOf(ack).value| == 1
    && var frames := F.DecodeAll(t, device, FramesOf(ack).value, now);
    && frames.Ok? && |frames.value| == 1 && frames.value[0].body.Ack?
    && AcksDue(frames.value, at, clock) == Ok([])
  }

  lemma AckSettles(t: Tables, device: Mac, kind: byte, counter: nat, at: Timestamps.Stamp, clock: string, now: string)
    requires counter < 65536 && Timestamps.InRange(at) && IsWord(clock) && Timestamps.Moment(clock).Ok?
    ensures AckMessage(AckState(Hex2(kind), Numeral(10, counter)), at, clock).Ok?
    ensures Settles(t, device, AckMessage(AckState(Hex2(kind), Numeral(10, counter)), at, clock).value, at, clock, now)
  {
    hide F.Decode, F.Effect, AckSlots, AckState, Message, Payload, Timestamps.Text, Timestamps.InRange, Timestamps.Moment, IsWord, Hex2, Numeral,
      Words, AckTemplate, FramesOf;
    AckRoundTrip(t, device, kind, counter, at, clock);
    var slots := AckSlots(AckState(Hex2(kind), Numeral(10, counter)), at);
    NotDone();
    MessageWords(clock, AckTemplate(), slots.value);
    var ack := Message(clock, AckTemplate(), slots.value);
    OneFrameMessage(ack);
    OneFrame(t, device, Payload(ack).value, now);
    var frame := F.Decode(t, device, Payload(ack).value).value;
    assert [frame][1..] == [];
    assert AckMessage(AckState(Hex2(kind), Numeral(10, counter)), at, clock) == Ok(ack);
    assert F.Decode(t, device, Payload(ack).value) == DecodeMessage(t, device, ack);
    assert F.DecodeAll(t, device, FramesOf(ack).value, now) == Ok([frame]) && frame.body.Ack?;
    assert AcksDue([frame], at, clock) == AcksDue([], at, clock);
    assert AcksDue([], at, clock) == Ok([]);
  }

  lemma OneFrameMessage(message: string)
    requires 3 <= |Words(message)| && Words(message)[2] == "127" && Timestamps.Moment(Words(message)[0]).Ok? && Payload(message).Ok?
    ensures FramesOf(message) == Ok([Payload(message).value])
  {
    hide Words, Payload, Timestamps.Moment;
    assert "127"[2] == '7' && "132"[2] == '2' && "Hub"[0] == 'H' && |"10"| == 2 && |"3"| == 1;
  }

  lemma NotDone()
    ensures AckTemplate() != Done
  {
  }

  /** Every acknowledgement that is published for a payload ends the exchange, whatever the tables are by then. */
  lemma {:induction false} ExchangesEnd(t: Tables, u: Tables, device: Mac, vs: seq<seq<byte>>, ack: string,
                                        at: Timestamps.Stamp, clock: string, now: string)
    requires Timestamps.InRange(at) && IsWord(clock) && Timestamps.Moment(clock).Ok? && F.DecodeAll(u, device, vs, now).Ok?
    ensures AcksDue(F.DecodeAll(u, device, vs, now).value, at, clock).Ok?
    ensures ack in AcksDue(F.DecodeAll(u, device, vs, now).value, at, clock).value ==> Settles(t, device, ack, at, clock, now)
    decreases |vs|
  {
    hide F.Decode, F.Effect, AckMessage, AckState, Settles, Timestamps.InRange, Timestamps.Moment, IsWord, Hex2, Numeral;
    if vs != [] {
      var first := F.Decode(u, device, vs[0]).value;
      var u' := F.Effect(u, device, vs[0], now);
      var rest := F.DecodeAll(u', device, vs[1..], now).value;
      assert ([first] + rest)[1..] == rest;
      ExchangesEnd(t, u', device, vs[1..], ack, at, clock, now);
      if !first.body.Ack? {
        var kind, counter := DecodedHeader(u, device, vs[0]);
        AckSettles(t, device, kind, counter, at, clock, now);
      }
    }
  }

  /** As many acknowledgements as frames that are none. */
  lemma {:induction false} AcksCounted(frames: seq<F.Frame>, at: Timestamps.Stamp, clock: string)
    requires AcksDue(frames, at, clock).Ok?
    ensures |AcksDue(frames, at, clock).value| == CountAcked(frames)
  {
    hide AckMessage, AckState;
    if frames != [] {
      AcksCounted(frames[1..], at, clock);
    }
  }

  // ----- which frames a message carries

  /** A status message whose words spell one frame, or framed frames of which the last has two bytes or more. */
  ghost predicate Carries(message: string, frames: seq<seq<byte>>) {
    var words := Words(message);
    && 3 <= |words| && Timestamps.Moment(words[0]).Ok?
    && match words[2]
       case "127" => |frames| == 1 && Concat(words[3..]) == ToHex(frames[0])
       case "126" =>
         && (forall f :: f in frames ==> |f| < 256) && (frames == [] || 2 <= |frames[|frames| - 1]|)
         && Concat(words[3..]) == ToHex(F.Framed(frames))
       case _ => false
  }

  /** Such a message, when it is no reflected command. */
  ghost predicate Reports(message: string, frames: seq<seq<byte>>) {
    Carries(message, frames) && Words(message)[1] != "1000"
  }

  /** The frames of a message are exactly those it was written with. */
  lemma FramesCarried(message: string, frames: seq<seq<byte>>)
    requires Carries(message, frames)
    ensures FramesOf(message) == Ok(frames)
  {
    hide Words, Timestamps.Moment, ToHex, Concat, FromHex;
    KindsDiffer();
    if Words(message)[2] == "127" {
      HexRoundTrip(frames[0]);
      assert frames == [frames[0]];
    } else {
      HexRoundTrip(F.Framed(frames));
      F.UnframingInverts(frames);
    }
  }

  lemma KindsDiffer()
    ensures "126" != "127"
    ensures "126" !in {"Hub", "10", "132", "3"} && "127" !in {"Hub", "10", "132", "3"}
  {
    assert "126"[2] == '6' && "127"[2] == '7' && "132"[1] == '3' && "126"[1] == '2' && "127"[1] == '2';
    assert "Hub"[0] == 'H' && |"10"| == 2 && |"3"| == 1;
  }

  /** A status message as the hub sends it. */
  function StatusText(clock: string, sequence: string, kind: string, bytes: seq<byte>): string {
    clock + " " + sequence + " " + kind + " " + Spaced(bytes)
  }

  /** Every frame, and every list of frames behind length bytes, has such a message. */
  lemma StatusCarries(clock: string, sequence: string, frames: seq<seq<byte>>)
    requires IsWord(clock) && Timestamps.Moment(clock).Ok? && IsWord(sequence)
    requires forall f :: f in frames ==> |f| < 256
    ensures |frames| == 1 ==> Carries(StatusText(clock, sequence, "127", frames[0]), frames)
    ensures frames == [] || 2 <= |frames[|frames| - 1]| ==> Carries(StatusText(clock, sequence, "126", F.Framed(frames)), frames)
  {
    hide Words, Timestamps.Moment, ToHex, Concat, IsWord, F.Framed, Spaced;
    KindsDiffer();
    KindWords();
    StatusWords(clock, sequence, "126", F.Framed(frames));
    if |frames| == 1 {
      StatusWords(clock, sequence, "127", frames[0]);
    }
  }

  lemma KindWords()
    ensures IsWord("126") && IsWord("127")
  {
  }

  lemma StatusWords(clock: string, sequence: string, kind: string, bytes: seq<byte>)
    requires IsWord(clock) && IsWord(sequence) && IsWord(kind)
    ensures var words := Words(StatusText(clock, sequence, kind, bytes));
            3 <= |words| && words[..3] == [clock, sequence, kind] && Concat(words[3..]) == ToHex(bytes)
  {
    hide Words, ToHex, Concat, Spaced, Free, NoSpaces;
    var text := Spaced(bytes);
    WordsCons(kind, text);
    WordsCons(sequence, kind + " " + text);
    WordsCons(clock, sequence + " " + (kind + " " + text));
    assert StatusText(clock, sequence, kind, bytes) == clock + " " + (sequence + " " + (kind + " " + text));
    var words := Words(StatusText(clock, sequence, kind, bytes));
    assert words == [clock, sequence, kind] + Words(text) && words[3..] == Words(text);
    ConcatWords(text);
    SpacedHex(bytes);
  }

  /** Exactly these messages have frames. */
  lemma StatusAccepted(message: string)
    ensures FramesOf(message).Ok?
       <==> && 3 <= |Words(message)| && Timestamps.Moment(Words(message)[0]).Ok?
            && Words(message)[2] in {"126", "127"} && FromHex(Concat(Words(message)[3..])).Ok?
  {
    hide Words, Timestamps.Moment, Concat, FromHex;
    KindsDiffer();
  }

  /** And for whatever bytes follow a 126, the frames are consecutive pieces of them, with at most two bytes left over. */
  lemma FramesConsecutive(message: string) returns (lengths: seq<byte>, left: seq<byte>)
    requires 3 <= |Words(message)| && Words(message)[2] == "126" && FramesOf(message).Ok?
    ensures F.Measured(lengths, FramesOf(message).value, left) && |left| <= 2
    ensures FromHex(Concat(Words(message)[3..])) == Ok(F.Marked(lengths, FramesOf(message).value) + left)
  {
    hide Words, Timestamps.Moment, Concat, FromHex, F.Marked, F.Measured, F.Unframed;
    KindsDiffer();
    var payload := FromHex(Concat(Words(message)[3..])).value;
    lengths := F.UnframingConsumes(payload);
    left := F.Unframed(payload).1;
    F.MeasuredLengths(lengths, F.Unframed(payload).0, left);
  }

  /** What is due for the frames a message carries answers exactly those frames. */
  lemma ReportsAnswered(t: Tables, mac: Mac, message: string, at: Timestamps.Stamp, clock: string, now: string)
    ensures Timestamps.InRange(at) && IsWord(clock) ==>
              forall frames :: Reports(message, frames) && F.DecodeAll(t, mac, frames, now).Ok? ==>
                && 2 <= |Words(message)| && Words(message)[1] != "1000" && FramesOf(message) == Ok(frames)
                && var decoded := F.DecodeAll(t, mac, frames, now).value;
                && AcksDue(decoded, at, clock).Ok? && Answers(t, mac, decoded, AcksDue(decoded, at, clock).value, at)
                && (mac in t.counters ==> mac in F.EffectAll(t, mac, frames, now).counters)
  {
    hide Words, FramesOf, F.DecodeAll, F.EffectAll, AcksDue, Answers, IsWord, Timestamps.InRange;
    if Timestamps.InRange(at) && IsWord(clock) {
      forall frames | Reports(message, frames) && F.DecodeAll(t, mac, frames, now).Ok?
        ensures && 2 <= |Words(message)| && Words(message)[1] != "1000" && FramesOf(message) == Ok(frames)
                && var decoded := F.DecodeAll(t, mac, frames, now).value;
                && AcksDue(decoded, at, clock).Ok? && Answers(t, mac, decoded, AcksDue(decoded, at, clock).value, at)
                && (mac in t.counters ==> mac in F.EffectAll(t, mac, frames, now).counters)
      {
        FramesCarried(message, frames);
        AcksAnswer(t, t, mac, frames, at, clock, now);
        F.CountersStay(t, mac, frames, now);
      }
    }
  }
}
