/**
 The radio hub: handle_rx answers the frames of the devices and keeps, for each device,
 whether it is online and its sequence number.
 */
module Radio {
  import opened Bytes
  import opened MacFrames

  datatype Device = Device(mac: string, online: bool, sequence: byte)

  const TOPIC := "pethublocal/local"

  /** An upper-case hex digit. */
  function Digit(d: nat): char
    requires d < 16
  {
    if d < 10 then '0' + d as char else 'A' + (d - 10) as char
  }

  /** mac2str, and tohex byte by byte. */
  function UpperHex(address: seq<byte>): string {
    if address == [] then "" else [Digit(address[0] / 16), Digit(address[0] % 16)] + UpperHex(address[1..])
  }

  lemma {:induction false} UpperHexInjective(a: seq<byte>, b: seq<byte>)
    requires |a| == |b| && UpperHex(a) == UpperHex(b)
    ensures a == b
  {
    if a != [] {
      var s, t := UpperHex(a), UpperHex(b);
      assert s[0] == t[0] && s[1] == t[1] && s[2..] == UpperHex(a[1..]) && t[2..] == UpperHex(b[1..]);
      UpperHexInjective(a[1..], b[1..]);
      assert a == [a[0]] + a[1..] && b == [b[0]] + b[1..];
    }
  }

  /** Two upper-case digits a byte. */
  lemma {:induction false} UpperHexDigits(a: seq<byte>, i: nat)
    requires i < |a|
    ensures |UpperHex(a)| == 2 * |a|
    ensures UpperHex(a)[2 * i] == "0123456789ABCDEF"[a[i] / 16] && UpperHex(a)[2 * i + 1] == "0123456789ABCDEF"[a[i] % 16]
  {
    UpperHexLength(a);
    if i != 0 {
      UpperHexDigits(a[1..], i - 1);
      assert UpperHex(a)[2..] == UpperHex(a[1..]);
    }
  }

  lemma {:induction false} UpperHexLength(a: seq<byte>)
    ensures |UpperHex(a)| == 2 * |a|
  {
    if a != [] {
      UpperHexLength(a[1..]);
    }
  }

  // ----- the device table

  function StateOf(ds: seq<Device>, mac: string): bool {
    if ds == [] then false
    else if ds[|ds| - 1].mac == mac then ds[|ds| - 1].online
    else StateOf(ds[..|ds| - 1], mac)
  }

  function SequenceOf(ds: seq<Device>, mac: string): byte {
    if ds == [] then 0
    else if ds[|ds| - 1].mac == mac then ds[|ds| - 1].sequence
    else SequenceOf(ds[..|ds| - 1], mac)
  }

  predicate Known(ds: seq<Device>, mac: string) {
    exists i :: 0 <= i < |ds| && ds[i].mac == mac
  }

  function SetOnline(d: Device, mac: string, online: bool): Device {
    if d.mac == mac then d.(online := online) else d
  }

  function SetSequence(d: Device, mac: string, sequence: byte): Device {
    if d.mac == mac then d.(sequence := sequence) else d
  }

  function Bump(d: Device, mac: string): Device {
    if d.mac == mac then d.(sequence := ((d.sequence as int) + 1) % 256) else d
  }

  function WithState(ds: seq<Device>, mac: string, online: bool): (r: seq<Device>)
    ensures |r| == |ds| && forall i :: 0 <= i < |ds| ==> r[i] == SetOnline(ds[i], mac, online)
  {
    seq(|ds|, i requires 0 <= i < |ds| => SetOnline(ds[i], mac, online))
  }

  function WithSequence(ds: seq<Device>, mac: string, sequence: byte): (r: seq<Device>)
    ensures |r| == |ds| && forall i :: 0 <= i < |ds| ==> r[i] == SetSequence(ds[i], mac, sequence)
  {
    seq(|ds|, i requires 0 <= i < |ds| => SetSequence(ds[i], mac, sequence))
  }

  function Bumped(ds: seq<Device>, mac: string): (r: seq<Device>)
    ensures |r| == |ds| && forall i :: 0 <= i < |ds| ==> r[i] == Bump(ds[i], mac)
  {
    seq(|ds|, i requires 0 <= i < |ds| => Bump(ds[i], mac))
  }

  // ----- one frame

  /** A received frame, and what the stack held where its payload is copied. */
  datatype Frame = Frame(src: seq<byte>, data: seq<byte>, leftover: seq<byte>) {
    predicate Valid() {
      |src| == 8 && |data| <= DATA_SIZE && |leftover| == 128
    }

    /** rxbuffer */
    function Rx(): (r: seq<byte>)
      requires Valid()
      ensures |r| == 128
    {
      data + leftover[|data|..]
    }

    function Mac(): string {
      UpperHex(src)
    }
  }

  /** An answer, none, or one sent from a buffer that was never filled. */
  datatype Reply = Answer(tx: TxInfo) | NoReply | Unfilled

  datatype Hub = Hub(devices: seq<Device>, txSeqNo: byte)

  datatype Outcome = Outcome(hub: Hub, reply: Reply, published: bool)

  /** The control fields set for an answer: source mode 3, destination mode, type, compression, acknowledgement. */
  function Control(long: bool, kind: nat, acknowledge: bool): word
    requires kind < 8
  {
    0xc000 + (if long then 0x0c40 else 0) + (if acknowledge then 0x20 else 0) + kind
  }

  function BeaconAnswer(rx1: byte): seq<byte> {
    [0xff, 0x45, 0x00, 0x00, 0x7e, if rx1 == 0x0f then 0x01 else 0x02, 0x00]
  }

  function More(rx2: byte, code: byte): byte {
    if rx2 == 0x01 then 0x09 else code
  }

  /** handle_rx on values. */
  function Step(h: Hub, f: Frame): Outcome
    requires f.Valid()
  {
    var rx, mac := f.Rx(), f.Mac();
    var ds, tx := h.devices, h.txSeqNo;
    var next: byte := ((tx as int) + 1) % 256;
    if rx[0] == 0x07 then
      Outcome(Hub(WithState(ds, mac, false), tx), Answer(TxInfo(Control(false, 0, false), BeaconAnswer(rx[1]))), false)
    else if !StateOf(ds, mac) && rx[0] == 0x01 then
      Outcome(Hub(WithState(ds, mac, false), tx), Answer(TxInfo(Control(true, 3, true), [0x02, 0xfe, 0xff, 0x00])), false)
    else if rx[0] == 0x13 then
      Outcome(Hub(WithSequence(WithState(ds, mac, true), mac, rx[1]), next),
              Answer(TxInfo(Control(true, 1, true), [0x14, tx, rx[1], 0x00])), false)
    else if rx[0] == 0x08 then
      Outcome(Hub(Bumped(WithState(ds, mac, true), mac), next),
              Answer(TxInfo(Control(true, 1, false), [More(rx[2], 0x0a), tx, SequenceOf(ds, mac)])), false)
    else if StateOf(ds, mac) && rx[0] == 0x01 then
      Outcome(Hub(WithSequence(WithState(ds, mac, true), mac, rx[1]), next),
              Answer(TxInfo(Control(true, 1, false), [More(rx[2], 0x02), tx, rx[1], 0x00])), true)
    else if rx[0] == 0x02 then
      Outcome(Hub(Bumped(WithState(ds, mac, true), mac), next),
              Answer(TxInfo(Control(true, 1, false), [More(rx[2], 0x0a), tx, SequenceOf(ds, mac), 0x00])), true)
    else if rx[0] == 0x0a then
      Outcome(Hub(WithSequence(ds, mac, rx[1]), tx), NoReply, false)
    else
      Outcome(h, Unfilled, true)
  }

  // ----- the program

  class RadioHub {
    const devices: array<Device>
    var txPacketSeqNo: byte
    var published: seq<(string, string)>

    constructor (macs: seq<string>)
      ensures fresh(devices) && devices.Length == |macs| && txPacketSeqNo == 0 && published == []
      ensures forall i :: 0 <= i < |macs| ==> devices[i] == Device(macs[i], false, 0)
    {
      devices := new Device[|macs|](i requires 0 <= i < |macs| => Device(macs[i], false, 0));
      txPacketSeqNo, published := 0, [];
    }

    method GetDeviceState(mac: string) returns (result: bool)
      ensures result == StateOf(devices[..], mac)
    {
      result := false;
      for q := 0 to devices.Length
        invariant result == StateOf(devices[..q], mac)
      {
        if devices[q].mac == mac {
          result := devices[q].online;
        }
        assert devices[..q + 1][..q] == devices[..q];
      }
      assert devices[..devices.Length] == devices[..];
    }

    method SetDeviceState(mac: string, state: bool)
      modifies devices
      ensures devices[..] == WithState(old(devices[..]), mac, state)
    {
      for q := 0 to devices.Length
        invariant forall i :: 0 <= i < q ==> devices[i] == SetOnline(old(devices[i]), mac, state)
        invariant forall i :: q <= i < devices.Length ==> devices[i] == old(devices[i])
      {
        if devices[q].mac == mac {
          devices[q] := devices[q].(online := state);
        }
      }
    }

    /** Returns the number and counts up. */
    method GetDeviceSeq(mac: string) returns (result: byte)
      modifies devices
      ensures result == SequenceOf(old(devices[..]), mac) && devices[..] == Bumped(old(devices[..]), mac)
    {
      result := 0;
      for q := 0 to devices.Length
        invariant result == SequenceOf(old(devices[..])[..q], mac)
        invariant forall i :: 0 <= i < q ==> devices[i] == Bump(old(devices[i]), mac)
        invariant forall i :: q <= i < devices.Length ==> devices[i] == old(devices[i])
      {
        if devices[q].mac == mac {
          result := devices[q].sequence;
          devices[q] := devices[q].(sequence := ((devices[q].sequence as int) + 1) % 256);
        }
        assert old(devices[..])[..q + 1][..q] == old(devices[..])[..q];
      }
      assert old(devices[..])[..devices.Length] == old(devices[..]);
    }

    method SetDeviceSeq(mac: string, sequence: byte)
      modifies devices
      ensures devices[..] == WithSequence(old(devices[..]), mac, sequence)
    {
      for q := 0 to devices.Length
        invariant forall i :: 0 <= i < q ==> devices[i] == SetSequence(old(devices[i]), mac, sequence)
        invariant forall i :: q <= i < devices.Length ==> devices[i] == old(devices[i])
      {
        if devices[q].mac == mac {
          devices[q] := devices[q].(sequence := sequence);
        }
      }
    }

    /** _TXPacketSeqNo++ */
    method NextPacketSeq() returns (was: byte)
      modifies this`txPacketSeqNo
      ensures was == old(txPacketSeqNo) && txPacketSeqNo == ((was as int) + 1) % 256
    {
      was := txPacketSeqNo;
      txPacketSeqNo := ((was as int) + 1) % 256;
    }

    method CopyPayload(f: Frame) returns (rxbuffer: array<byte>)
      requires f.Valid()
      ensures fresh(rxbuffer) && rxbuffer[..] == f.Rx()
    {
      rxbuffer := new byte[128](i requires 0 <= i < 128 => f.leftover[i]);
      for i := 0 to |f.data|
        invariant rxbuffer[..] == f.data[..i] + f.leftover[i..]
      {
        rxbuffer[i] := f.data[i];
      }
      assert f.data[..|f.data|] == f.data;
    }

    method HandleRx(f: Frame) returns (reply: Reply)
      requires f.Valid()
      modifies this`txPacketSeqNo, this`published, devices
      ensures var o := Step(Hub(old(devices[..]), old(txPacketSeqNo)), f);
              && reply == o.reply && Hub(devices[..], txPacketSeqNo) == o.hub
              && published == old(published) + (if o.published then [(TOPIC + "/" + f.Mac(), UpperHex(f.data))] else [])
    {
      hide StateOf, SequenceOf, SetOnline, SetSequence, Bump, WithState, WithSequence, Bumped, UpperHex;
      StateKeepsSequence(devices[..], f.Mac(), true);
      var mac := f.Mac();
      var devicestate := GetDeviceState(mac);
      var rxbuffer := CopyPayload(f);
      var rx0, rx1, rx2 := rxbuffer[0], rxbuffer[1], rxbuffer[2];
      assert rx0 == f.Rx()[0] && rx1 == f.Rx()[1] && rx2 == f.Rx()[2];
      var sendmqtt := false;
      reply := NoReply;
      if rx0 == 0x07 {
        SetDeviceState(mac, false);
        var data: seq<byte> := [0xff, 0x45, 0x00, 0x00, 0x7e, 0x02, 0x00];
        if rx1 == 0x0f {
          data := data[5 := 0x01];
        }
        if rx1 == 0x2f {
          data := data[5 := 0x02];
        }
        reply := Answer(TxInfo(Control(false, 0, false), data));
      } else if !devicestate && rx0 == 0x01 {
        SetDeviceState(mac, false);
        reply := Answer(TxInfo(Control(true, 3, true), [0x02, 0xfe, 0xff, 0x00]));
      } else if rx0 == 0x13 {
        SetDeviceState(mac, true);
        SetDeviceSeq(mac, rx1);
        var tx := NextPacketSeq();
        reply := Answer(TxInfo(Control(true, 1, true), [0x14, tx, rx1, 0x00]));
      } else if rx0 == 0x08 {
        SetDeviceState(mac, true);
        var tx := NextPacketSeq();
        var sequence := GetDeviceSeq(mac);
        var data: seq<byte> := [0x0a, tx, sequence];
        if rx2 == 0x01 {
          data := data[0 := 0x09];
        }
        reply := Answer(TxInfo(Control(true, 1, false), data));
      } else if devicestate && rx0 == 0x01 {
        SetDeviceState(mac, true);
        SetDeviceSeq(mac, rx1);
        var tx := NextPacketSeq();
        var data: seq<byte> := [0x02, tx, rx1, 0x00];
        if rx2 == 0x01 {
          data := data[0 := 0x09];
        }
        reply := Answer(TxInfo(Control(true, 1, false), data));
        sendmqtt := true;
      } else if rx0 == 0x02 {
        SetDeviceState(mac, true);
        var tx := NextPacketSeq();
        var sequence := GetDeviceSeq(mac);
        var data: seq<byte> := [0x0a, tx, sequence, 0x00];
        if rx2 == 0x01 {
          data := data[0 := 0x09];
        }
        reply := Answer(TxInfo(Control(true, 1, false), data));
        sendmqtt := true;
      } else if rx0 == 0x0a {
        SetDeviceSeq(mac, rx1);
      } else {
        reply := Unfilled;
        sendmqtt := true;
      }
      if sendmqtt {
        published := published + [(TOPIC + "/" + mac, UpperHex(f.data))];
      }
    }

    /** A run of the hub from start-up: what it keeps, answers and publishes. */
    method HandleAll(fs: seq<Frame>, ghost macs: seq<string>) returns (replies: seq<Reply>)
      requires AllValid(fs) && Hub(devices[..], txPacketSeqNo) == Hub(Initial(macs), 0) && published == []
      modifies this`txPacketSeqNo, this`published, devices
      ensures Hub(devices[..], txPacketSeqNo) == Run(macs, fs)
      ensures published == Publications(macs, fs)
      ensures |replies| == |fs|
      ensures forall i :: 0 <= i < |fs| ==> Answers(fs[i], Online(macs, fs[..i], fs[i].Mac()), replies[i])
    {
      hide Step, Online, Answers, Frame.Mac, Initial;
      replies := [];
      assert fs[..0] == [];
      for n := 0 to |fs|
        invariant Hub(devices[..], txPacketSeqNo) == Run(macs, fs[..n]) && published == Publications(macs, fs[..n])
        invariant |replies| == n
        invariant forall i :: 0 <= i < n ==> Answers(fs[i], Online(macs, fs[..i], fs[i].Mac()), replies[i])
      {
        AnswerByKind(macs, fs[..n], fs[n]);
        PublishedByKind(macs, fs[..n], fs[n]);
        var reply := HandleRx(fs[n]);
        replies := replies + [reply];
        assert fs[..n + 1][..n] == fs[..n];
      }
      assert fs[..|fs|] == fs;
    }
  }

  // ----- reading the table back

  lemma {:induction false} StateKeepsSequence(ds: seq<Device>, mac: string, online: bool)
    ensures forall m :: SequenceOf(WithState(ds, mac, online), m) == SequenceOf(ds, m)
  {
    if ds != [] {
      var n := |ds| - 1;
      StateKeepsSequence(ds[..n], mac, online);
      assert WithState(ds, mac, online)[..n] == WithState(ds[..n], mac, online);
    }
  }

  /** Setting the state of a MAC address is seen under that address, if it is known, and nowhere else. */
  lemma {:induction false} StateAfterSet(ds: seq<Device>, mac: string, online: bool, m: string)
    ensures Known(WithState(ds, mac, online), m) <==> Known(ds, m)
    ensures StateOf(WithState(ds, mac, online), m) == if m == mac then Known(ds, m) && online else StateOf(ds, m)
  {
    var es := WithState(ds, mac, online);
    if ds != [] {
      var n := |ds| - 1;
      StateAfterSet(ds[..n], mac, online, m);
      assert es[..n] == WithState(ds[..n], mac, online);
      KnownSnoc(ds, m);
      KnownSnoc(es, m);
    }
  }

  lemma KnownSnoc(ds: seq<Device>, m: string)
    requires ds != []
    ensures Known(ds, m) <==> ds[|ds| - 1].mac == m || Known(ds[..|ds| - 1], m)
  {
    var front := ds[..|ds| - 1];
    if Known(ds, m) && ds[|ds| - 1].mac != m {
      var i :| 0 <= i < |ds| && ds[i].mac == m;
      assert front[i].mac == m;
    }
    if Known(front, m) {
      var i :| 0 <= i < |front| && front[i].mac == m;
      assert ds[i].mac == m;
    }
  }

  lemma {:induction false} SequenceAfterSet(ds: seq<Device>, mac: string, sequence: byte, m: string)
    ensures Known(WithSequence(ds, mac, sequence), m) <==> Known(ds, m)
    ensures StateOf(WithSequence(ds, mac, sequence), m) == StateOf(ds, m)
    ensures SequenceOf(WithSequence(ds, mac, sequence), m)
         == if m != mac then SequenceOf(ds, m) else if Known(ds, m) then sequence else 0
  {
    var es := WithSequence(ds, mac, sequence);
    if ds != [] {
      var n := |ds| - 1;
      SequenceAfterSet(ds[..n], mac, sequence, m);
      assert es[..n] == WithSequence(ds[..n], mac, sequence);
      KnownSnoc(ds, m);
      KnownSnoc(es, m);
    }
  }

  lemma {:induction false} SequenceAfterBump(ds: seq<Device>, mac: string, m: string)
    ensures Known(Bumped(ds, mac), m) <==> Known(ds, m)
    ensures StateOf(Bumped(ds, mac), m) == StateOf(ds, m)
    ensures SequenceOf(Bumped(ds, mac), m)
         == if m == mac && Known(ds, m) then ((SequenceOf(ds, m) as int) + 1) % 256 else SequenceOf(ds, m)
  {
    var es := Bumped(ds, mac);
    if ds != [] {
      var n := |ds| - 1;
      SequenceAfterBump(ds[..n], mac, m);
      assert es[..n] == Bumped(ds[..n], mac);
      KnownSnoc(ds, m);
      KnownSnoc(es, m);
    }
  }

  lemma {:induction false} UnknownReads(ds: seq<Device>, m: string)
    requires !Known(ds, m)
    ensures !StateOf(ds, m) && SequenceOf(ds, m) == 0
  {
    if ds != [] {
      KnownSnoc(ds, m);
      UnknownReads(ds[..|ds| - 1], m);
    }
  }

  // ----- whole runs

  predicate AllValid(fs: seq<Frame>) {
    forall i :: 0 <= i < |fs| ==> fs[i].Valid()
  }

  function Initial(macs: seq<string>): (ds: seq<Device>)
    ensures |ds| == |macs| && forall i :: 0 <= i < |macs| ==> ds[i] == Device(macs[i], false, 0)
  {
    seq(|macs|, i requires 0 <= i < |macs| => Device(macs[i], false, 0))
  }

  /** The hub after some frames, from start-up. */
  function Run(macs: seq<string>, fs: seq<Frame>): Hub
    requires AllValid(fs)
  {
    if fs == [] then Hub(Initial(macs), 0)
    else Step(Run(macs, fs[..|fs| - 1]), fs[|fs| - 1]).hub
  }

  /** The first byte of a frame. */
  function Kind(f: Frame): byte
    requires f.Valid()
  {
    f.Rx()[0]
  }

  /** The last frame from this address among 07, 08, 13 and 02 exists and is not 07. */
  predicate CameOnline(fs: seq<Frame>, mac: string)
    requires AllValid(fs)
  {
    if fs == [] then false
    else
      var f := fs[|fs| - 1];
      if f.Mac() == mac && Kind(f) in {0x07, 0x08, 0x13, 0x02} then Kind(f) != 0x07
      else CameOnline(fs[..|fs| - 1], mac)
  }

  predicate Online(macs: seq<string>, fs: seq<Frame>, mac: string)
    requires AllValid(fs)
  {
    mac in macs && CameOnline(fs, mac)
  }

  lemma {:induction false} OfflineReads(ds: seq<Device>, mac: string)
    requires forall i :: 0 <= i < |ds| ==> !ds[i].online && ds[i].sequence == 0
    ensures !StateOf(ds, mac) && SequenceOf(ds, mac) == 0
  {
    if ds != [] {
      OfflineReads(ds[..|ds| - 1], mac);
    }
  }

  lemma InitialReads(macs: seq<string>, mac: string)
    ensures !StateOf(Initial(macs), mac) && SequenceOf(Initial(macs), mac) == 0
    ensures Known(Initial(macs), mac) <==> mac in macs
  {
    OfflineReads(Initial(macs), mac);
    if mac in macs {
      var i :| 0 <= i < |macs| && macs[i] == mac;
      assert Initial(macs)[i].mac == mac;
    }
  }

  /** One step, as each address sees it. */
  lemma StepReads(h: Hub, f: Frame, m: string)
    requires f.Valid()
    ensures Known(Step(h, f).hub.devices, m) <==> Known(h.devices, m)
    ensures StateOf(Step(h, f).hub.devices, m)
         == if m == f.Mac() && Kind(f) in {0x07, 0x08, 0x13, 0x02} then Known(h.devices, m) && Kind(f) != 0x07
            else StateOf(h.devices, m)
    ensures SequenceOf(Step(h, f).hub.devices, m)
         == if m != f.Mac() || !Known(h.devices, m) then SequenceOf(h.devices, m)
            else if Kind(f) in {0x13, 0x0a} || (Kind(f) == 0x01 && StateOf(h.devices, m)) then f.Rx()[1]
            else if Kind(f) in {0x08, 0x02} then ((SequenceOf(h.devices, m) as int) + 1) % 256
            else SequenceOf(h.devices, m)
  {
    hide StateOf, SequenceOf, Known, WithState, WithSequence, Bumped, SetOnline, SetSequence, Bump, UpperHex;
    var ds, mac := h.devices, f.Mac();
    var off, on := WithState(ds, mac, false), WithState(ds, mac, true);
    StateAfterSet(ds, mac, false, m);
    StateAfterSet(ds, mac, true, m);
    StateKeepsSequence(ds, mac, false);
    StateKeepsSequence(ds, mac, true);
    SequenceAfterSet(on, mac, f.Rx()[1], m);
    SequenceAfterSet(ds, mac, f.Rx()[1], m);
    SequenceAfterBump(on, mac, m);
    if !Known(ds, m) {
      UnknownReads(ds, m);
    }
  }

  /** A device is online iff it is known and the last of its frames 07, 08, 13 and 02 exists and is not 07. */
  lemma {:induction false} OnlineRule(macs: seq<string>, fs: seq<Frame>, mac: string)
    requires AllValid(fs)
    ensures Known(Run(macs, fs).devices, mac) <==> mac in macs
    ensures StateOf(Run(macs, fs).devices, mac) <==> Online(macs, fs, mac)
    decreases |fs|
  {
    hide StateOf, Step, UpperHex, Known, Initial;
    if fs == [] {
      InitialReads(macs, mac);
    } else {
      var n := |fs| - 1;
      OnlineRule(macs, fs[..n], mac);
      StepReads(Run(macs, fs[..n]), fs[n], mac);
    }
  }

  /** A data frame is published iff its sender is online. */
  lemma PublishedOnline(macs: seq<string>, fs: seq<Frame>, f: Frame)
    requires AllValid(fs) && f.Valid() && Kind(f) == 0x01
    ensures Step(Run(macs, fs), f).published <==> Online(macs, fs, f.Mac())
  {
    hide StateOf, Online, UpperHex, Run, WithState, WithSequence;
    OnlineRule(macs, fs, f.Mac());
  }

  // ----- what is answered and published

  /** A frame of this type, acknowledged or not. */
  predicate IsReply(reply: Reply, fcf: word, kind: nat, acknowledge: bool, length: nat) {
    && reply.Answer? && reply.tx.fcf == fcf && |reply.tx.data| == length
    && fcf % 8 == kind && fcf / 32 % 2 == (if acknowledge then 1 else 0)
  }

  /** The answer to each kind of frame, except for packet and sequence number. */
  predicate Answers(f: Frame, online: bool, reply: Reply)
    requires f.Valid()
  {
    var rx := f.Rx();
    if rx[0] == 0x07 then
      IsReply(reply, 0xc000, 0, false, 7) && reply.tx.data == [0xff, 0x45, 0x00, 0x00, 0x7e, if rx[1] == 0x0f then 0x01 else 0x02, 0x00]
    else if rx[0] == 0x01 && !online then
      IsReply(reply, 0xcc63, 3, true, 4) && reply.tx.data == [0x02, 0xfe, 0xff, 0x00]
    else if rx[0] == 0x01 then
      IsReply(reply, 0xcc41, 1, false, 4) && reply.tx.data[0] == (if rx[2] == 0x01 then 0x09 else 0x02) && reply.tx.data[3] == 0x00
    else if rx[0] == 0x13 then
      IsReply(reply, 0xcc61, 1, true, 4) && reply.tx.data[0] == 0x14 && reply.tx.data[3] == 0x00
    else if rx[0] == 0x08 then
      IsReply(reply, 0xcc41, 1, false, 3) && reply.tx.data[0] == (if rx[2] == 0x01 then 0x09 else 0x0a)
    else if rx[0] == 0x02 then
      IsReply(reply, 0xcc41, 1, false, 4) && reply.tx.data[0] == (if rx[2] == 0x01 then 0x09 else 0x0a) && reply.tx.data[3] == 0x00
    else if rx[0] == 0x0a then reply == NoReply
    else reply == Unfilled
  }

  lemma AnswerByKind(macs: seq<string>, fs: seq<Frame>, f: Frame)
    requires AllValid(fs) && f.Valid()
    ensures Answers(f, Online(macs, fs, f.Mac()), Step(Run(macs, fs), f).reply)
  {
    hide StateOf, SequenceOf, Online, UpperHex, Run, WithState, WithSequence, Bumped;
    OnlineRule(macs, fs, f.Mac());
  }

  /** Frames whose payload is published: 02, 01 from a device that is online, and kinds that are not recognised. */
  predicate IsPublished(macs: seq<string>, before: seq<Frame>, f: Frame)
    requires AllValid(before) && f.Valid()
  {
    || Kind(f) == 0x02
    || (Kind(f) == 0x01 && Online(macs, before, f.Mac()))
    || Kind(f) !in {0x01, 0x02, 0x07, 0x08, 0x0a, 0x13}
  }

  /** Everything published over a run, in order. */
  function Publications(macs: seq<string>, fs: seq<Frame>): seq<(string, string)>
    requires AllValid(fs)
  {
    if fs == [] then []
    else
      var before, f := fs[..|fs| - 1], fs[|fs| - 1];
      Publications(macs, before)
      + (if IsPublished(macs, before, f) then [("pethublocal/local/" + UpperHex(f.src), UpperHex(f.data))] else [])
  }

  lemma PublishedByKind(macs: seq<string>, fs: seq<Frame>, f: Frame)
    requires AllValid(fs) && f.Valid()
    ensures Step(Run(macs, fs), f).published <==> IsPublished(macs, fs, f)
    ensures TOPIC + "/" + f.Mac() == "pethublocal/local/" + UpperHex(f.src)
  {
    hide StateOf, SequenceOf, Online, UpperHex, Run, WithState, WithSequence, Bumped;
    OnlineRule(macs, fs, f.Mac());
    assert TOPIC + "/" == "pethublocal/local/";
  }

  // ----- devices do not disturb each other

  /** A frame changes no row but those of its sender, and no MAC address. */
  lemma StepLocal(h: Hub, f: Frame)
    requires f.Valid()
    ensures |Step(h, f).hub.devices| == |h.devices|
    ensures forall i :: 0 <= i < |h.devices| ==>
              && Step(h, f).hub.devices[i].mac == h.devices[i].mac
              && (h.devices[i].mac != f.Mac() ==> Step(h, f).hub.devices[i] == h.devices[i])
  {
    hide StateOf, SequenceOf, UpperHex;
  }

  /** Both tables have the same rows for one address. */
  ghost predicate Agree(ds: seq<Device>, es: seq<Device>, mac: string) {
    && |ds| == |es|
    && forall i :: 0 <= i < |ds| ==> ds[i].mac == es[i].mac && (ds[i].mac == mac ==> ds[i] == es[i])
  }

  lemma {:induction false} AgreeReads(ds: seq<Device>, es: seq<Device>, mac: string)
    requires Agree(ds, es, mac)
    ensures StateOf(ds, mac) == StateOf(es, mac) && SequenceOf(ds, mac) == SequenceOf(es, mac)
    decreases |ds|
  {
    if ds != [] {
      AgreeReads(ds[..|ds| - 1], es[..|es| - 1], mac);
    }
  }

  lemma StepAgrees(g: Hub, h: Hub, f: Frame)
    requires f.Valid() && Agree(g.devices, h.devices, f.Mac())
    ensures Agree(Step(g, f).hub.devices, Step(h, f).hub.devices, f.Mac())
  {
    hide StateOf, SequenceOf, UpperHex;
    AgreeReads(g.devices, h.devices, f.Mac());
  }

  /** The frames of one sender. */
  function From(fs: seq<Frame>, src: seq<byte>): (r: seq<Frame>)
    requires AllValid(fs)
    ensures AllValid(r)
    ensures forall f :: f in r ==> f in fs && f.src == src
  {
    if fs == [] then []
    else From(fs[..|fs| - 1], src) + (if fs[|fs| - 1].src == src then [fs[|fs| - 1]] else [])
  }

  /** What the hub keeps of a device is what it would keep if that device were alone on the air. */
  lemma {:induction false} OthersInvisible(macs: seq<string>, fs: seq<Frame>, src: seq<byte>)
    requires AllValid(fs) && |src| == 8
    ensures Agree(Run(macs, fs).devices, Run(macs, From(fs, src)).devices, UpperHex(src))
    decreases |fs|
  {
    hide Step, UpperHex, Initial;
    if fs != [] {
      var n := |fs| - 1;
      var f := fs[n];
      OthersInvisible(macs, fs[..n], src);
      var own := From(fs[..n], src);
      if f.src == src {
        StepAgrees(Run(macs, fs[..n]), Run(macs, own), f);
        assert (own + [f])[..|own|] == own;
      } else {
        if f.Mac() == UpperHex(src) {
          UpperHexInjective(f.src, src);
        }
        StepLocal(Run(macs, fs[..n]), f);
        assert own + [] == own;
      }
    }
  }

  // ----- sequence numbers

  /** Frames whose answer takes the next packet number. */
  predicate Numbered(macs: seq<string>, fs: seq<Frame>, f: Frame)
    requires AllValid(fs) && f.Valid()
  {
    Kind(f) in {0x13, 0x08, 0x02} || (Kind(f) == 0x01 && Online(macs, fs, f.Mac()))
  }

  function NumberedCount(macs: seq<string>, fs: seq<Frame>): nat
    requires AllValid(fs)
  {
    if fs == [] then 0
    else NumberedCount(macs, fs[..|fs| - 1]) + (if Numbered(macs, fs[..|fs| - 1], fs[|fs| - 1]) then 1 else 0)
  }

  /** A numbered frame is answered with the hub's number, which then counts up; no other frame moves it. */
  lemma StepNumbers(macs: seq<string>, fs: seq<Frame>, f: Frame)
    requires AllValid(fs) && f.Valid()
    ensures var tx, o := Run(macs, fs).txSeqNo, Step(Run(macs, fs), f);
            if Numbered(macs, fs, f)
            then o.hub.txSeqNo == ((tx as int) + 1) % 256 && o.reply.Answer? && 3 <= |o.reply.tx.data| && o.reply.tx.data[1] == tx
            else o.hub.txSeqNo == tx
  {
    hide StateOf, SequenceOf, Online, UpperHex, Run, WithState, WithSequence, Bumped;
    OnlineRule(macs, fs, f.Mac());
  }

  /** The answers to numbered frames carry 0, 1, 2 and so on in byte 1, modulo 256. */
  lemma {:induction false} AnswersNumbered(macs: seq<string>, fs: seq<Frame>)
    requires AllValid(fs)
    ensures Run(macs, fs).txSeqNo == NumberedCount(macs, fs) % 256
    ensures forall f: Frame :: f.Valid() && Numbered(macs, fs, f) ==>
              var reply := Step(Run(macs, fs), f).reply;
              reply.Answer? && 3 <= |reply.tx.data| && reply.tx.data[1] == NumberedCount(macs, fs) % 256
    decreases |fs|
  {
    hide Step, Numbered, Initial;
    if fs != [] {
      var n := |fs| - 1;
      AnswersNumbered(macs, fs[..n]);
      StepNumbers(macs, fs[..n], fs[n]);
    }
    forall f: Frame | f.Valid() && Numbered(macs, fs, f)
      ensures var reply := Step(Run(macs, fs), f).reply;
              reply.Answer? && 3 <= |reply.tx.data| && reply.tx.data[1] == Run(macs, fs).txSeqNo
    {
      StepNumbers(macs, fs, f);
    }
  }

  /** Frames that set the counter of a device to their own. */
  predicate Synchronises(macs: seq<string>, fs: seq<Frame>, f: Frame)
    requires AllValid(fs) && f.Valid()
  {
    Kind(f) in {0x13, 0x0a} || (Kind(f) == 0x01 && Online(macs, fs, f.Mac()))
  }

  /** The counter of the last frame from mac that synchronised it, or 0. */
  function LastSync(macs: seq<string>, fs: seq<Frame>, mac: string): byte
    requires AllValid(fs)
  {
    if fs == [] then 0
    else
      var n, f := |fs| - 1, fs[|fs| - 1];
      if f.Mac() == mac && Synchronises(macs, fs[..n], f) then f.Rx()[1] else LastSync(macs, fs[..n], mac)
  }

  /** The frames 08 and 02 from mac since then. */
  function CountedSince(macs: seq<string>, fs: seq<Frame>, mac: string): nat
    requires AllValid(fs)
  {
    if fs == [] then 0
    else
      var n, f := |fs| - 1, fs[|fs| - 1];
      if f.Mac() != mac then CountedSince(macs, fs[..n], mac)
      else if Synchronises(macs, fs[..n], f) then 0
      else CountedSince(macs, fs[..n], mac) + (if Kind(f) in {0x08, 0x02} then 1 else 0)
  }

  /** How one more frame changes both. */
  lemma SyncStep(macs: seq<string>, fs: seq<Frame>, mac: string)
    requires AllValid(fs) && fs != []
    ensures var f, was := fs[|fs| - 1], fs[..|fs| - 1];
            if f.Mac() == mac && Synchronises(macs, was, f)
            then LastSync(macs, fs, mac) == f.Rx()[1] && CountedSince(macs, fs, mac) == 0
            else
              && LastSync(macs, fs, mac) == LastSync(macs, was, mac)
              && CountedSince(macs, fs, mac)
                 == CountedSince(macs, was, mac) + (if f.Mac() == mac && Kind(f) in {0x08, 0x02} then 1 else 0)
  {
    hide Synchronises, UpperHex, Kind;
  }

  lemma OneMore(a: nat, n: nat)
    ensures ((a + n) % 256 + 1) % 256 == (a + (n + 1)) % 256
  {
  }

  lemma {:induction false} SequenceRule(macs: seq<string>, fs: seq<Frame>, mac: string)
    requires AllValid(fs)
    ensures SequenceOf(Run(macs, fs).devices, mac)
         == if mac in macs then ((LastSync(macs, fs, mac) as int) + CountedSince(macs, fs, mac)) % 256 else 0
    decreases |fs|
  {
    hide StateOf, SequenceOf, Step, Online, UpperHex, Initial, Known, Kind;
    if fs == [] {
      InitialReads(macs, mac);
    } else {
      hide LastSync, CountedSince;
      var n := |fs| - 1;
      SequenceRule(macs, fs[..n], mac);
      OnlineRule(macs, fs[..n], mac);
      StepReads(Run(macs, fs[..n]), fs[n], mac);
      SyncStep(macs, fs, mac);
      OneMore(LastSync(macs, fs[..n], mac), CountedSince(macs, fs[..n], mac));
    }
  }

  /** Byte 2 of an answer: the device's own counter for 13 and online 01, the hub's count of it for 08 and 02. */
  lemma AnswersEcho(macs: seq<string>, fs: seq<Frame>, f: Frame)
    requires AllValid(fs) && f.Valid() && Numbered(macs, fs, f)
    ensures var mac, reply := f.Mac(), Step(Run(macs, fs), f).reply;
            && reply.Answer? && 3 <= |reply.tx.data|
            && reply.tx.data[2]
               == if Kind(f) in {0x13, 0x01} then f.Rx()[1]
                  else if mac in macs then ((LastSync(macs, fs, mac) as int) + CountedSince(macs, fs, mac)) % 256
                  else 0
  {
    hide StateOf, SequenceOf, Online, UpperHex, Run, LastSync, CountedSince, WithState, WithSequence, Bumped;
    OnlineRule(macs, fs, f.Mac());
    SequenceRule(macs, fs, f.Mac());
  }

  // ----- answers on the air

  /** Type in bits 0 to 2, acknowledgement in 5, compression in 6, the modes in 10 and 11, and 14 and 15; nothing else. */
  lemma ControlBits(long: bool, kind: nat, acknowledge: bool)
    requires kind < 8
    ensures var w := Control(long, kind, acknowledge);
            && w % 8 == kind && w / 8 % 4 == 0 && w / 32 % 2 == (if acknowledge then 1 else 0)
            && w / 64 % 2 == (if long then 1 else 0) && w / 128 % 8 == 0
            && DestinationMode(w) == (if long then 3 else 0) && w / 4096 % 4 == 0 && SourceMode(w) == 3
  {
    hide DestinationMode, SourceMode;
    if long {
      ModesOf(0xcc40 + (if acknowledge then 0x20 else 0) + kind);
    } else {
      ModesOf(0xc000 + (if acknowledge then 0x20 else 0) + kind);
    }
  }

  lemma ModesOf(w: word)
    ensures 0xc000 <= w < 0xc100 ==> DestinationMode(w) == 0 && SourceMode(w) == 3
    ensures 0xcc00 <= w < 0xcd00 ==> DestinationMode(w) == 3 && SourceMode(w) == 3
  {
  }

  /** Every answer reaches its device unharmed: hub address, the device's own address unless it is a beacon, and the bytes. */
  lemma AnswerArrives(h: Hub, f: Frame, was: seq<byte>, seqNo: byte, pan: word, hwmac: seq<byte>, air: Air)
    requires f.Valid() && Step(h, f).reply.Answer?
    requires |was| == MEMORY_SIZE && |hwmac| == 8 && |air.rest| == 256
    ensures var tx := Step(h, f).reply.tx;
            && Fits(was, tx, f.src, hwmac, air)
            && var r := Transfer(was, tx, seqNo, pan, f.src, hwmac, air);
            && r.fcf == tx.fcf && r.src == hwmac && r.dst == (if Kind(f) == 0x07 then [] else f.src)
            && r.data == tx.data + [air.fcs0, air.fcs1]
  {
    hide StateOf, SequenceOf, UpperHex, WithState, WithSequence, Bumped, Transfer;
    var tx := Step(h, f).reply.tx;
    FrameRoundTrip(was, tx, seqNo, pan, f.src, hwmac, air);
  }
}
