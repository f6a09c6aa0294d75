/**
 The MAC frame writer and reader of the MRF24J40 driver: frames of IEEE 802.15.4-2006,
 section 7.2.1, in the chip's long-address memory.
 */
module MacFrames {
  import opened Bytes

  type word = x: int | 0 <= x < 65536

  const MEMORY_SIZE := 0x400
  const RX_FIFO := 0x300
  const DATA_SIZE := 116

  /** Bits 10 and 11 of the frame control field. */
  function DestinationMode(fcf: word): nat {
    fcf / 1024 % 4
  }

  /** Bits 14 and 15 of the frame control field. */
  function SourceMode(fcf: word): nat {
    fcf / 16384
  }

  /** fcsamlength: none, reserved, short, long. */
  function AddressLength(mode: nat): byte {
    if mode == 2 then 2 else if mode == 3 then 8 else 0
  }

  function HeaderLength(fcf: word): byte {
    5 + AddressLength(DestinationMode(fcf)) + AddressLength(SourceMode(fcf))
  }

  /** Bits 10, 11, 14 and 15 of the control field give 0, 2 or 8 bytes to each address, behind five bytes. */
  lemma HeaderBits(fcf: word, destination: nat, source: nat)
    requires destination < 4 && source < 4 && fcf / 1024 % 4 == destination && fcf / 16384 == source
    ensures HeaderLength(fcf) == 5 + [0, 0, 2, 8][destination] + [0, 0, 2, 8][source]
  {
  }

  // ----- what is written and what is read

  /** The frame to send, with the data_length bytes of data that are in use. */
  datatype TxInfo = TxInfo(fcf: word, data: seq<byte>)

  /** The source address is written only when it is long. */
  function WrittenSource(fcf: word, hwmac: seq<byte>): seq<byte> {
    if SourceMode(fcf) == 3 then hwmac else []
  }

  lemma SourceWhenLong(fcf: word, hwmac: seq<byte>)
    ensures WrittenSource(fcf, hwmac) == if AddressLength(SourceMode(fcf)) == 8 then hwmac else []
  {
  }

  /** Everything sendframe writes: two lengths, then the frame. */
  function Image(tx: TxInfo, seqNo: byte, pan: word, peer: seq<byte>, hwmac: seq<byte>): seq<byte>
    requires |peer| == 8
  {
    [HeaderLength(tx.fcf), (HeaderLength(tx.fcf) + |tx.data|) % 256, tx.fcf % 256, tx.fcf / 256, seqNo, pan % 256, pan / 256]
    + peer[..AddressLength(DestinationMode(tx.fcf))] + WrittenSource(tx.fcf, hwmac) + tx.data
  }

  /** What sendframe leaves in memory. */
  function Sent(was: seq<byte>, tx: TxInfo, seqNo: byte, pan: word, peer: seq<byte>, hwmac: seq<byte>): seq<byte>
    requires |peer| == 8 && |Image(tx, seqNo, pan, peer, hwmac)| <= |was|
  {
    Image(tx, seqNo, pan, peer, hwmac) + was[|Image(tx, seqNo, pan, peer, hwmac)|..]
  }

  /** Where the parts of a frame stand in memory: control, sequence number, network, and the payload behind the header. */
  lemma SentParts(was: seq<byte>, tx: TxInfo, seqNo: byte, pan: word, peer: seq<byte>, hwmac: seq<byte>)
    requires |was| == MEMORY_SIZE && |peer| == 8 && |hwmac| == 8 && |tx.data| <= DATA_SIZE
    ensures |Image(tx, seqNo, pan, peer, hwmac)| <= MEMORY_SIZE
    ensures var m := Sent(was, tx, seqNo, pan, peer, hwmac);
            var payload := 2 + m[0] - (if SourceMode(tx.fcf) == 2 then 2 else 0);
            && |m| == MEMORY_SIZE && (m[3] as int) * 256 + m[2] == tx.fcf && m[4] == seqNo && (m[6] as int) * 256 + m[5] == pan
            && 0 <= payload <= payload + |tx.data| <= |m| && m[payload..payload + |tx.data|] == tx.data
  {
    hide DestinationMode;
    FieldOf(tx.fcf);
    FieldOf(pan);
    var image := Image(tx, seqNo, pan, peer, hwmac);
    var front := image[..|image| - |tx.data|];
    assert image[|image| - |tx.data|..] == tx.data;
    var m := Sent(was, tx, seqNo, pan, peer, hwmac);
    assert m[|image| - |tx.data|..|image|] == image[|image| - |tx.data|..];
  }

  /** The fields of rx_info after an interrupt; addresses and data are the bytes that were stored. */
  datatype Received = Received(
    frameLength: byte, headerLength: byte, dataLength: byte, fcf: word,
    dst: seq<byte>, src: seq<byte>, data: seq<byte>, lqi: byte, rssi: byte)

  function FcfOf(fifo: seq<byte>): word
    requires 3 <= |fifo|
  {
    (fifo[2] as int) * 256 + fifo[1]
  }

  function Read(fifo: seq<byte>): Received
    requires 256 <= |fifo| && fifo[0] <= 127
  {
    var frameLength: int := fifo[0];
    var fcf := FcfOf(fifo);
    var d := AddressLength(DestinationMode(fcf));
    var h: int := HeaderLength(fcf);
    Received(fifo[0], HeaderLength(fcf), (frameLength - h) % 256, fcf, fifo[6..6 + d], fifo[6 + d..1 + h],
             if h < frameLength then fifo[1 + h..1 + frameLength] else [], fifo[frameLength + 1], fifo[frameLength + 2])
  }

  /** Memory with some bytes overwritten. */
  function Put(m: seq<byte>, at: nat, bytes: seq<byte>): seq<byte>
    requires at + |bytes| <= |m|
  {
    m[..at] + bytes + m[at + |bytes|..]
  }

  lemma PutMore(m: seq<byte>, a: seq<byte>, b: seq<byte>)
    requires |a| + |b| <= |m|
    ensures |Put(m, 0, a)| == |m| && Put(Put(m, 0, a), |a|, b) == Put(m, 0, a + b)
  {
    assert Put(m, 0, a)[..|a|] == a;
  }

  /** The four parts written from the start of memory. */
  lemma WrittenIsSent(was: seq<byte>, tx: TxInfo, seqNo: byte, pan: word, peer: seq<byte>, hwmac: seq<byte>)
    requires |was| == MEMORY_SIZE && |peer| == 8 && |hwmac| == 8 && |tx.data| <= DATA_SIZE
    ensures var length := HeaderLength(tx.fcf);
            var start := [length, ((length as int) + |tx.data|) % 256, tx.fcf % 256, tx.fcf / 256, seqNo, pan % 256, pan / 256];
            var image := start + peer[..AddressLength(DestinationMode(tx.fcf))] + WrittenSource(tx.fcf, hwmac) + tx.data;
            && |image| <= MEMORY_SIZE && |Image(tx, seqNo, pan, peer, hwmac)| <= MEMORY_SIZE
            && Put(was, 0, image) == Sent(was, tx, seqNo, pan, peer, hwmac)
  {
    hide DestinationMode, SourceMode;
  }

  // ----- the driver

  class Mrf24j {
    const memory: array<byte>
    const hwmac: seq<byte>
    var pan: word
    var txSeqNo: byte
    var gotRx: byte
    var gotTx: byte

    // rx_info
    const src: array<byte>
    const dst: array<byte>
    const data: array<byte>
    var frameLength: byte
    var headerLength: byte
    var dataLength: byte
    var fcf: word
    var lqi: byte
    var rssi: byte

    // tx_info
    var txOk: bool
    var retries: byte
    var channelBusy: bool

    ghost predicate Valid() {
      && memory.Length == MEMORY_SIZE && |hwmac| == 8
      && src.Length == 8 && dst.Length == 8 && data.Length == DATA_SIZE
      && memory != src && memory != dst && memory != data && src != dst && src != data && dst != data
    }

    constructor (hwmac: seq<byte>, pan: word)
      requires |hwmac| == 8
      ensures Valid() && this.hwmac == hwmac && this.pan == pan && txSeqNo == 0 && gotRx == 0 && gotTx == 0
      ensures fresh(memory) && fresh(src) && fresh(dst) && fresh(data)
    {
      this.hwmac, this.pan, txSeqNo, gotRx, gotTx := hwmac, pan, 0, 0, 0;
      memory := new byte[MEMORY_SIZE](_ => 0);
      src := new byte[8](_ => 0);
      dst := new byte[8](_ => 0);
      data := new byte[DATA_SIZE](_ => 0);
    }

    /** A loop of write_long over consecutive addresses. */
    method Write(at: nat, bytes: seq<byte>) returns (next: nat)
      requires Valid() && at + |bytes| <= MEMORY_SIZE
      modifies memory
      ensures next == at + |bytes| && memory[..] == Put(old(memory[..]), at, bytes)
    {
      next := at;
      for j := 0 to |bytes|
        invariant next == at + j && memory[..] == Put(old(memory[..]), at, bytes[..j])
      {
        memory[next] := bytes[j];
        next := next + 1;
      }
      assert bytes[..|bytes|] == bytes;
    }

    method SendFrame(tx: TxInfo)
      requires Valid() && |tx.data| <= DATA_SIZE
      modifies memory, this`txSeqNo
      ensures |Image(tx, old(txSeqNo), pan, src[..], hwmac)| <= MEMORY_SIZE
      ensures memory[..] == Sent(old(memory[..]), tx, old(txSeqNo), pan, src[..], hwmac)
      ensures txSeqNo == ((old(txSeqNo) as int) + 1) % 256
      ensures (memory[3] as int) * 256 + memory[2] == tx.fcf
      ensures memory[4] == old(txSeqNo) && (memory[6] as int) * 256 + memory[5] == pan
      ensures var payload := 2 + memory[0] - (if SourceMode(tx.fcf) == 2 then 2 else 0);
              0 <= payload <= payload + |tx.data| <= memory.Length && memory[payload..payload + |tx.data|] == tx.data
    {
      hide DestinationMode, SourceMode, WrittenSource, Put, Image, Sent;
      SentParts(memory[..], tx, txSeqNo, pan, src[..], hwmac);
      var dstlen := AddressLength(DestinationMode(tx.fcf));
      var srclen := AddressLength(SourceMode(tx.fcf));
      var length: byte := 5 + dstlen + srclen;
      var total: byte := ((length as int) + |tx.data|) % 256;
      var fcfLow: byte, fcfHigh: byte, panLow: byte, panHigh: byte := tx.fcf % 256, tx.fcf / 256, pan % 256, pan / 256;
      ghost var was := memory[..];
      SourceWhenLong(tx.fcf, hwmac);
      var start := [length, total, fcfLow, fcfHigh, txSeqNo, panLow, panHigh];
      ghost var target, source := src[..dstlen], WrittenSource(tx.fcf, hwmac);
      var i := Write(0, start);
      txSeqNo := ((txSeqNo as int) + 1) % 256;
      PutMore(was, start, target);
      if dstlen > 0 {
        i := Write(i, src[..dstlen]);
      } else {
        assert start + target == start;
      }
      PutMore(was, start + target, source);
      if srclen == 8 {
        i := Write(i, hwmac);
      } else {
        assert start + target + source == start + target;
      }
      PutMore(was, start + target + source, tx.data);
      i := Write(i, tx.data);
      WrittenIsSent(was, tx, old(txSeqNo), pan, src[..], hwmac);
    }

    /** Frames sent one after the other, as they are received: their sequence numbers count up. */
    method SendAll(txs: seq<TxInfo>, air: Air) returns (fifos: seq<seq<byte>>)
      requires Valid() && forall tx :: tx in txs ==> |tx.data| <= DATA_SIZE - 2 && HeaderLength(tx.fcf) + |tx.data| + 2 <= 127
      requires |air.rest| == 256
      modifies memory, this`txSeqNo
      ensures |fifos| == |txs| && txSeqNo == (old(txSeqNo) + |txs|) % 256
      ensures forall i :: 0 <= i < |txs| ==>
                && 256 <= |fifos[i]| && fifos[i][0] == HeaderLength(txs[i].fcf) + |txs[i].data| + 2
                && (fifos[i][2] as int) * 256 + fifos[i][1] == txs[i].fcf
                && fifos[i][3] == (old(txSeqNo) + i) % 256 && (fifos[i][5] as int) * 256 + fifos[i][4] == pan
    {
      hide HeaderLength, Image;
      fifos := [];
      for i := 0 to |txs|
        invariant |fifos| == i && txSeqNo == (old(txSeqNo) + i) % 256
        invariant forall j :: 0 <= j < i ==>
                    && 256 <= |fifos[j]| && fifos[j][0] == HeaderLength(txs[j].fcf) + |txs[j].data| + 2
                    && (fifos[j][2] as int) * 256 + fifos[j][1] == txs[j].fcf
                    && fifos[j][3] == (old(txSeqNo) + j) % 256 && (fifos[j][5] as int) * 256 + fifos[j][4] == pan
      {
        DeliveredParts(memory[..], txs[i], txSeqNo, pan, src[..], hwmac, air);
        SendFrame(txs[i]);
        fifos := fifos + [Delivered(memory[..], air)];
      }
    }

    /** A loop of read_long over consecutive addresses of the receive FIFO. */
    method ReadInto(a: array<byte>, at: nat, n: nat)
      requires Valid() && a != memory && n <= a.Length && at + n <= 256
      modifies a
      ensures a[..n] == old(Fifo())[at..at + n] && a[n..] == old(a[n..])
    {
      for k := 0 to n
        invariant a[..k] == old(Fifo())[at..at + k] && a[k..] == old(a[k..])
        invariant memory[..] == old(memory[..])
      {
        a[k] := memory[RX_FIFO + at + k];
      }
    }

    ghost function Fifo(): (s: seq<byte>)
      requires Valid()
      reads memory
      ensures |s| == 256
    {
      memory[RX_FIFO..]
    }

    /** A frame has arrived; only the most recent one is kept. */
    method ReceiveFrame()
      requires Valid() && memory[RX_FIFO] <= 127
      requires memory[RX_FIFO] <= HeaderLength(FcfOf(Fifo())) + DATA_SIZE
      modifies this`gotRx, this`frameLength, this`headerLength, this`dataLength, this`fcf, this`lqi, this`rssi, src, dst, data
      ensures gotRx == ((old(gotRx) as int) + 1) % 256
      ensures var f := Read(old(Fifo()));
              && frameLength == f.frameLength && headerLength == f.headerLength && dataLength == f.dataLength
              && fcf == f.fcf && lqi == f.lqi && rssi == f.rssi
              && dst[..|f.dst|] == f.dst && dst[|f.dst|..] == old(dst[..])[|f.dst|..]
              && src[..|f.src|] == f.src && src[|f.src|..] == old(src[..])[|f.src|..]
              && data[..|f.data|] == f.data && data[|f.data|..] == old(data[..])[|f.data|..]
    {
      hide DestinationMode, SourceMode, FcfOf, Read;
      ReadFields(Fifo());
      FcfParts(Fifo());
      gotRx := ((gotRx as int) + 1) % 256;
      frameLength := memory[RX_FIFO];
      fcf := (memory[RX_FIFO + 2] as int) * 256 + memory[RX_FIFO + 1];
      var dstlen: int := AddressLength(DestinationMode(fcf));
      var srclen: int := AddressLength(SourceMode(fcf));
      ReadInto(dst, 6, dstlen);
      ReadInto(src, 6 + dstlen, srclen);
      headerLength := 5 + dstlen + srclen;
      dataLength := ((frameLength as int) - headerLength) % 256;
      if headerLength < frameLength {
        ReadInto(data, 1 + headerLength, frameLength - headerLength);
      }
      lqi := memory[RX_FIFO + frameLength + 1];
      rssi := memory[RX_FIFO + frameLength + 2];
    }

    /** interrupt_handler: what the interrupt status announces, a frame, the end of a transmission, or both. */
    method InterruptHandler(status: byte, txStatus: byte)
      requires Valid()
      requires FrameArrived(status) ==> memory[RX_FIFO] <= 127 && memory[RX_FIFO] <= HeaderLength(FcfOf(Fifo())) + DATA_SIZE
      modifies this`gotRx, this`frameLength, this`headerLength, this`dataLength, this`fcf, this`lqi, this`rssi, src, dst, data
      modifies this`gotTx, this`txOk, this`retries, this`channelBusy
      ensures gotRx == if FrameArrived(status) then ((old(gotRx) as int) + 1) % 256 else old(gotRx)
      ensures FrameArrived(status) ==>
                var f := Read(old(Fifo()));
                && frameLength == f.frameLength && headerLength == f.headerLength && dataLength == f.dataLength
                && fcf == f.fcf && lqi == f.lqi && rssi == f.rssi
                && dst[..|f.dst|] == f.dst && dst[|f.dst|..] == old(dst[..])[|f.dst|..]
                && src[..|f.src|] == f.src && src[|f.src|..] == old(src[..])[|f.src|..]
                && data[..|f.data|] == f.data && data[|f.data|..] == old(data[..])[|f.data|..]
      ensures !FrameArrived(status) ==>
                && unchanged(src, dst, data)
                && unchanged(this`frameLength, this`headerLength, this`dataLength, this`fcf, this`lqi, this`rssi)
      ensures gotTx == if TransmissionEnded(status) then ((old(gotTx) as int) + 1) % 256 else old(gotTx)
      ensures if TransmissionEnded(status)
              then (txOk <==> txStatus < 2) && retries == txStatus / 64 && !channelBusy
              else unchanged(this`txOk, this`retries, this`channelBusy)
    {
      hide Read, FcfOf;
      if FrameArrived(status) {
        ReceiveFrame();
      }
      if TransmissionEnded(status) {
        gotTx := ((gotTx as int) + 1) % 256;
        txOk := txStatus / 2 == 0;
        retries := txStatus / 64;
        // One bit takes the flag 1 << 5, of which the lowest bit is left.
        channelBusy := txStatus / 32 % 2 * 32 % 2 == 1;
      }
    }

    /** check_flags: which handlers are called. */
    method CheckFlags() returns (received: bool, transmitted: bool)
      modifies this`gotRx, this`gotTx
      ensures received <==> old(gotRx) != 0
      ensures transmitted <==> old(gotTx) != 0
      ensures gotRx == 0 && gotTx == 0
    {
      received := gotRx != 0;
      gotRx := 0;
      transmitted := gotTx != 0;
      gotTx := 0;
    }
  }

  /** Bits 3 and 0 of the interrupt status. */
  predicate FrameArrived(status: byte) {
    status / 8 % 2 == 1
  }

  predicate TransmissionEnded(status: byte) {
    status % 2 == 1
  }

  /** Bit 3 of the interrupt status announces a frame, bit 0 the end of a transmission. */
  lemma StatusBits(status: byte)
    ensures FrameArrived(status) <==> (status as bv8) & 0x08 != 0
    ensures TransmissionEnded(status) <==> (status as bv8) & 0x01 != 0
  {
    var b := status as bv8;
    assert b & 0x08 != 0 <==> b / 8 % 2 == 1;
    assert b & 0x01 != 0 <==> b % 2 == 1;
    assert (b / 8 % 2) as int == status / 8 % 2 && (b % 2) as int == status % 2;
  }

  lemma FcfParts(fifo: seq<byte>)
    requires 3 <= |fifo|
    ensures FcfOf(fifo) == (fifo[2] as int) * 256 + fifo[1]
  {
  }

  lemma ReadFields(fifo: seq<byte>)
    requires 256 <= |fifo| && fifo[0] <= 127
    ensures var f := Read(fifo);
            var n, h: int, d: int := fifo[0] as int, HeaderLength(f.fcf), AddressLength(DestinationMode(f.fcf));
            && f.frameLength == n && f.fcf == FcfOf(fifo) && f.headerLength == h && f.dataLength == (n - h) % 256
            && f.dst == fifo[6..6 + d] && f.src == fifo[6 + d..1 + h]
            && f.data == (if h < n then fifo[1 + h..1 + n] else []) && f.lqi == fifo[n + 1] && f.rssi == fifo[n + 2]
  {
    hide DestinationMode, SourceMode, FcfOf;
  }

  // ----- over the air

  /** What the receiver adds to a frame: check sequence, quality, strength, and what its FIFO held before. */
  datatype Air = Air(fcs0: byte, fcs1: byte, lqi: byte, rssi: byte, rest: seq<byte>)

  /** The receive FIFO once the memory of a sender was transmitted: length, frame, check sequence, quality and strength. */
  function Delivered(sent: seq<byte>, air: Air): seq<byte>
    requires |sent| == MEMORY_SIZE && sent[1] <= 125
  {
    [sent[1] + 2] + sent[2..2 + sent[1]] + [air.fcs0, air.fcs1, air.lqi, air.rssi] + air.rest
  }

  /** The header as it is received. */
  lemma DeliveredParts(was: seq<byte>, tx: TxInfo, seqNo: byte, pan: word, peer: seq<byte>, hwmac: seq<byte>, air: Air)
    requires Fits(was, tx, peer, hwmac, air)
    ensures |Image(tx, seqNo, pan, peer, hwmac)| <= MEMORY_SIZE && Sent(was, tx, seqNo, pan, peer, hwmac)[1] <= 125
    ensures var fifo := Delivered(Sent(was, tx, seqNo, pan, peer, hwmac), air);
            && 256 <= |fifo| && fifo[0] == HeaderLength(tx.fcf) + |tx.data| + 2
            && (fifo[2] as int) * 256 + fifo[1] == tx.fcf && fifo[3] == seqNo && (fifo[5] as int) * 256 + fifo[4] == pan
  {
    hide DestinationMode;
    SentParts(was, tx, seqNo, pan, peer, hwmac);
    DeclaredLength(tx, seqNo, pan, peer, hwmac);
    var sent := Sent(was, tx, seqNo, pan, peer, hwmac);
    Segments(sent, air);
    var fifo := Delivered(sent, air);
    SliceOfSlice(fifo, 1, 1 + sent[1], 0, 5);
    SliceOfSlice(sent, 2, 2 + sent[1], 0, 5);
    assert fifo[1..6] == sent[2..7];
    assert fifo[1] == fifo[1..6][0] && fifo[2] == fifo[1..6][1] && fifo[3] == fifo[1..6][2];
    assert fifo[4] == fifo[1..6][3] && fifo[5] == fifo[1..6][4];
  }

  /** The lengths the chip and the buffers allow. */
  predicate Fits(was: seq<byte>, tx: TxInfo, peer: seq<byte>, hwmac: seq<byte>, air: Air) {
    && |was| == MEMORY_SIZE && |peer| == 8 && |hwmac| == 8 && |air.rest| == 256
    && |tx.data| <= DATA_SIZE - 2 && HeaderLength(tx.fcf) + |tx.data| + 2 <= 127
  }

  /** sendframe on one side, interrupt_handler on the other. */
  function Transfer(was: seq<byte>, tx: TxInfo, seqNo: byte, pan: word, peer: seq<byte>, hwmac: seq<byte>, air: Air): Received
    requires Fits(was, tx, peer, hwmac, air)
  {
    hide DestinationMode, SourceMode, WrittenSource;
    DeclaredLength(tx, seqNo, pan, peer, hwmac);
    Read(Delivered(Sent(was, tx, seqNo, pan, peer, hwmac), air))
  }

  /** The written frame has its declared length unless the source mode is short. */
  lemma DeclaredLength(tx: TxInfo, seqNo: byte, pan: word, peer: seq<byte>, hwmac: seq<byte>)
    requires |peer| == 8 && |hwmac| == 8 && |tx.data| <= DATA_SIZE
    ensures var image := Image(tx, seqNo, pan, peer, hwmac);
            && image[1] == HeaderLength(tx.fcf) + |tx.data|
            && |image| == 2 + image[1] - (if SourceMode(tx.fcf) == 2 then 2 else 0)
            && (|image| == 2 + image[1] <==> SourceMode(tx.fcf) != 2)
  {
  }

  /** Source address and data as the receiver sees them, for every mode: the bytes after the destination, cut by mode. */
  lemma FrameReadBack(was: seq<byte>, tx: TxInfo, seqNo: byte, pan: word, peer: seq<byte>, hwmac: seq<byte>, air: Air)
    requires Fits(was, tx, peer, hwmac, air)
    ensures var image := Image(tx, seqNo, pan, peer, hwmac);
            var stale := if SourceMode(tx.fcf) == 2 then was[|image|..|image| + 2] else [];
            var f := Transfer(was, tx, seqNo, pan, peer, hwmac, air);
            && f.fcf == tx.fcf && f.dst == peer[..AddressLength(DestinationMode(tx.fcf))]
            && f.src + f.data == WrittenSource(tx.fcf, hwmac) + tx.data + stale + [air.fcs0, air.fcs1]
            && |f.src| == AddressLength(SourceMode(tx.fcf)) && f.dataLength == |tx.data| + 2 == |f.data|
            && f.lqi == air.lqi && f.rssi == air.rssi
  {
    hide DestinationMode, SourceMode, Sent, Delivered, Image, FcfOf, Read;
    DeclaredLength(tx, seqNo, pan, peer, hwmac);
    SourceWhenLong(tx.fcf, hwmac);
    var image := Image(tx, seqNo, pan, peer, hwmac);
    var sent := Sent(was, tx, seqNo, pan, peer, hwmac);
    ImageParts(was, tx, seqNo, pan, peer, hwmac);
    var fifo := Delivered(sent, air);
    var d, length := AddressLength(DestinationMode(tx.fcf)) as int, image[1] as int;
    var stale := if SourceMode(tx.fcf) == 2 then was[|image|..|image| + 2] else [];
    Segments(sent, air);
    FcfBack(fifo, sent, tx.fcf);
    ReadParts(fifo);
    Cut(fifo, sent, length, d, air);
  }

  /** The fields of a frame that is longer than its header. */
  lemma ReadParts(fifo: seq<byte>)
    requires 256 <= |fifo| && HeaderLength(FcfOf(fifo)) <= fifo[0] <= 127
    ensures var f := Read(fifo);
            var n, d := fifo[0] as int, AddressLength(DestinationMode(f.fcf)) as int;
            && f.fcf == FcfOf(fifo) && f.dst == fifo[6..6 + d] && f.src + f.data == fifo[6 + d..1 + n]
            && |f.src| == AddressLength(SourceMode(f.fcf)) && f.dataLength == n - HeaderLength(f.fcf) == |f.data|
            && f.lqi == fifo[n + 1] && f.rssi == fifo[n + 2]
  {
    hide DestinationMode, SourceMode, FcfOf;
    var n, d, h := fifo[0] as int, AddressLength(DestinationMode(FcfOf(fifo))) as int, HeaderLength(FcfOf(fifo)) as int;
    assert fifo[6 + d..1 + h] + fifo[1 + h..1 + n] == fifo[6 + d..1 + n];
  }

  lemma Cut(fifo: seq<byte>, sent: seq<byte>, n: nat, d: nat, air: Air)
    requires 5 + d <= n <= 125 && 5 + n <= |fifo| && |sent| == MEMORY_SIZE
    requires fifo[1..1 + n] == sent[2..2 + n] && fifo[1 + n..5 + n] == [air.fcs0, air.fcs1, air.lqi, air.rssi]
    ensures fifo[6..6 + d] == sent[7..7 + d]
    ensures fifo[6 + d..3 + n] == sent[7 + d..2 + n] + [air.fcs0, air.fcs1]
    ensures fifo[3 + n] == air.lqi && fifo[4 + n] == air.rssi
  {
    SliceOfSlice(fifo, 1, 1 + n, 5, 5 + d);
    SliceOfSlice(sent, 2, 2 + n, 5, 5 + d);
    SliceOfSlice(fifo, 1, 1 + n, 5 + d, n);
    SliceOfSlice(sent, 2, 2 + n, 5 + d, n);
    SliceOfSlice(fifo, 1 + n, 5 + n, 0, 2);
    var tail := [air.fcs0, air.fcs1, air.lqi, air.rssi];
    assert fifo[3 + n] == fifo[1 + n..5 + n][2] && fifo[4 + n] == fifo[1 + n..5 + n][3];
    assert tail[0..2] == [air.fcs0, air.fcs1];
    assert fifo[6 + d..3 + n] == fifo[6 + d..1 + n] + fifo[1 + n..3 + n];
  }

  lemma SliceOfSlice(s: seq<byte>, i: nat, j: nat, k: nat, l: nat)
    requires i <= j <= |s| && k <= l <= j - i
    ensures s[i..j][k..l] == s[i + k..i + l]
  {
    var t := s[i..j];
    forall m | 0 <= m < l - k
      ensures t[k..l][m] == s[i + k..i + l][m]
    {
      assert t[k + m] == s[i + (k + m)];
    }
  }

  lemma FcfBack(fifo: seq<byte>, sent: seq<byte>, fcf: word)
    requires 256 <= |fifo| && |sent| == MEMORY_SIZE && 2 <= sent[1] <= 125
    requires fifo[1..1 + sent[1]] == sent[2..2 + sent[1]] && sent[2] == fcf % 256 && sent[3] == fcf / 256
    ensures FcfOf(fifo) == fcf
  {
    var n := sent[1] as int;
    assert fifo[1] == fifo[1..1 + n][0] && fifo[2] == fifo[1..1 + n][1];
    assert sent[2] == sent[2..2 + n][0] && sent[3] == sent[2..2 + n][1];
    FieldOf(fcf);
  }

  /** The transmitted part of a sender's memory. */
  lemma ImageParts(was: seq<byte>, tx: TxInfo, seqNo: byte, pan: word, peer: seq<byte>, hwmac: seq<byte>)
    requires |was| == MEMORY_SIZE && |peer| == 8 && |hwmac| == 8
    requires |tx.data| <= DATA_SIZE - 2 && HeaderLength(tx.fcf) + |tx.data| + 2 <= 127
    ensures var image := Image(tx, seqNo, pan, peer, hwmac);
            var sent := Sent(was, tx, seqNo, pan, peer, hwmac);
            var d := AddressLength(DestinationMode(tx.fcf));
            var stale := if SourceMode(tx.fcf) == 2 then was[|image|..|image| + 2] else [];
            && |sent| == MEMORY_SIZE && sent[1] == image[1] && sent[2] == tx.fcf % 256 && sent[3] == tx.fcf / 256
            && sent[7..7 + d] == peer[..d]
            && sent[7 + d..2 + image[1]] == WrittenSource(tx.fcf, hwmac) + tx.data + stale
  {
    hide DestinationMode, SourceMode, WrittenSource;
    DeclaredLength(tx, seqNo, pan, peer, hwmac);
    SourceWhenLong(tx.fcf, hwmac);
    var image := Image(tx, seqNo, pan, peer, hwmac);
    var d := AddressLength(DestinationMode(tx.fcf));
    Pieces(image[..7], peer[..d], WrittenSource(tx.fcf, hwmac), tx.data, was[|image|..], if SourceMode(tx.fcf) == 2 then 2 else 0);
    assert image == image[..7] + peer[..d] + WrittenSource(tx.fcf, hwmac) + tx.data;
    assert was[|image|..][..2] == was[|image|..|image| + 2];
  }

  lemma Pieces(a: seq<byte>, b: seq<byte>, c: seq<byte>, d: seq<byte>, t: seq<byte>, k: nat)
    requires k <= |t|
    ensures var s := a + b + c + d + t;
            && |s| == |a| + |b| + |c| + |d| + |t| && s[..|a|] == a && s[|a|..|a| + |b|] == b
            && s[|a| + |b|..|a| + |b| + |c| + |d| + k] == c + d + t[..k]
  {
    var s := a + b + c + d + t;
    assert s[|a| + |b|..] == c + d + t;
  }

  lemma FieldOf(fcf: word)
    ensures fcf / 256 * 256 + fcf % 256 == fcf
  {
  }

  lemma Segments(sent: seq<byte>, air: Air)
    requires |sent| == MEMORY_SIZE && sent[1] <= 125
    ensures var fifo := Delivered(sent, air);
            && |fifo| == 5 + sent[1] + |air.rest| && fifo[0] == sent[1] + 2
            && fifo[1..1 + sent[1]] == sent[2..2 + sent[1]] && fifo[1 + sent[1]..5 + sent[1]] == [air.fcs0, air.fcs1, air.lqi, air.rssi]
  {
  }

  /** The round trip: without a short source address the receiver gets exactly what was sent, and the check sequence. */
  lemma FrameRoundTrip(was: seq<byte>, tx: TxInfo, seqNo: byte, pan: word, peer: seq<byte>, hwmac: seq<byte>, air: Air)
    requires Fits(was, tx, peer, hwmac, air)
    requires SourceMode(tx.fcf) != 2
    ensures var f := Transfer(was, tx, seqNo, pan, peer, hwmac, air);
            && f.fcf == tx.fcf && f.src == WrittenSource(tx.fcf, hwmac) && f.data == tx.data + [air.fcs0, air.fcs1]
            && f.dst == peer[..AddressLength(DestinationMode(tx.fcf))] && f.dataLength == |tx.data| + 2
  {
    hide DestinationMode, SourceMode, WrittenSource, Sent, Delivered, Read, Transfer;
    FrameReadBack(was, tx, seqNo, pan, peer, hwmac, air);
    SourceWhenLong(tx.fcf, hwmac);
    var f := Transfer(was, tx, seqNo, pan, peer, hwmac, air);
    var source := WrittenSource(tx.fcf, hwmac);
    assert source + tx.data + [] + [air.fcs0, air.fcs1] == source + (tx.data + [air.fcs0, air.fcs1]);
    SplitPoint(f.src, f.data, source, tx.data + [air.fcs0, air.fcs1]);
  }

  lemma SplitPoint(a: seq<byte>, b: seq<byte>, c: seq<byte>, d: seq<byte>)
    requires a + b == c + d && |a| == |c|
    ensures a == c && b == d
  {
    assert (a + b)[..|a|] == a && (c + d)[..|c|] == c;
    assert (a + b)[|a|..] == b && (c + d)[|c|..] == d;
  }

  /** With a short source address the receiver takes the first two payload bytes for it, and two stale bytes for payload. */
  lemma ShortSourceMisread(was: seq<byte>, tx: TxInfo, seqNo: byte, pan: word, peer: seq<byte>, hwmac: seq<byte>, air: Air)
    requires Fits(was, tx, peer, hwmac, air)
    requires SourceMode(tx.fcf) == 2 && 2 <= |tx.data|
    ensures var end := |Image(tx, seqNo, pan, peer, hwmac)|;
            var f := Transfer(was, tx, seqNo, pan, peer, hwmac, air);
            f.src == tx.data[..2] && f.data == tx.data[2..] + was[end..end + 2] + [air.fcs0, air.fcs1]
  {
    hide DestinationMode, SourceMode, WrittenSource, Sent, Delivered, Read, Transfer, Image;
    FrameReadBack(was, tx, seqNo, pan, peer, hwmac, air);
    SourceWhenLong(tx.fcf, hwmac);
    DeclaredLength(tx, seqNo, pan, peer, hwmac);
    var end := |Image(tx, seqNo, pan, peer, hwmac)|;
    var f := Transfer(was, tx, seqNo, pan, peer, hwmac, air);
    var stale := was[end..end + 2];
    assert [] + tx.data + stale + [air.fcs0, air.fcs1] == tx.data[..2] + (tx.data[2..] + stale + [air.fcs0, air.fcs1]);
    SplitPoint(f.src, f.data, tx.data[..2], tx.data[2..] + stale + [air.fcs0, air.fcs1]);
  }

  // ----- interrupts and polls

  /** What happens to the receive flag: a frame arrives, or the main loop looks. */
  datatype Event = Arrival(frame: seq<byte>) | Poll

  /** The flag, the frame that is kept, and the frames handed to the handler. */
  datatype Inbox = Inbox(gotRx: byte, latest: seq<byte>, handled: seq<seq<byte>>)

  function Next(s: Inbox, e: Event): Inbox {
    match e
    case Arrival(f) => s.(gotRx := ((s.gotRx as int) + 1) % 256, latest := f)
    case Poll => if s.gotRx != 0 then s.(gotRx := 0, handled := s.handled + [s.latest]) else s
  }

  function After(es: seq<Event>): Inbox {
    if es == [] then Inbox(0, [], []) else Next(After(es[..|es| - 1]), es[|es| - 1])
  }

  /** The frames that arrived since the last poll. */
  function Pending(es: seq<Event>): seq<seq<byte>> {
    if es == [] then []
    else match es[|es| - 1]
      case Arrival(f) => Pending(es[..|es| - 1]) + [f]
      case Poll => []
  }

  /** A poll hands over the last frame since the previous one, except when their number is a multiple of 256. */
  lemma {:induction false} PollRule(es: seq<Event>)
    ensures After(es).gotRx == |Pending(es)| % 256
    ensures Pending(es) != [] ==> After(es).latest == Pending(es)[|Pending(es)| - 1]
    ensures After(es + [Poll]).handled
         == After(es).handled + (if |Pending(es)| % 256 != 0 then [Pending(es)[|Pending(es)| - 1]] else [])
  {
    assert (es + [Poll])[..|es|] == es;
    if es != [] {
      PollRule(es[..|es| - 1]);
    }
  }
}
