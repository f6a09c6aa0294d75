/** Counter discipline over whole runs of generatemessage calls for one device. */
module Counters {
  import opened Arithmetic
  import opened Bytes
  import opened Commands
  import opened Databases
  import opened FlapRoundTrips
  import opened Generators
  import opened Numerals
  import opened Results
  import opened RoundTrips
  import opened Templates
  import opened Texts
  import opened Timestamps
  import Acks

  datatype Call =
    | ToFeeder(feeder: FeederOp, state: string, at: Stamp, clock: string)
    | ToCatFlap(flap: CatFlapOp, state: string, zone: Zone, at: Stamp, clock: string)

  datatype Exchange = Exchange(call: Call, result: Result<string>)

  predicate IsAck(c: Call) {
    match c
    case ToFeeder(op, _, _, _) => op == FeederAck
    case ToCatFlap(op, _, _, _, _) => op == FlapAck
  }

  /** A command that was sent, with a plain clock word. */
  predicate IsCommand(x: Exchange) {
    x.result.Ok? && !IsAck(x.call) && IsWord(x.call.clock)
  }

  /** Feeders count every command with a time, even one that is then refused; cat flaps all that is sent. */
  predicate Advances(x: Exchange) {
    match x.call
    case ToFeeder(op, _, at, _) => op != FeederAck && Encoded(at).Ok?
    case ToCatFlap(_, _, _, _, _) => x.result.Ok?
  }

  /** The two counter words of a message. */
  function CounterText(message: string): string {
    var words := Words(message);
    if |words| < 7 then "" else words[5] + words[6]
  }

  /** One call: how it moves the send counter, and the counter a command carries. */
  ghost predicate Moves(before: nat, x: Exchange, after: nat) {
    && after == (if Advances(x) then NextSend(before) else before)
    && (IsCommand(x) ==> Advances(x) && CounterText(x.result.value) == ToHex(ToLittle(after, 2)))
  }

  /** The counter before each call of a run, and after the last. */
  ghost predicate Run(sends: seq<nat>, xs: seq<Exchange>) {
    && |sends| == |xs| + 1
    && forall i :: 0 <= i < |xs| ==> Moves(sends[i], xs[i], sends[i + 1])
  }

  function Increments(xs: seq<Exchange>): nat {
    if xs == [] then 0 else Increments(xs[..|xs| - 1]) + (if Advances(xs[|xs| - 1]) then 1 else 0)
  }

  /** generatemessage for a device of either family. */
  method Generate(db: Database, mac: Mac, c: Call) returns (r: Result<string>)
    modifies db`counters
    ensures mac in old(db.counters) ==>
              && mac in db.counters && Moves(old(db.counters)[mac].send, Exchange(c, r), db.counters[mac].send)
              && db.Rows() == old(db.Rows()).SetSend(mac, db.counters[mac].send)
    ensures mac !in old(db.counters) ==> db.Rows() == old(db.Rows())
  {
    hide CounterText, IsWord, Encoded, FeederMessage, CatFlapMessage, ToHex, ToLittle, NextSend, EntriesOf;
    ghost var rows := db.Rows();
    Acks.SetSame(rows, mac);
    ghost var send := if mac in rows.counters then NextSend(rows.counters[mac].send) else 0;
    Acks.SetTwice(rows, mac, 0, send);
    match c
    case ToFeeder(op, state, at, clock) =>
      r := GenerateFeeder(db, mac, op, state, at, clock);
      if mac in rows.counters && IsCommand(Exchange(c, r)) {
        FeederCarries(op, state, send, at, clock);
      }
    case ToCatFlap(op, state, zone, at, clock) =>
      ghost var entries;
      ghost var lm := if mac in db.doors then db.doors[mac].lockingMode else 0;
      r, entries := GenerateCatFlap(db, mac, op, state, zone, at, clock);
      if mac in rows.counters && IsCommand(Exchange(c, r)) {
        CatFlapCarries(op, state, if op.Keep? then lm else 0, entries, send, at, clock);
      }
  }

  /** Any run of calls is a Run. */
  method GenerateAll(db: Database, mac: Mac, calls: seq<Call>) returns (rs: seq<Result<string>>, ghost sends: seq<nat>)
    requires mac in db.counters
    modifies db`counters
    ensures |rs| == |calls| && Run(sends, seq(|calls|, i requires 0 <= i < |calls| => Exchange(calls[i], rs[i])))
    ensures mac in db.counters && sends[0] == old(db.counters)[mac].send && sends[|calls|] == db.counters[mac].send
    ensures db.Rows() == old(db.Rows()).SetSend(mac, sends[|calls|])
  {
    hide Moves;
    rs, sends := [], [db.counters[mac].send];
    Acks.SetSame(db.Rows(), mac);
    for n := 0 to |calls|
      invariant |rs| == n && |sends| == n + 1 && mac in db.counters && mac in old(db.counters)
      invariant sends[0] == old(db.counters)[mac].send && sends[n] == db.counters[mac].send
      invariant db.Rows() == old(db.Rows()).SetSend(mac, sends[n])
      invariant forall i :: 0 <= i < n ==> Moves(sends[i], Exchange(calls[i], rs[i]), sends[i + 1])
    {
      var r := Generate(db, mac, calls[n]);
      Acks.SetTwice(old(db.Rows()), mac, sends[n], db.counters[mac].send);
      rs, sends := rs + [r], sends + [db.counters[mac].send];
    }
  }

  // ----- the counter in a message

  lemma SevenWords(w: seq<string>, rest: string, text: string)
    requires |w| == 7 && forall i :: 0 <= i < 7 ==> IsWord(w[i])
    requires text == w[0] + " " + (w[1] + " " + (w[2] + " " + (w[3] + " " + (w[4] + " " + (w[5] + " " + (w[6] + " " + rest))))))
    ensures CounterText(text) == w[5] + w[6]
  {
    hide Words;
    WordsCons(w[6], rest);
    var t5 := w[6] + " " + rest;
    WordsCons(w[5], t5);
    var t4 := w[5] + " " + t5;
    WordsCons(w[4], t4);
    var t3 := w[4] + " " + t4;
    WordsCons(w[3], t3);
    var t2 := w[3] + " " + t3;
    WordsCons(w[2], t2);
    var t1 := w[2] + " " + t2;
    WordsCons(w[1], t1);
    WordsCons(w[0], w[1] + " " + t1);
    assert Words(text) == w + Words(rest);
  }

  lemma SpacedPair(a: byte, b: byte)
    ensures Spaced([a, b]) == Hex2(a) + " " + Hex2(b)
    ensures ToHex([a, b]) == Hex2(a) + Hex2(b)
  {
    hide Hex2, IsPrinted;
    assert [a, b] == [a] + [b] && [b] == [b] + [];
    ToHexCons(a, [b]);
    ToHexCons(b, []);
    var h, k := Hex2(a), Hex2(b);
    assert ToHex([b]) == k + "" == k;
    assert (h + k)[..2] == h && (h + k)[2..] == k;
    assert SplitByte(h + k) == h + " " + SplitByte(k);
  }

  /** A message on a template with a header carries the counter it was given. */
  lemma HeaderCarries(clock: string, op: byte, body: Template, env: map<string, string>, bs: seq<byte>)
    requires IsWord(clock) && |bs| == 2 && ZZ in env && env[ZZ] == Spaced(bs)
    ensures CounterText(Message(clock, Header(op, body), env)) == ToHex(bs)
  {
    hide IsWord, Tail, Spaced, CounterText, Hex2, TT, ZZ, Header, Message, ToHex;
    LiteralWords();
    HexWord(op);
    HexWord(0);
    HexWord(bs[0]);
    HexWord(bs[1]);
    SpacedPair(bs[0], bs[1]);
    assert bs == [bs[0], bs[1]];
    HeaderText(clock, op, body, env, bs[0], bs[1]);
    SevenWords([clock, "1000", "127", Hex2(op), Hex2(0), Hex2(bs[0]), Hex2(bs[1])], Tail(Slot(TT, body), env)[1..],
               Message(clock, Header(op, body), env));
  }

  lemma HeaderText(clock: string, op: byte, body: Template, env: map<string, string>, a: byte, b: byte)
    requires ZZ in env && env[ZZ] == Spaced([a, b])
    ensures Tail(Slot(TT, body), env) != ""
    ensures Message(clock, Header(op, body), env)
         == clock + " " + ("1000" + " " + ("127" + " " + (Hex2(op) + " " + (Hex2(0) + " " + (Hex2(a) + " "
            + (Hex2(b) + " " + Tail(Slot(TT, body), env)[1..]))))))
  {
    hide Hex2, Spaced, TT, ZZ;
    SpacedPair(op, 0);
    SpacedPair(a, b);
    var tail := Tail(Slot(TT, body), env);
    assert tail == " " + tail[1..];
    assert Tail(Header(op, body), env)
        == " " + (Hex2(op) + " " + Hex2(0)) + (" " + (Hex2(a) + " " + Hex2(b)) + tail);
    Regrouped(clock, Hex2(op), Hex2(0), Hex2(a), Hex2(b), tail[1..]);
  }

  lemma Regrouped(clock: string, h: string, i: string, j: string, k: string, rest: string)
    ensures clock + " 1000 " + ("127" + (" " + (h + " " + i) + (" " + (j + " " + k) + (" " + rest))))
         == clock + " " + ("1000" + " " + ("127" + " " + (h + " " + (i + " " + (j + " " + (k + " " + rest))))))
  {
    assert " 1000 " + ("127" + (" " + (h + " " + i))) == " " + ("1000" + " " + ("127" + " " + (h + " " + i)));
  }

  lemma FeederCarries(op: FeederOp, state: string, send: nat, now: Stamp, clock: string)
    requires op != FeederAck && IsWord(clock)
    ensures FeederMessage(op, state, send, now, clock).Ok? ==> CounterText(FeederMessage(op, state, send, now, clock).value) == ToHex(ToLittle(send, 2))
  {
    hide FeederMessage, FeederArguments, Encoded, FeederBody, FeederType, CounterText, IsWord, Message, Header, ToHex, ToLittle, Spaced, ZZ, TT;
    FeederMessageParts(op, state, send, now, clock);
    if FeederMessage(op, state, send, now, clock).Ok? {
      var env := Slots(send, Encoded(now).value);
      SlotsApart();
      StandardKept(op, state, env);
      HeaderCarries(clock, FeederType(op), FeederBody(op), FeederArguments(op, state, env).value, ToLittle(send, 2));
    }
  }

  lemma CatFlapCarries(op: CatFlapOp, state: string, lm: int, entries: Result<string>, send: nat, now: Stamp, clock: string)
    requires op != FlapAck && IsWord(clock)
    ensures CatFlapMessage(op, state, lm, entries, send, now, clock).Ok? ==> CounterText(CatFlapMessage(op, state, lm, entries, send, now, clock).value) == ToHex(ToLittle(send, 2))
  {
    hide CatFlapMessage, CatFlapArguments, Encoded, CatFlapBody, CatFlapType, CounterText, IsWord, Message, Header, ToHex, ToLittle, Spaced, ZZ, TT, AllSlots;
    CatFlapMessageParts(op, state, lm, entries, send, now, clock);
    if CatFlapMessage(op, state, lm, entries, send, now, clock).Ok? {
      AllSlotsStandard(op, CatFlapArguments(op, state, entries).value, send, Encoded(now).value);
      var env := AllSlots(op, CatFlapArguments(op, state, entries).value, send, Encoded(now).value);
      HeaderCarries(clock, CatFlapType(op), CatFlapBody(op, state, lm), env, ToLittle(send, 2));
    }
  }

  /** Two counters below 65536 print alike only if they are equal. */
  lemma CounterTextInjective(m: nat, n: nat)
    requires m < 65536 && n < 65536
    ensures ToHex(ToLittle(m, 2)) == ToHex(ToLittle(n, 2)) <==> m == n
  {
    hide ToHex, ToLittle, FromHex, FromLittle, Pow;
    PowersOfSixteen();
    HexRoundTrip(ToLittle(m, 2));
    HexRoundTrip(ToLittle(n, 2));
    LittleRoundTrip(m, 2);
    LittleRoundTrip(n, 2);
  }

  // ----- whole runs

  lemma {:induction false} IncrementsAppend(xs: seq<Exchange>, ys: seq<Exchange>)
    ensures Increments(xs + ys) == Increments(xs) + Increments(ys)
    decreases |ys|
  {
    hide Advances;
    if ys == [] {
      assert xs + ys == xs;
    } else {
      var n := |ys| - 1;
      IncrementsAppend(xs, ys[..n]);
      assert (xs + ys)[..|xs| + n] == xs + ys[..n];
    }
  }

  lemma {:induction false} IncrementsBound(xs: seq<Exchange>)
    ensures Increments(xs) <= |xs|
    ensures xs != [] && Advances(xs[|xs| - 1]) ==> 0 < Increments(xs)
  {
    hide Advances;
    if xs != [] {
      IncrementsBound(xs[..|xs| - 1]);
    }
  }

  /** The counter is the start plus the number of increments, in sixteen bits. */
  lemma {:induction false} SendCounted(sends: seq<nat>, xs: seq<Exchange>, i: nat)
    requires Run(sends, xs) && sends[0] < 65536 && i <= |xs|
    ensures sends[i] == (sends[0] + Increments(xs[..i])) % 65536
    ensures sends[i] < 65536 && Encode(sends[i], 2).Ok?
    decreases i
  {
    hide IsCommand, Advances, CounterText, ToHex, ToLittle, NextSend, Pow;
    PowersOfSixteen();
    if i == 0 {
    } else {
      SendCounted(sends, xs, i - 1);
      assert xs[..i][..i - 1] == xs[..i - 1];
      assert Moves(sends[i - 1], xs[i - 1], sends[i]);
      Wraps(sends[0] + Increments(xs[..i - 1]));
    }
  }

  lemma Wraps(n: nat)
    ensures NextSend(n % 65536) == (n + 1) % 65536
  {
  }

  lemma Repeats(n: nat, d: nat)
    ensures n % 65536 == (n + d) % 65536 <==> d % 65536 == 0
  {
  }

  /** Two commands carry the same counter iff the increments between them are a multiple of 65536. */
  lemma CountersRepeat(sends: seq<nat>, xs: seq<Exchange>, i: nat, j: nat)
    requires Run(sends, xs) && sends[0] < 65536 && i < j < |xs| && IsCommand(xs[i]) && IsCommand(xs[j])
    ensures CounterText(xs[i].result.value) == CounterText(xs[j].result.value)
       <==> Increments(xs[i + 1..j + 1]) % 65536 == 0
  {
    hide IsCommand, Advances, CounterText, ToHex, ToLittle, NextSend, Increments, Encode;
    SendCounted(sends, xs, i + 1);
    SendCounted(sends, xs, j + 1);
    assert Moves(sends[i], xs[i], sends[i + 1]) && Moves(sends[j], xs[j], sends[j + 1]);
    CounterTextInjective(sends[i + 1], sends[j + 1]);
    IncrementsAppend(xs[..i + 1], xs[i + 1..j + 1]);
    assert xs[..i + 1] + xs[i + 1..j + 1] == xs[..j + 1];
    Repeats(sends[0] + Increments(xs[..i + 1]), Increments(xs[i + 1..j + 1]));
  }

  /** In up to 65536 calls no two commands carry the same counter. */
  lemma CountersDistinct(sends: seq<nat>, xs: seq<Exchange>, i: nat, j: nat)
    requires Run(sends, xs) && sends[0] < 65536 && |xs| <= 65536
    requires i < j < |xs| && IsCommand(xs[i]) && IsCommand(xs[j])
    ensures CounterText(xs[i].result.value) != CounterText(xs[j].result.value)
  {
    hide IsCommand, Advances, CounterText, ToHex, ToLittle, NextSend, Increments;
    CountersRepeat(sends, xs, i, j);
    var between := xs[i + 1..j + 1];
    assert between[|between| - 1] == xs[j];
    assert Moves(sends[j], xs[j], sends[j + 1]);
    IncrementsBound(between);
  }

  /** Acknowledging k frames of a cat flap advances its counter k times. */
  lemma {:induction false} AcksAdvance(send: nat, k: nat)
    requires send < 65536
    ensures Acks.Advanced(send, k) == (send + k) % 65536
  {
    hide NextSend;
    if k == 0 {
    } else {
      AcksAdvance(send, k - 1);
      Wraps(send + k - 1);
    }
  }
}
