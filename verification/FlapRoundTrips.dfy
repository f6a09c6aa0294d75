/** Acknowledgements, and what cat flap messages are read back as. */
module FlapRoundTrips {
  import opened Arithmetic
  import opened Bytes
  import opened Chips
  import opened Commands
  import opened Constants
  import opened Databases
  import opened Generators
  import opened Numerals
  import opened Results
  import opened RoundTrips
  import opened Templates
  import opened Texts
  import opened Timestamps
  import F = Frames

  // ----- acknowledgements

  /** "type-counter", as the handlers pass it on from a decoded frame. */
  function AckState(msg: string, counter: string): string {
    msg + "-" + counter
  }

  lemma AckStateParses(kind: byte, counter: nat)
    requires counter < 65536
    ensures AckArguments(AckState(Hex2(kind), Numeral(10, counter))) == Ok((Hex2(kind), Spaced(ToLittle(counter, 2))))
  {
    hide Hex2, Numeral, Split, ParseInt, Spaced, ToLittle, Pow, Value, Free;
    PowersOfSixteen();
    Hex2Value(kind);
    HexHasNoDash(Hex2(kind));
    DecimalHasNoDash(Numeral(10, counter));
    SplitAppend(Hex2(kind), '-', Numeral(10, counter), {'-'});
    SplitFree(Numeral(10, counter), {'-'});
    ParsePrinted(16, Hex2(kind));
    ParsePrinted(10, Numeral(10, counter));
    ValueOfNumeral(10, counter);
  }

  lemma HexHasNoDash(s: string)
    requires IsPrinted(16, s)
    ensures Free(s, {'-'})
  {
    assert DigitValue('-') == 16;
  }

  lemma DecimalHasNoDash(s: string)
    requires IsPrinted(10, s)
    ensures Free(s, {'-'})
  {
    assert DigitValue('-') == 16;
  }

  /** An acknowledgement decodes to the type and counter it acknowledges, and to Operation Ack. */
  lemma AckRoundTrip(t: Tables, device: Mac, kind: byte, counter: nat, now: Stamp, clock: string)
    requires counter < 65536 && InRange(now) && IsWord(clock)
    ensures AckMessage(AckState(Hex2(kind), Numeral(10, counter)), now, clock).Ok?
    ensures DecodeMessage(t, device, AckMessage(AckState(Hex2(kind), Numeral(10, counter)), now, clock).value)
         == Ok(F.Frame("00", Numeral(10, counter), Text(now), F.Ack(Hex2(kind))))
    ensures Encoded(now).Ok?
    ensures Payload(AckMessage(AckState(Hex2(kind), Numeral(10, counter)), now, clock).value)
         == Ok(FrameBytes(0x00, counter, Encoded(now).value, [kind] + [0x00, 0x00]))
  {
    hide ZZ, TT, SS, Hex2, Numeral, Encoded, Spaced, ToLittle, AckArguments, AckState, Payload, Message, FeederTemplate, NoSpaces,
      ToHex, Text, F.Decode, F.DecodeBody, AckTemplate, FrameBytes, FeederBody, InRange, IsWord, Hb;
    var bs := StampRoundTrip(now);
    AckStateParses(kind, counter);
    AckHasType();
    SlotsDistinct();
    hide Distinct;
    Hex2Value(kind);
    HbWritten(kind);
    SpacedHex(ToLittle(counter, 2));
    SpacedHex(bs);
    var env := map[SS := Hex2(kind), ZZ := Spaced(ToLittle(counter, 2)), TT := Spaced(bs)];
    var args := map[SS := [kind]];
    FeederFrameText(clock, FeederAck, env, args, counter, bs);
    AckDecodes(t, device, counter, bs, kind);
    HeaderDecodes(t, device, 0x00, counter, now, bs, [kind] + [0x00, 0x00]);
    ZeroHb();
  }

  lemma ZeroHb()
    ensures Hb(0) == "00"
  {
    Hex2Value(0);
    SmallHex();
  }

  lemma AckDecodes(t: Tables, device: Mac, counter: nat, stamp: seq<byte>, kind: byte)
    requires |stamp| == 4
    ensures F.DecodeBody(t, device, FrameBytes(0x00, counter, stamp, [kind] + [0x00, 0x00])) == Ok(F.Ack(Hex2(kind)))
  {
    hide FrameBytes, Hex2, Hb;
    var rest := [kind] + [0x00, 0x00];
    FrameParts(0x00, counter, stamp, rest);
    Hex2Value(kind);
    assert rest[0] == kind;
  }

  // ----- cat flap bodies

  /** The name and number the decoder gives each lock state. */
  function LockName(op: LockOp): string {
    match op
    case Unlocked => "Unlocked"
    case LockKeepIn => "KeepIn"
    case LockKeepOut => "KeepOut"
    case Locked => "Locked"
  }

  function LockNumber(op: LockOp): int {
    match op
    case Unlocked => 0
    case LockKeepIn => 1
    case LockKeepOut => 2
    case Locked => 3
  }

  function LockBytes(op: LockOp): seq<byte> {
    [0x00, 0x00, 0x00, 0x00, 0x00, 0x00, 0x07, LockByte(op), 0x00, 0x02]
  }

  lemma LockDecodes(t: Tables, device: Mac, counter: nat, stamp: seq<byte>, op: LockOp)
    requires |stamp| == 4
    ensures F.DecodeBody(t, device, FrameBytes(0x11, counter, stamp, LockBytes(op))) == Ok(F.LockState(LockName(op), LockNumber(op)))
  {
    hide FrameBytes, BytesToTag;
    var rest := LockBytes(op);
    FrameParts(0x11, counter, stamp, rest);
    assert rest[7] == LockByte(op) && rest[8] == 0 && rest[9] == 2;
    var v := FrameBytes(0x11, counter, stamp, rest);
    assert v[8 + 7] == LockByte(op) && v[8 + 8] == 0 && v[8 + 9] == 2;
  }

  // ----- curfews

  function CurfewTexts(pairs: seq<(Stamp, Stamp)>): seq<(string, string)> {
    if pairs == [] then []
    else [(Text(pairs[0].0.(second := 0)), Text(pairs[0].1.(second := 0)))] + CurfewTexts(pairs[1..])
  }

  predicate AllInRange(pairs: seq<(Stamp, Stamp)>) {
    forall p :: p in pairs ==> InRange(p.0) && InRange(p.1)
  }

  lemma CurfewTimeParses(t: Stamp) returns (bs: seq<byte>)
    requires InRange(t)
    ensures |bs| == 4 && FromText(CurfewTime(t)) == Ok(ToHex(bs)) && ToText(bs) == Text(t.(second := 0))
  {
    hide Encoded, FromText, TwoDigits, ToHex, Text, ToText, Separated;
    bs := StampRoundTrip(t.(second := 0));
    EmptyPrinted();
    ParseSeparated("", t.(second := 0), " ", " ", " ");
    assert "" + TwoDigits(t.year) == TwoDigits(t.year);
  }

  lemma EmptyPrinted()
    ensures IsPrinted(10, "")
  {
  }

  lemma EntryDecodes(p: (Stamp, Stamp), rest: seq<byte>)
    requires InRange(p.0) && InRange(p.1)
    ensures CurfewEntry(p).Ok? && |CurfewEntry(p).value| == 9
    ensures F.CurfewEntries(CurfewEntry(p).value + rest)
         == Prepend([(Text(p.0.(second := 0)), Text(p.1.(second := 0)))], F.CurfewEntries(rest))
  {
    hide FromText, CurfewTime, ToHex, ToText, Text, FromHex;
    var a := CurfewTimeParses(p.0);
    var b := CurfewTimeParses(p.1);
    ToHexAppend(a, b);
    HexRoundTrip(a + b);
    var es := CurfewEntry(p).value + rest;
    assert CurfewEntry(p).value == a + b + [0x03];
    assert es[0..4] == a && es[4..8] == b && es[8] == 0x03 && es[9..] == rest;
  }

  lemma {:induction false} FillersVanish(k: nat)
    ensures F.CurfewEntries(Fillers(k)) == Ok([]) && |Fillers(k)| == 9 * k
  {
    hide ToText;
    if k != 0 {
      FillersVanish(k - 1);
      var es := Fillers(k);
      assert es == FILLER + Fillers(k - 1);
      assert es[8] == 0x06 && es[9..] == Fillers(k - 1);
      PrependTwice([], [], F.CurfewEntries(Fillers(k - 1)));
    }
  }

  /** Every list of curfews decodes to exactly its pairs in order; the fillers vanish. */
  lemma {:induction false} CurfewRoundTrip(pairs: seq<(Stamp, Stamp)>, count: nat)
    requires AllInRange(pairs)
    ensures CurfewBytes(pairs, count).Ok?
    ensures F.CurfewEntries(CurfewBytes(pairs, count).value) == Ok(CurfewTexts(pairs))
    ensures |CurfewBytes(pairs, count).value| == 9 * (if |pairs| + count < 4 then 4 - count else |pairs|)
    decreases |pairs|
  {
    hide Text, CurfewEntry;
    if pairs == [] {
      FillersVanish(if count < 4 then 4 - count else 0);
    } else {
      CurfewRoundTrip(pairs[1..], count + 1);
      EntryDecodes(pairs[0], CurfewBytes(pairs[1..], count + 1).value);
    }
  }

  lemma CurfewDecodes(t: Tables, device: Mac, counter: nat, stamp: seq<byte>, entries: seq<byte>)
    requires |stamp| == 4
    ensures F.DecodeBody(t, device, FrameBytes(0x12, counter, stamp, [0x00, 0x00, 0x00, 0x00, 0x00, 0x00, 0x07, 0x00] + entries))
         == match F.CurfewEntries(entries) { case Ok(es) => Ok(F.Curfew(es)) case Err(e) => Err(e) }
  {
    hide FrameBytes, F.CurfewEntries;
    var rest := [0x00, 0x00, 0x00, 0x00, 0x00, 0x00, 0x07, 0x00] + entries;
    FrameParts(0x12, counter, stamp, rest);
    var v := FrameBytes(0x12, counter, stamp, rest);
    assert F.Slice(v, 16, |v| + 16) == v[8..][8..] == entries;
  }

  // ----- cat flap messages

  /** "index-chip-lock-state", inside the range the frame can carry. */
  ghost predicate GoodFlapTag(state: string) {
    var parts := Split(state, {'-'});
    && |parts| == 4 && ParseInt(10, parts[0]).Ok? && ParseInt(10, parts[0]).value < 256 && GoodChip(parts[1])
    && !(ParseInt(10, parts[0]).value == 0 && parts[3] == "LockState")
  }

  /** Names that are not members stand for KeepIn and Enabled. */
  function FlapLock(name: string): byte {
    match CatFlapLockStateValue(name)
    case Some(v) => v
    case None => 0x03
  }

  function FlapTagState(name: string): byte {
    match TagStateValue(name)
    case Some(v) => v
    case None => 0x00
  }

  ghost predicate CatFlapMeans(t: Tables, op: CatFlapOp, state: string, lm: int, zone: Zone, body: F.Body) {
    match op
    case FlapAck => false
    case FlapGet =>
      || (state == "Boot9" && body == F.Query("09", "00ff"))
      || (state == "Unknown0b" && body == F.Query("0b", "00"))
      || (state == "Battery" && body == F.Query("0c", "00"))
      || (state == "Boot10" && body == F.Query("10", "00"))
      || (state == "Tags" && body == F.Query("11", "00ff"))
      || (state == "Boot17" && body == F.Query("17", "0000"))
    case FlapSetTime => body == F.Time("0000000007")
    case Lock(lock) => body == F.LockState(LockName(lock), LockNumber(lock))
    case Keep(side) => body == F.LockState(LockName(LockChoice(side, state, lm)), LockNumber(LockChoice(side, state, lm)))
    case FlapTag =>
      var parts := Split(state, {'-'});
      |parts| == 4 && ParseInt(10, parts[0]).Ok?
      && body == F.Tag(t.Animal(Some(Lower(parts[1]))), CatFlapLockStateName(FlapLock(parts[2])), FlapLock(parts[2]),
                       ParseInt(10, parts[0]).value, TagStateName(FlapTagState(parts[3])))
    case FlapCurfew => Parsed(CurfewsOf(state), zone).Ok? && body == F.Curfew(CurfewTexts(Parsed(CurfewsOf(state), zone).value))
  }

  ghost predicate CatFlapArgs(op: CatFlapOp, state: string, zone: Zone, args: map<string, seq<byte>>) {
    && CatFlapSlots(op) <= args.Keys
    && match op
       case FlapGet => Denotes(CatFlapChoices(), 10, state, args[SS])
       case FlapCurfew =>
         var pairs := Parsed(CurfewsOf(state), zone);
         pairs.Ok? && AllInRange(pairs.value) && CurfewBytes(pairs.value, 0) == Ok(args[AA])
       case FlapTag =>
         var parts := Split(state, {'-'});
         && GoodFlapTag(state)
         && args[SS] == [FlapTagState(parts[3])] && args[KK] == [FlapLock(parts[2])] && args[II] == [ParseInt(10, parts[0]).value]
         && |args[CC]| == 7 && args[CC][6] in {0x01, 0x03} && BytesToTag(args[CC]) == Ok(Some(Lower(parts[1])))
       case _ => true
  }

  function CatFlapBytes(op: CatFlapOp, state: string, lm: int, args: map<string, seq<byte>>): seq<byte>
    requires CatFlapSlots(op) <= args.Keys
  {
    match op
    case FlapAck => args[SS] + [0x00, 0x00]
    case FlapGet => args[SS]
    case FlapSetTime => [0x00, 0x00, 0x00, 0x00, 0x07]
    case Lock(lock) => LockBytes(lock)
    case Keep(side) => LockBytes(LockChoice(side, state, lm))
    case FlapTag => args[CC] + args[KK] + args[II] + args[SS]
    case FlapCurfew => [0x00, 0x00, 0x00, 0x00, 0x00, 0x00, 0x07, 0x00] + args[AA]
  }

  lemma CatFlapFilled(op: CatFlapOp, state: string, lm: int, args: map<string, seq<byte>>)
    requires CatFlapSlots(op) <= args.Keys
    ensures Open(CatFlapBody(op, state, lm), map[]) <= args.Keys
    ensures Filled(CatFlapBody(op, state, lm), args) == CatFlapBytes(op, state, lm, args)
  {
    hide ZZ, TT, SS, WW, LL, CM, CC, II, KK, AA, LockChoice;
    match op
    case FlapAck => FilledTwo([], SS, [0x00, 0x00], args);
    case FlapGet => FilledOne([], SS, args);
    case FlapCurfew => FilledOne([0x00, 0x00, 0x00, 0x00, 0x00, 0x00, 0x07, 0x00], AA, args);
    case FlapTag => FilledFlapTag(args);
    case _ =>
  }

  lemma FilledFlapTag(args: map<string, seq<byte>>)
    requires {CC, KK, II, SS} <= args.Keys
    ensures var t := Slot(CC, Slot(KK, Slot(II, Slot(SS, Done))));
            Open(t, map[]) <= args.Keys && Filled(t, args) == args[CC] + args[KK] + args[II] + args[SS]
  {
    hide SS, CC, II, KK;
    FilledOne([], SS, args);
    var i := Slot(II, Slot(SS, Done));
    var k := Slot(KK, i);
    assert Open(i, map[]) == {II, SS} && Open(k, map[]) == {KK, II, SS};
    assert Filled(i, args) == args[II] + args[SS];
    assert Filled(k, args) == args[KK] + (args[II] + args[SS]);
    assert Filled(Slot(CC, k), args) == args[CC] + (args[KK] + (args[II] + args[SS]));
    assert args[CC] + (args[KK] + (args[II] + args[SS])) == args[CC] + args[KK] + args[II] + args[SS];
  }

  lemma CatFlapBodyDecodes(t: Tables, device: Mac, op: CatFlapOp, state: string, lm: int, zone: Zone,
                           args: map<string, seq<byte>>, counter: nat, stamp: seq<byte>)
    returns (body: F.Body)
    requires op != FlapAck && |stamp| == 4 && CatFlapArgs(op, state, zone, args)
    ensures F.DecodeBody(t, device, FrameBytes(CatFlapType(op), counter, stamp, CatFlapBytes(op, state, lm, args))) == Ok(body)
    ensures CatFlapMeans(t, op, state, lm, zone, body)
  {
    hide ZZ, TT, SS, WW, LL, CM, CC, II, KK, AA, FrameBytes, F.DecodeBody, CatFlapChoices, ToHex, Hex2, Split, GoodChip, BytesToTag,
      LockChoice, LockBytes, LockName, LockNumber, CurfewTexts, CurfewBytes, CatFlapLockStateName, TagStateName, Parsed, CurfewsOf;
    match op
    case FlapGet =>
      FlapChoicesKnown(state, args[SS]);
      QueryTexts();
      QueryDecodes(t, device, counter, stamp, args[SS]);
      body := F.Query(Hex2(args[SS][0]), ToHex(args[SS][1..]));
    case FlapSetTime =>
      TimeDecodes(t, device, counter, stamp);
      body := F.Time("0000000007");
    case Lock(lock) =>
      LockDecodes(t, device, counter, stamp, lock);
      body := F.LockState(LockName(lock), LockNumber(lock));
    case Keep(side) =>
      var lock := LockChoice(side, state, lm);
      LockDecodes(t, device, counter, stamp, lock);
      body := F.LockState(LockName(lock), LockNumber(lock));
    case FlapTag =>
      var parts := Split(state, {'-'});
      var index := ParseInt(10, parts[0]).value;
      FlapTagNames(parts[3]);
      NeverEmpty(parts[1]);
      TagDecodes(t, device, counter, stamp, args[CC], FlapLock(parts[2]), index, FlapTagState(parts[3]));
      body := F.Tag(t.Animal(Some(Lower(parts[1]))), CatFlapLockStateName(FlapLock(parts[2])), FlapLock(parts[2]), index,
                    TagStateName(FlapTagState(parts[3])));
      assert args[CC] + args[KK] + args[II] + args[SS] == args[CC] + [FlapLock(parts[2]), index, FlapTagState(parts[3])];
    case FlapCurfew =>
      var pairs := Parsed(CurfewsOf(state), zone).value;
      CurfewRoundTrip(pairs, 0);
      CurfewDecodes(t, device, counter, stamp, args[AA]);
      body := F.Curfew(CurfewTexts(pairs));
  }

  lemma FlapTagNames(name: string)
    ensures FlapTagState(name) == 2 <==> name == "LockState"
  {
  }

  /** What stands for a name among the cat flap's choices, none of which is a single byte. */
  ghost predicate FlapChosen(state: string, bs: seq<byte>) {
    || (state == "Boot9" && bs == [0x09, 0x00, 0xff])
    || (state == "Unknown0b" && bs == [0x0b, 0x00])
    || (state == "Battery" && bs == [0x0c, 0x00])
    || (state == "Boot10" && bs == [0x10, 0x00])
    || (state == "Tags" && bs == [0x11, 0x00, 0xff])
    || (state == "Boot17" && bs == [0x17, 0x00, 0x00])
  }

  lemma FlapChoicesKnown(state: string, bs: seq<byte>)
    ensures Denotes(CatFlapChoices(), 10, state, bs) <==> FlapChosen(state, bs)
  {
    hide ParseInt;
    NamesDiffer();
    var c := CatFlapChoices();
    assert c["Boot9"] == [0x09, 0x00, 0xff] && c["Unknown0b"] == [0x0b, 0x00] && c["Battery"] == [0x0c, 0x00];
    assert c["Boot10"] == [0x10, 0x00] && c["Tags"] == [0x11, 0x00, 0xff] && c["Boot17"] == [0x17, 0x00, 0x00];
    assert c.Keys == {"Boot9", "Unknown0b", "Battery", "Boot10", "Tags", "Boot17"};
  }

  lemma FlapChoiceAccepted(state: string)
    ensures (exists bs :: Denotes(CatFlapChoices(), 10, state, bs))
       <==> state in {"Boot9", "Unknown0b", "Battery", "Boot10", "Tags", "Boot17"}
  {
    hide Denotes, CatFlapChoices;
    forall bs
      ensures Denotes(CatFlapChoices(), 10, state, bs) <==> FlapChosen(state, bs)
    {
      FlapChoicesKnown(state, bs);
    }
    if state in {"Boot9", "Unknown0b", "Battery", "Boot10", "Tags", "Boot17"} {
      var bs: seq<byte> :=
        if state == "Boot9" then [0x09, 0x00, 0xff] else if state == "Unknown0b" then [0x0b, 0x00]
        else if state == "Battery" then [0x0c, 0x00] else if state == "Boot10" then [0x10, 0x00]
        else if state == "Tags" then [0x11, 0x00, 0xff] else [0x17, 0x00, 0x00];
      assert FlapChosen(state, bs);
    }
  }

  /** The zone turns every time of day into a moment that can be encoded: years 2000 to 2063. */
  ghost predicate ZoneInRange(zone: Zone) {
    forall h: nat, m: nat :: InRange(zone(h, m))
  }

  lemma {:induction false} ParsedInRange(curs: seq<string>, zone: Zone)
    requires ZoneInRange(zone) && Parsed(curs, zone).Ok?
    ensures AllInRange(Parsed(curs, zone).value)
    decreases |curs|
  {
    hide ParseClock, InRange;
    if curs != [] {
      ParsedInRange(curs[1..], zone);
    }
  }

  /** The accepted arguments are written as those bytes. */
  lemma CatFlapArgsWritten(op: CatFlapOp, state: string, zone: Zone, entries: Result<string>, send: nat, stamp: seq<byte>)
    returns (args: map<string, seq<byte>>)
    requires op != FlapAck && CatFlapArguments(op, state, entries).Ok?
    requires op == FlapTag ==> GoodFlapTag(state)
    requires op == FlapCurfew ==> ZoneInRange(zone) && EntriesOf(entries, state, zone) && Parsed(CurfewsOf(state), zone).Ok?
    ensures CatFlapArgs(op, state, zone, args)
    ensures forall p :: p in CatFlapSlots(op) ==> Writes(AllSlots(op, CatFlapArguments(op, state, entries).value, send, stamp), args, p)
  {
    hide ZZ, TT, SS, WW, LL, CM, CC, II, KK, AA, NoSpaces, ToHex, FromHex, Choose, Denotes, CatFlapChoices, Split, GoodChip, CurfewBytes, NoUpper,
      Parsed, CurfewsOf, StateCurfews, InRange, Slots;
    args := map[];
    FlapStandardApart(op);
    SlotsKeys(send, stamp);
    if op == FlapGet {
      var bs := ChosenDenotes(CatFlapChoices(), 10, state);
      HexRoundTrip(bs);
      args := map[SS := bs];
    } else if op == FlapCurfew {
      var pairs := Parsed(CurfewsOf(state), zone).value;
      ParsedInRange(CurfewsOf(state), zone);
      ParsedCurfews(CurfewsOf(state), zone, 0);
      CurfewRoundTrip(pairs, 0);
      HexRoundTrip(CurfewBytes(pairs, 0).value);
      args := map[AA := CurfewBytes(pairs, 0).value];
    } else if op == FlapTag {
      args := FlapTagWritten(state, zone, entries, send, stamp);
    }
  }

  lemma {:induction false} SplitByteFree(s: string, c: char)
    requires Free(s, {c}) && c != ' '
    ensures Free(SplitByte(s), {c})
    decreases |s|
  {
    if 2 < |s| {
      SplitByteFree(s[2..], c);
    }
  }

  /** Hexadecimal digits of either case are never taken for lock, state, counter or time. */
  lemma HexTextStays(h: string, lock: string, tagState: string, send: nat, stamp: seq<byte>)
    requires IsNumeral(16, h)
    ensures Overwritten(SplitByte(h), lock, tagState) == SplitByte(h) && Stamped(SplitByte(h), send, stamp) == SplitByte(h)
    ensures ZZ != "" && TT != "" && KK != "" && SS != ""
    ensures !Contains(SplitByte(h), KK) && !Contains(SplitByte(h), SS) && !Contains(SplitByte(h), ZZ) && !Contains(SplitByte(h), TT)
  {
    assert DigitValue('K') == 16 && DigitValue('S') == 16 && DigitValue('Z') == 16 && DigitValue('T') == 16;
    assert KK[0] == 'K' && SS[0] == 'S' && ZZ[0] == 'Z' && TT[0] == 'T';
    hide KK, SS, ZZ, TT, SplitByte, Replace, Contains, Spaced, ToLittle, Free;
    var text := SplitByte(h);
    NumeralLetters(h);
    SplitByteFree(h, 'K');
    SplitByteFree(h, 'S');
    SplitByteFree(h, 'Z');
    SplitByteFree(h, 'T');
    ReplaceFree(text, KK, lock);
    ReplaceFree(text, SS, tagState);
    ReplaceFree(text, ZZ, Spaced(ToLittle(send, 2)));
    ReplaceFree(text, TT, Spaced(stamp));
    ContainsNot(text, KK);
    ContainsNot(text, SS);
    ContainsNot(text, ZZ);
    ContainsNot(text, TT);
  }

  lemma NumeralLetters(h: string)
    requires IsNumeral(16, h)
    ensures Free(h, {'K'}) && Free(h, {'S'}) && Free(h, {'Z'}) && Free(h, {'T'})
  {
  }

  lemma FlapTagWritten(state: string, zone: Zone, entries: Result<string>, send: nat, stamp: seq<byte>) returns (args: map<string, seq<byte>>)
    requires GoodFlapTag(state) && CatFlapArguments(FlapTag, state, entries).Ok?
    ensures CatFlapArgs(FlapTag, state, zone, args)
    ensures forall p :: p in CatFlapSlots(FlapTag) ==>
              Writes(AllSlots(FlapTag, CatFlapArguments(FlapTag, state, entries).value, send, stamp), args, p)
  {
    SlotsDistinct();
    hide ZZ, TT, SS, WW, LL, CM, CC, II, KK, AA, NoSpaces, ToHex, FromHex, SplitByte, Hb, BytesToTag, ChipToHex, Split, GoodChip, ParseInt,
      Distinct, Hex2, FlapLock, FlapTagState, IsNumeral, Overwritten, Stamped, Contains, CatFlapTagArguments, Slots;
    FlapSlotNames();
    SlotsKeys(send, stamp);
    FlapStandardApart(FlapTag);
    var parts := Split(state, {'-'});
    var chip := GoodChipBytes(parts[1]);
    var h := ChipToHex(parts[1]).value;
    FlapArgumentText(state);
    var a := CatFlapTagArguments(state).value;
    SplitNumeral(h);
    HexTextStays(h, a.2, a.3, send, stamp);
    HbWritten(ParseInt(10, parts[0]).value);
    HbWritten(FlapLock(parts[2]));
    HbWritten(FlapTagState(parts[3]));
    args := map[CC := chip, KK := [FlapLock(parts[2])], II := [ParseInt(10, parts[0]).value], SS := [FlapTagState(parts[3])]];
  }

  lemma FlapSlotNames()
    ensures SS != II && SS != CC && II != CC && KK != SS && KK != II && KK != CC
  {
    SlotsDistinct();
    hide SS, II, CC, KK;
  }

  lemma FlapArgumentText(state: string)
    requires CatFlapTagArguments(state).Ok?
    ensures var parts := Split(state, {'-'});
            && |parts| == 4 && ParseInt(10, parts[0]).Ok? && ChipToHex(parts[1]).Ok?
            && CatFlapTagArguments(state).value
               == (Hb(ParseInt(10, parts[0]).value), SplitByte(ChipToHex(parts[1]).value), Hb(FlapLock(parts[2])), Hb(FlapTagState(parts[3])))
  {
    hide Split, Hb, ParseInt, ChipToHex, SplitByte, CatFlapLockStateValue, TagStateValue;
    TwoLiterals();
  }

  lemma TwoLiterals()
    ensures Hb(3) == "03" && Hb(0) == "00"
  {
    Hex2Value(0);
    Hex2Value(3);
    SmallHex();
  }

  lemma FlapStandardApart(op: CatFlapOp)
    ensures ZZ !in CatFlapSlots(op) && TT !in CatFlapSlots(op)
  {
    SlotsDistinct();
    hide ZZ, TT, SS, CC, II, KK, AA;
  }

  lemma CatFlapMessageParts(op: CatFlapOp, state: string, lm: int, entries: Result<string>, send: nat, now: Stamp, clock: string)
    requires op != FlapAck
    ensures CatFlapMessage(op, state, lm, entries, send, now, clock)
         == match CatFlapArguments(op, state, entries)
            case Err(e) => Err(e)
            case Ok(env) =>
              match Encoded(now)
              case Err(e) => Err(e)
              case Ok(stamp) => Ok(Message(clock, CatFlapTemplate(op, state, lm), AllSlots(op, env, send, stamp)))
  {
    hide Encoded, CatFlapArguments, AllSlots, Message, CatFlapTemplate;
  }

  lemma CatFlapFrameText(clock: string, op: CatFlapOp, state: string, lm: int, env: map<string, string>,
                         args: map<string, seq<byte>>, send: nat, stamp: seq<byte>)
    requires IsWord(clock) && CatFlapSlots(op) <= args.Keys
    requires forall p :: p in CatFlapSlots(op) ==> Writes(AllSlots(op, env, send, stamp), args, p)
    ensures Payload(Message(clock, CatFlapTemplate(op, state, lm), AllSlots(op, env, send, stamp)))
         == Ok(FrameBytes(CatFlapType(op), send, stamp, CatFlapBytes(op, state, lm, args)))
  {
    CatFlapBodyWellformed(op, state, lm);
    FlapStandardApart(op);
    AllSlotsStandard(op, env, send, stamp);
    SpacedHex(ToLittle(send, 2));
    SpacedHex(stamp);
    hide ZZ, TT, SS, WW, LL, CM, CC, II, KK, AA, Spaced, NoSpaces, ToHex, Filled, Payload, Message, Open, Header, CatFlapBody, CatFlapSlots,
      IsWord, CatFlapBytes, ToLittle, CatFlapType, Slots, AllSlots;
    CatFlapFilled(op, state, lm, args);
    HeaderPayload(clock, CatFlapType(op), CatFlapBody(op, state, lm), AllSlots(op, env, send, stamp), args, ToLittle(send, 2), stamp);
  }

  lemma AllSlotsStandard(op: CatFlapOp, env: map<string, string>, send: nat, stamp: seq<byte>)
    ensures var all := AllSlots(op, env, send, stamp);
            ZZ in all && TT in all && all[ZZ] == Spaced(ToLittle(send, 2)) && all[TT] == Spaced(stamp)
  {
    SlotsDistinct();
    hide ZZ, TT, CC, Spaced, ToLittle, Stamped, Apart;
  }

  lemma SlotsKeys(send: nat, stamp: seq<byte>)
    ensures Slots(send, stamp).Keys == {ZZ, TT}
  {
  }

  /** The arguments that are accepted. */
  ghost predicate CatFlapAccepts(op: CatFlapOp, state: string, zone: Zone) {
    match op
    case FlapGet => state in {"Boot9", "Unknown0b", "Battery", "Boot10", "Tags", "Boot17"}
    case FlapTag =>
      var parts := Split(state, {'-'});
      && |parts| == 4 && ParseInt(10, parts[0]).Ok? && ChipToHex(parts[1]).Ok?
      && !Contains(Overwritten(SplitByte(ChipToHex(parts[1]).value), Hb(FlapLock(parts[2])), Hb(FlapTagState(parts[3]))), AA)
    case FlapCurfew => Parsed(CurfewsOf(state), zone).Ok?
    case _ => true
  }

  lemma FlapArgumentsAccepted(op: CatFlapOp, state: string, zone: Zone, entries: Result<string>)
    requires op != FlapAck
    requires op == FlapCurfew ==> ZoneInRange(zone) && EntriesOf(entries, state, zone)
    ensures CatFlapArguments(op, state, entries).Ok? <==> CatFlapAccepts(op, state, zone)
  {
    hide ZZ, TT, SS, CC, II, KK, AA, Choose, Denotes, CatFlapChoices, ParseInt, Split, ChipToHex, SplitByte, Hb, FlapLock, FlapTagState,
      Prints, CurfewBytes, CurfewsOf, Overwritten, Contains, StateCurfews, Parsed, CatFlapTagArguments, InRange;
    ChosenAccepted(CatFlapChoices(), 10, state);
    FlapChoiceAccepted(state);
    if op == FlapTag {
      TagArgumentsParsed(state);
      if CatFlapTagArguments(state).Ok? {
        FlapArgumentText(state);
        TagEnv(CatFlapTagArguments(state).value);
      }
    } else if op == FlapCurfew {
      CurfewsAccepted(CurfewsOf(state), zone, 0);
    }
  }

  lemma TagArgumentsParsed(state: string)
    ensures var parts := Split(state, {'-'});
            CatFlapTagArguments(state).Ok? <==> |parts| == 4 && ParseInt(10, parts[0]).Ok? && ChipToHex(parts[1]).Ok?
  {
    hide Split, Hb, ParseInt, ChipToHex, SplitByte;
  }

  lemma {:induction false} CurfewsAccepted(curs: seq<string>, zone: Zone, count: nat)
    requires ZoneInRange(zone)
    ensures StateCurfews(curs, zone, count).Ok? <==> Parsed(curs, zone).Ok?
    decreases |curs|
  {
    hide ParseClock, CurfewEntry, InRange, F.CurfewEntries, Text;
    if curs != [] {
      CurfewsAccepted(curs[1..], zone, count + 1);
      if ParseCurfew(curs[0], zone).Ok? {
        EntryDecodes(ParseCurfew(curs[0], zone).value, []);
      }
    }
  }

  /**
   A cat flap message is generated exactly for accepted arguments, and every one that is
   generated decodes to its type, counter, time and argument.
   */
  lemma CatFlapRoundTrip(t: Tables, device: Mac, op: CatFlapOp, state: string, lm: int, zone: Zone, entries: Result<string>,
                         send: nat, now: Stamp, clock: string)
    returns (body: F.Body)
    requires op != FlapAck && send < 65536 && InRange(now) && IsWord(clock)
    requires op == FlapCurfew ==> ZoneInRange(zone) && EntriesOf(entries, state, zone)
    ensures CatFlapMessage(op, state, lm, entries, send, now, clock).Ok? <==> CatFlapAccepts(op, state, zone)
    ensures CatFlapAccepts(op, state, zone) && (op == FlapTag ==> GoodFlapTag(state)) ==>
              && DecodeMessage(t, device, CatFlapMessage(op, state, lm, entries, send, now, clock).value)
                 == Ok(F.Frame(Hb(CatFlapType(op)), Numeral(10, send), Text(now), body))
              && CatFlapMeans(t, op, state, lm, zone, body)
  {
    hide ZZ, TT, SS, WW, LL, CM, CC, II, KK, AA, CatFlapArguments, CatFlapAccepts, GoodFlapTag, ToLittle, ToHex, NoSpaces, CatFlapTemplate, CatFlapBody,
      Encoded, Message, Payload, CatFlapArgs, CatFlapMeans, F.Decode, F.DecodeBody, Writes, CatFlapBytes, CatFlapSlots, CatFlapType,
      IsWord, Text, CatFlapMessage, Slots, InRange, EntriesOf, AllSlots, ZoneInRange;
    var bs := StampRoundTrip(now);
    CatFlapMessageParts(op, state, lm, entries, send, now, clock);
    FlapArgumentsAccepted(op, state, zone, entries);
    body := F.Unknown("");
    if CatFlapAccepts(op, state, zone) && (op == FlapTag ==> GoodFlapTag(state)) {
      CurfewParsed(op, state, zone);
      var env := CatFlapArguments(op, state, entries).value;
      var args := CatFlapArgsWritten(op, state, zone, entries, send, bs);
      FlapArgsCover(op, state, zone, args);
      CatFlapFrameText(clock, op, state, lm, env, args, send, bs);
      body := CatFlapBodyDecodes(t, device, op, state, lm, zone, args, send, bs);
      HeaderDecodes(t, device, CatFlapType(op), send, now, bs, CatFlapBytes(op, state, lm, args));
    }
  }

  lemma CurfewParsed(op: CatFlapOp, state: string, zone: Zone)
    ensures op == FlapCurfew && CatFlapAccepts(op, state, zone) ==> Parsed(CurfewsOf(state), zone).Ok?
  {
    hide Parsed, CurfewsOf;
  }

  lemma FlapArgsCover(op: CatFlapOp, state: string, zone: Zone, args: map<string, seq<byte>>)
    requires CatFlapArgs(op, state, zone, args)
    ensures CatFlapSlots(op) <= args.Keys
  {
  }
}
