/**
 generatemessage for feeders, cat flaps and pet doors: a template is looked up, and its
 slots are replaced in the text one after the other.
 */
module Commands {
  import opened Arithmetic
  import opened Bytes
  import opened Chips
  import opened Constants
  import opened Numerals
  import opened Results
  import opened Templates
  import opened Texts
  import opened Timestamps

  // The slots of the templates.
  const ZZ := "ZZ ZZ"
  const TT := "TT TT TT TT"
  const SS := "SS"
  const WW := "WW WW WW WW"
  const LL := "LL LL LL LL"
  const CM := "CM CM CM CM"
  const CC := "CC CC CC CC CC CC CC"
  const II := "II"
  const KK := "KK"
  const AA := "AA"

  datatype FeederOp =
    | FeederAck | FeederGet | FeederSetTime | SetLeftScale | SetRightScale | SetBowlCount | SetCloseDelay
    | Set12 | SetCustom | CustomIntruder | CustomGeniusCat | ZeroScale | FeederTag

  datatype LockOp = Unlocked | LockKeepIn | LockKeepOut | Locked
  datatype Side = KeepIn | KeepOut

  datatype CatFlapOp =
    | FlapAck | FlapGet | FlapSetTime | Lock(lock: LockOp) | FlapTag | FlapCurfew | Keep(side: Side)

  /** Type, 00, counter, time, and then the body. */
  function Header(op: byte, body: Template): Template {
    Raw([op, 0x00], Slot(ZZ, Slot(TT, body)))
  }

  /** Both families acknowledge with the same template. */
  function AckTemplate(): Template {
    Header(0x00, Slot(SS, Raw([0x00, 0x00], Done)))
  }

  function FeederType(op: FeederOp): byte {
    match op
    case FeederAck => 0x00
    case FeederGet => 0x01
    case FeederSetTime => 0x07
    case ZeroScale => 0x0d
    case FeederTag => 0x11
    case _ => 0x09
  }

  function FeederBody(op: FeederOp): Template {
    match op
    case FeederAck => Slot(SS, Raw([0x00, 0x00], Done))
    case FeederGet => Slot(SS, Done)
    case FeederSetTime => Raw([0x00, 0x00, 0x00, 0x00, 0x07], Done)
    case SetLeftScale => Raw([0x0a], Slot(WW, Done))
    case SetRightScale => Raw([0x0b], Slot(WW, Done))
    case SetBowlCount => Raw([0x0c], Slot(SS, Raw([0x00, 0x00, 0x00], Done)))
    case SetCloseDelay => Raw([0x0d], Slot(LL, Done))
    case Set12 => Raw([0x12, 0xf4, 0x01, 0x00, 0x00], Done)
    case SetCustom => Raw([0x14], Slot(CM, Done))
    case CustomIntruder => Raw([0x14, 0x00, 0x01, 0x00, 0x00], Done)
    case CustomGeniusCat => Raw([0x14, 0x80, 0x00, 0x00, 0x00], Done)
    case ZeroScale => Raw([0x00, 0x19, 0x00, 0x00, 0x00, 0x03, 0x00, 0x00, 0x00, 0x00, 0x01], Slot(SS, Done))
    case FeederTag => Slot(CC, Raw([0x02], Slot(II, Slot(SS, Done))))
  }

  function FeederTemplate(op: FeederOp): Template {
    Header(FeederType(op), FeederBody(op))
  }

  /** The lock byte of the cat flap. */
  function LockByte(op: LockOp): byte {
    match op
    case Unlocked => 0x06
    case LockKeepIn => 0x03
    case LockKeepOut => 0x05
    case Locked => 0x04
  }

  function LockBody(op: LockOp): Template {
    Raw([0x00, 0x00, 0x00, 0x00, 0x00, 0x00, 0x07, LockByte(op), 0x00, 0x02], Done)
  }

  /** The choice among the four lock states, from the stored mode. */
  function LockChoice(side: Side, state: string, lm: int): LockOp {
    if (side == KeepIn && state == "OFF" && lm == 1) || (side == KeepOut && state == "OFF" && lm == 2) then Unlocked
    else if (side == KeepIn && state == "ON" && lm == 0) || (side == KeepOut && state == "OFF" && lm == 3) then LockKeepIn
    else if (side == KeepIn && state == "OFF" && lm == 3) || (side == KeepOut && state == "ON" && lm == 0) then LockKeepOut
    else if (side == KeepIn && state == "ON" && lm == 2) || (side == KeepOut && state == "ON" && lm == 1) then Locked
    else Unlocked
  }

  function CatFlapType(op: CatFlapOp): byte {
    match op
    case FlapAck => 0x00
    case FlapGet => 0x01
    case FlapSetTime => 0x07
    case FlapCurfew => 0x12
    case _ => 0x11
  }

  function CatFlapBody(op: CatFlapOp, state: string, lm: int): Template {
    match op
    case FlapAck => Slot(SS, Raw([0x00, 0x00], Done))
    case FlapGet => Slot(SS, Done)
    case FlapSetTime => Raw([0x00, 0x00, 0x00, 0x00, 0x07], Done)
    case Lock(lock) => LockBody(lock)
    case FlapTag => Slot(CC, Slot(KK, Slot(II, Slot(SS, Done))))
    case FlapCurfew => Raw([0x00, 0x00, 0x00, 0x00, 0x00, 0x00, 0x07, 0x00], Slot(AA, Done))
    case Keep(side) => LockBody(LockChoice(side, state, lm))
  }

  function CatFlapTemplate(op: CatFlapOp, state: string, lm: int): Template {
    Header(CatFlapType(op), CatFlapBody(op, state, lm))
  }

  // ----- arguments

  function FeederChoices(op: FeederOp): map<string, seq<byte>> {
    match op
    case FeederGet =>
      map["Time" := [0x07, 0x00], "Config" := [0x09, 0x00, 0xff], "Unknown0b" := [0x0b, 0x00],
          "Battery" := [0x0c, 0x00], "Boot10" := [0x10, 0x00], "Tags" := [0x11, 0x00, 0xff],
          "Boot17" := [0x17, 0x00, 0x00]]
    case SetBowlCount => map["One" := [0x01], "Two" := [0x02]]
    case ZeroScale => map["Left" := [0x01], "Right" := [0x02], "Both" := [0x03]]
    case _ => map[]
  }

  function CatFlapChoices(): map<string, seq<byte>> {
    map["Boot9" := [0x09, 0x00, 0xff], "Boot10" := [0x10, 0x00], "Tags" := [0x11, 0x00, 0xff],
        "Boot17" := [0x17, 0x00, 0x00], "Unknown0b" := [0x0b, 0x00], "Battery" := [0x0c, 0x00]]
  }

  /** A name from the table, or a number whose hex stands in the table. */
  function Choose(choices: map<string, seq<byte>>, b: base, state: string): Result<string> {
    if state in choices then Ok(Spaced(choices[state])) else
    var n :- ParseInt(b, state);
    if exists k :: k in choices && Spaced(choices[k]) == Hb(n) then Ok(Hb(n)) else Err(Rejected)
  }

  predicate IsDigits(s: string) {
    s != "" && IsNumeral(10, s)
  }

  /** "type-counter" */
  function AckArguments(state: string): Result<(string, string)> {
    var parts := Split(state, {'-'});
    var kind :- ParseInt(16, parts[0]);
    if |parts| < 2 then Err(IndexError) else
    var n :- ParseInt(10, parts[1]);
    var counter :- Encode(n, 2);
    Ok((Hb(kind), Spaced(counter)))
  }

  /** "state-index-chip" of a feeder. */
  function FeederTagArguments(state: string): Result<(string, string, string)> {
    var parts := Split(state, {'-'});
    if |parts| != 3 || TagStateValue(parts[0]).None? then Err(Rejected) else
    var index :- ParseInt(10, parts[1]);
    var chip :- ChipToHex(parts[2]);
    Ok((Hb(TagStateValue(parts[0]).value), Hb(index), SplitByte(chip)))
  }

  /** "index-chip-lock-state" of a cat flap; names that are unknown become 03 and 00. */
  function CatFlapTagArguments(state: string): Result<(string, string, string, string)> {
    var parts := Split(state, {'-'});
    if |parts| != 4 then Err(Rejected) else
    var index :- ParseInt(10, parts[0]);
    var chip :- ChipToHex(parts[1]);
    var lock := match CatFlapLockStateValue(parts[2]) { case Some(v) => Hb(v) case None => "03" };
    var tag := match TagStateValue(parts[3]) { case Some(v) => Hb(v) case None => "00" };
    Ok((Hb(index), SplitByte(chip), lock, tag))
  }

  /** Fill one more slot, if there is text for it. */
  function With(env: map<string, string>, p: string, text: Result<string>): Result<map<string, string>> {
    match text
    case Ok(s) => Ok(env[p := s])
    case Err(e) => Err(e)
  }

  /** What fills the slots of a feeder message, once counter and time are filled. */
  function FeederArguments(op: FeederOp, state: string, env: map<string, string>): Result<map<string, string>> {
    match op
    case FeederGet => With(env, SS, Choose(FeederChoices(op), 16, state))
    case SetBowlCount => With(env, SS, Choose(FeederChoices(op), 16, state))
    case ZeroScale => With(env, SS, Choose(FeederChoices(op), 16, state))
    case SetLeftScale => With(env, WW, WeightText(state))
    case SetRightScale => With(env, WW, WeightText(state))
    case SetCloseDelay => With(env, LL, ValueText(FeederCloseDelayValue(state)))
    case SetCustom => With(env, CM, ValueText(FeederCustomModeValue(state)))
    case FeederTag =>
      var a :- FeederTagArguments(state);
      Ok(env[SS := a.0][II := a.1][CC := a.2])
    case _ => Ok(env)
  }

  /** as_hex of a member that exists. */
  function ValueText(value: Option<nat>): Result<string> {
    match value
    case Some(v) => Ok(Spaced(ToLittle(v, 4)))
    case None => Err(Rejected)
  }

  /** Grams as four bytes of hundredths. */
  function WeightText(state: string): Result<string> {
    if !IsDigits(state) then Err(Rejected) else
    var bs :- Encode(Value(10, state) * 100, 4);
    Ok(Spaced(bs))
  }

  function Slots(send: nat, stamp: seq<byte>): map<string, string> {
    map[ZZ := Spaced(ToLittle(send, 2)), TT := Spaced(stamp)]
  }

  /** The 127 message of a template whose slots are filled. */
  function Message(clock: string, t: Template, env: map<string, string>): string {
    clock + " 1000 " + ("127" + Tail(t, env))
  }

  function FeederMessage(op: FeederOp, state: string, send: nat, now: Stamp, clock: string): Result<string> {
    if op == FeederAck then AckMessage(state, now, clock) else
    var stamp :- Encoded(now);
    var env :- FeederArguments(op, state, Slots(send, stamp));
    Ok(Message(clock, FeederTemplate(op), env))
  }

  /** An acknowledgement repeats the counter it is given instead of the device's own. */
  function AckSlots(state: string, now: Stamp): Result<map<string, string>> {
    var a :- AckArguments(state);
    var stamp :- Encoded(now);
    Ok(map[SS := a.0, ZZ := a.1, TT := Spaced(stamp)])
  }

  function AckMessage(state: string, now: Stamp, clock: string): Result<string> {
    var env :- AckSlots(state, now);
    Ok(Message(clock, AckTemplate(), env))
  }

  /** What replacing the slots of lock and state makes of a chip's text, which is in the message by then. */
  function Overwritten(chip: string, lock: string, tagState: string): string {
    Replace(Replace(chip, KK, lock), SS, tagState)
  }

  /** And what replacing counter and time makes of it. */
  function Stamped(text: string, send: nat, stamp: seq<byte>): string {
    Replace(Replace(text, ZZ, Spaced(ToLittle(send, 2))), TT, Spaced(stamp))
  }

  /** Index, chip, lock and state of a tag, once all four are in the message. */
  function TagSlots(a: (string, string, string, string)): map<string, string> {
    map[II := a.0, KK := a.2, SS := a.3, CC := Overwritten(a.1, a.2, a.3)]
  }

  /**
   The arguments of a cat flap message; the curfew entries come as text. A tag message in
   which the curfew slot is found is treated as a curfew message, whose times it lacks.
   */
  function CatFlapArguments(op: CatFlapOp, state: string, entries: Result<string>): Result<map<string, string>> {
    match op
    case FlapGet => With(map[], SS, Choose(CatFlapChoices(), 10, state))
    case FlapTag =>
      var a :- CatFlapTagArguments(state);
      if Contains(TagSlots(a)[CC], AA) then Err(ValueError) else Ok(TagSlots(a))
    case FlapCurfew => With(map[], AA, entries)
    case _ => Ok(map[])
  }

  /** All slots of a cat flap message; a chip's text is there before counter and time. */
  function AllSlots(op: CatFlapOp, env: map<string, string>, send: nat, stamp: seq<byte>): map<string, string> {
    var all := env + Slots(send, stamp);
    if op == FlapTag && CC in env then all[CC := Stamped(env[CC], send, stamp)] else all
  }

  function CatFlapMessage(op: CatFlapOp, state: string, lm: int, entries: Result<string>, send: nat, now: Stamp, clock: string):
    Result<string>
  {
    var t := CatFlapTemplate(op, state, lm);
    if op == FlapAck then AckMessage(state, now, clock) else
    var env :- CatFlapArguments(op, state, entries);
    var stamp :- Encoded(now);
    Ok(Message(clock, t, AllSlots(op, env, send, stamp)))
  }

  // ----- curfews

  /** A disabled curfew. */
  const FILLER: seq<byte> := [0x00, 0x00, 0x42, 0x00, 0x00, 0x00, 0x42, 0x00, 0x06]

  /** strftime("%y %m %d %H %M 00") */
  function CurfewTime(t: Stamp): string {
    Separated(TwoDigits(t.year % 100), t.(second := 0), " ", " ", " ")
  }

  /** The bytes of one enabled curfew. */
  function CurfewEntry(p: (Stamp, Stamp)): Result<seq<byte>> {
    var start :- FromText(CurfewTime(p.0));
    var end :- FromText(CurfewTime(p.1));
    var bs :- FromHex(start + end);
    Ok(bs + [0x03])
  }

  function Fillers(k: nat): seq<byte> {
    if k == 0 then [] else FILLER + Fillers(k - 1)
  }

  /** All entries, and fillers up to four. */
  function CurfewBytes(curfews: seq<(Stamp, Stamp)>, count: nat): Result<seq<byte>> {
    if curfews == [] then Ok(Fillers(if count < 4 then 4 - count else 0))
    else
      var first :- CurfewEntry(curfews[0]);
      Prepend(first, CurfewBytes(curfews[1..], count + 1))
  }

  /** Today's moment at a local time of day, in UTC. */
  type Zone = (nat, nat) -> Stamp

  /** strptime(s, "%H:%M") */
  function ParseClock(s: string): Result<(nat, nat)> {
    var parts := Split(s, {':'});
    if |parts| == 2 && 1 <= |parts[0]| <= 2 && 1 <= |parts[1]| <= 2 && IsNumeral(10, parts[0]) && IsNumeral(10, parts[1])
       && Value(10, parts[0]) < 24 && Value(10, parts[1]) < 60
    then Ok((Value(10, parts[0]), Value(10, parts[1])))
    else Err(ValueError)
  }

  /** "start-end" */
  function ParseCurfew(cur: string, zone: Zone): Result<(Stamp, Stamp)> {
    var parts := Split(cur, {'-'});
    var start :- ParseClock(parts[0]);
    if |parts| < 2 then Err(IndexError) else
    var end :- ParseClock(parts[1]);
    Ok((zone(start.0, start.1), zone(end.0, end.1)))
  }

  /** The curfews of a state, separated by commas; none in a state of at most one character. */
  function CurfewsOf(state: string): seq<string> {
    if 1 < |state| then Split(state, {','}) else []
  }

  /** Each curfew is parsed and encoded before the next one is looked at. */
  function StateCurfews(curs: seq<string>, zone: Zone, count: nat): Result<seq<byte>> {
    if curs == [] then Ok(Fillers(if count < 4 then 4 - count else 0))
    else
      var p :- ParseCurfew(curs[0], zone);
      var first :- CurfewEntry(p);
      Prepend(first, StateCurfews(curs[1..], zone, count + 1))
  }

  /** The pairs a list of curfews stands for, if all of them can be parsed. */
  function Parsed(curs: seq<string>, zone: Zone): Result<seq<(Stamp, Stamp)>> {
    if curs == [] then Ok([])
    else
      var p :- ParseCurfew(curs[0], zone);
      Prepend([p], Parsed(curs[1..], zone))
  }

  lemma {:induction false} ParsedCurfews(curs: seq<string>, zone: Zone, count: nat)
    requires Parsed(curs, zone).Ok?
    ensures StateCurfews(curs, zone, count) == CurfewBytes(Parsed(curs, zone).value, count)
    decreases |curs|
  {
    hide ParseCurfew, CurfewEntry, Fillers;
    if curs != [] {
      ParsedCurfews(curs[1..], zone, count + 1);
      var p := ParseCurfew(curs[0], zone).value;
      assert ([p] + Parsed(curs[1..], zone).value)[1..] == Parsed(curs[1..], zone).value;
    }
  }

  /** Text and bytes say the same, and the text disturbs no slot. */
  ghost predicate Prints(message: string, bytes: seq<byte>) {
    NoSpaces(message) == ToHex(bytes) && NoUpper(message)
  }

  /** The first loop: an enabled entry for each pair, with a space after each of the first three. */
  method EnabledCurfews(curs: seq<string>, zone: Zone) returns (r: Result<string>, ghost bytes: seq<byte>)
    ensures r.Ok? ==> Prints(r.value, bytes)
    ensures r.Ok? ==> StateCurfews(curs, zone, 0) == Ok(bytes + Fillers(if |curs| < 4 then 4 - |curs| else 0))
    ensures r.Err? ==> StateCurfews(curs, zone, 0) == Err(r.error)
  {
    hide Prints, Fillers, CurfewEntry, FromText, CurfewTime, SplitByte, ParseCurfew;
    var message, count := "", 0;
    bytes := [];
    PrintsEmpty();
    PrependTwice([], [], StateCurfews(curs, zone, 0));
    while count < |curs|
      invariant 0 <= count <= |curs|
      invariant Prints(message, bytes)
      invariant StateCurfews(curs, zone, 0) == Prepend(bytes, StateCurfews(curs[count..], zone, count))
    {
      assert curs[count..][0] == curs[count] && curs[count..][1..] == curs[count + 1..];
      var parsed := ParseCurfew(curs[count], zone);
      if parsed.Err? { return Err(parsed.error), bytes; }
      var p := parsed.value;
      CurfewEntryParts(p);
      var start := FromText(CurfewTime(p.0));
      if start.Err? { return Err(start.error), bytes; }
      var end := FromText(CurfewTime(p.1));
      if end.Err? { return Err(end.error), bytes; }
      ghost var gap := if count < 3 then " " else "";
      EntryText(message, bytes, p, start.value, end.value, gap);
      ghost var before := message;
      message := message + SplitByte(start.value) + " ";
      message := message + SplitByte(end.value) + " 03";
      if count < 3 {
        message := message + " ";
      }
      assert message == before + SplitByte(start.value) + " " + SplitByte(end.value) + " 03" + gap;
      ghost var entry := CurfewEntry(p).value;
      PrependTwice(bytes, entry, StateCurfews(curs[count + 1..], zone, count + 1));
      bytes := bytes + entry;
      count := count + 1;
    }
    r := Ok(message);
  }

  /** The curfew text: the enabled entries, then disabled ones up to four. */
  method CurfewText(state: string, zone: Zone) returns (r: Result<string>)
    ensures r.Ok? <==> StateCurfews(CurfewsOf(state), zone, 0).Ok?
    ensures r.Err? ==> r.error == StateCurfews(CurfewsOf(state), zone, 0).error
    ensures r.Ok? ==> Prints(r.value, StateCurfews(CurfewsOf(state), zone, 0).value)
  {
    hide Prints, StateCurfews, Fillers, Spaced;
    ghost var bytes;
    var curs := CurfewsOf(state);
    r, bytes := EnabledCurfews(curs, zone);
    if r.Err? { return; }
    var message, i := r.value, |curs|;
    while i < 4
      invariant |curs| <= i && (|curs| < 4 ==> i <= 4)
      invariant StateCurfews(curs, zone, 0) == Ok(bytes + Fillers(if i < 4 then 4 - i else 0))
      invariant Prints(message, bytes)
    {
      ghost var before, gap := message, if i < 3 then " " else "";
      FillerText(message, bytes, gap);
      message := message + Spaced(FILLER);
      if i < 3 {
        message := message + " ";
      }
      assert message == before + Spaced(FILLER) + gap;
      FillersStep(bytes, 4 - i);
      bytes := bytes + FILLER;
      i := i + 1;
    }
    FillersZero(bytes);
    r := Ok(message);
  }

  // ----- tags are no curfews

  lemma {:induction false} StripKeeps(s: string, c: char)
    requires c != ' ' && Free(Strip(s), {c})
    ensures Free(s, {c})
    decreases |s|
  {
    if s != "" {
      if s[0] == ' ' {
        StripKeeps(s[1..], c);
        assert s == [' '] + s[1..];
      } else if s[|s| - 1] == ' ' {
        StripKeeps(s[..|s| - 1], c);
        assert s == s[..|s| - 1] + [' '];
      }
    }
  }

  lemma NumeralLacks(s: string, c: char)
    requires ParseInt(10, s).Ok? && DigitValue(c) == 16 && c != ' '
    ensures Free(s, {c})
  {
    StripKeeps(s, c);
  }

  /** The arguments of a tag, read as curfews: its index is no time of day. */
  lemma TagIsNoCurfew(state: string, zone: Zone)
    requires CatFlapTagArguments(state).Ok?
    ensures StateCurfews(CurfewsOf(state), zone, 0) == Err(ValueError)
  {
    hide Free, ChipToHex, SplitByte, Hb, IsNumeral, Value;
    var index := Split(state, {'-'})[0];
    NumeralLacks(index, ',');
    NumeralLacks(index, ':');
    SplitLength(state, {'-'});
    FirstPart(state, '-', ',');
    SplitFree(index, {':'});
    assert ParseClock(index) == Err(ValueError);
    assert Split(CurfewsOf(state)[0], {'-'})[0] == index;
  }

  lemma PrintsEmpty()
    ensures Prints("", [])
  {
  }

  lemma FillersZero(bs: seq<byte>)
    ensures bs + Fillers(0) == bs
  {
  }

  lemma FillersStep(bs: seq<byte>, k: nat)
    requires 0 < k
    ensures bs + Fillers(k) == bs + FILLER + Fillers(k - 1)
  {
    ConcatAssociative(bs, FILLER, Fillers(k - 1));
  }

  lemma FromTextHex(s: string)
    ensures FromText(s).Ok? ==> IsPrinted(16, FromText(s).value) && |FromText(s).value| == 8
  {
    hide Split, ParseInt, Bits, Value, IsPrinted, ToLittle, Pow, ToHex;
    forall bs: seq<byte>
      ensures IsPrinted(16, ToHex(bs))
    {
      ToHexPrinted(bs);
    }
  }

  lemma CurfewEntryParts(p: (Stamp, Stamp))
    ensures FromText(CurfewTime(p.0)).Err? ==> CurfewEntry(p) == Err(FromText(CurfewTime(p.0)).error)
    ensures FromText(CurfewTime(p.0)).Ok? && FromText(CurfewTime(p.1)).Err? ==>
              CurfewEntry(p) == Err(FromText(CurfewTime(p.1)).error)
    ensures FromText(CurfewTime(p.0)).Ok? && FromText(CurfewTime(p.1)).Ok? ==>
              && CurfewEntry(p).Ok?
              && ToHex(CurfewEntry(p).value) == FromText(CurfewTime(p.0)).value + FromText(CurfewTime(p.1)).value + "03"
  {
    hide FromText, CurfewTime, ToHex, FromHex, IsPrinted, Hex2;
    var start, end := FromText(CurfewTime(p.0)), FromText(CurfewTime(p.1));
    FromTextHex(CurfewTime(p.0));
    FromTextHex(CurfewTime(p.1));
    if start.Ok? && end.Ok? {
      PrintedAppend(16, start.value, end.value);
      var bs := HexBytes(start.value + end.value);
      ToHexAppend(bs, [0x03]);
      OnByte();
    }
  }

  lemma OnByte()
    ensures ToHex([0x03]) == "03"
  {
    SmallHex();
    assert ToHex([0x03]) == Hex2(0x03) + "";
  }

  lemma NoUpperAppend(s: string, t: string)
    requires NoUpper(s) && NoUpper(t)
    ensures NoUpper(s + t)
  {
  }

  /** One entry appended to the text is one entry appended to the bytes. */
  lemma EntryText(message: string, bytes: seq<byte>, p: (Stamp, Stamp), start: string, end: string, gap: string)
    requires Prints(message, bytes) && (gap == "" || gap == " ")
    requires FromText(CurfewTime(p.0)) == Ok(start) && FromText(CurfewTime(p.1)) == Ok(end)
    requires CurfewEntry(p).Ok?
    ensures var m := message + SplitByte(start) + " " + SplitByte(end) + " 03" + gap;
            Prints(m, bytes + CurfewEntry(p).value)
  {
    Gaps();
    hide FromText, CurfewTime, CurfewEntry, ToHex, NoSpaces, SplitByte, NoUpper, IsPrinted;
    CurfewEntryParts(p);
    FromTextHex(CurfewTime(p.0));
    FromTextHex(CurfewTime(p.1));
    var s, e := SplitByte(start), SplitByte(end);
    SplitPrinted(start);
    SplitPrinted(end);
    NoSpacesAppend(message, s);
    NoSpacesAppend(message + s, " ");
    NoSpacesAppend(message + s + " ", e);
    NoSpacesAppend(message + s + " " + e, " 03");
    NoSpacesAppend(message + s + " " + e + " 03", gap);
    NoUpperAppend(message, s);
    NoUpperAppend(message + s, " ");
    NoUpperAppend(message + s + " ", e);
    NoUpperAppend(message + s + " " + e, " 03");
    NoUpperAppend(message + s + " " + e + " 03", gap);
    ToHexAppend(bytes, CurfewEntry(p).value);
    FiveParts(NoSpaces(message), start, end);
  }

  lemma FiveParts(m: string, start: string, end: string)
    ensures m + start + "" + end + "03" + "" == m + (start + end + "03")
  {
  }

  lemma Gaps()
    ensures NoSpaces("") == "" && NoSpaces(" ") == "" && NoSpaces(" 03") == "03"
    ensures NoUpper("") && NoUpper(" ") && NoUpper(" 03")
  {
    assert " 03"[1..] == "03" && "03"[1..] == "3" && "3"[1..] == "";
  }

  lemma SplitPrinted(h: string)
    requires IsPrinted(16, h)
    ensures NoSpaces(SplitByte(h)) == h && NoUpper(SplitByte(h))
  {
    PrintedHasNoSpace(16, h);
    SplitByteJoins(h);
    PrintedNoUpper(h);
    SplitByteNoUpper(h);
  }

  lemma FillerText(message: string, bytes: seq<byte>, gap: string)
    requires Prints(message, bytes) && (gap == "" || gap == " ")
    ensures Prints(message + Spaced(FILLER) + gap, bytes + FILLER)
  {
    Gaps();
    hide ToHex, NoSpaces, NoUpper, Spaced;
    SpacedHex(FILLER);
    SpacedNoUpper(FILLER);
    NoSpacesAppend(message, Spaced(FILLER));
    NoSpacesAppend(message + Spaced(FILLER), gap);
    NoUpperAppend(message, Spaced(FILLER));
    NoUpperAppend(message + Spaced(FILLER), gap);
    ToHexAppend(bytes, FILLER);
  }
}
