/** generatemessage itself: the device rows, the counter, and the replacements in order. */
module Generators {
  import opened Arithmetic
  import opened Bytes
  import opened Chips
  import opened Commands
  import opened Constants
  import opened Databases
  import opened Numerals
  import opened Results
  import opened Templates
  import opened Texts
  import opened Timestamps

  // ----- slots

  predicate Only(p: string, cs: set<char>) {
    p != "" && IsUpper(p[0]) && p[0] in cs && forall i :: 0 <= i < |p| ==> p[i] == ' ' || p[i] in cs
  }

  lemma SlotLettersOnly()
    ensures Only(ZZ, {'Z'}) && Only(TT, {'T'}) && Only(SS, {'S'}) && Only(WW, {'W'}) && Only(LL, {'L'})
    ensures Only(CM, {'C', 'M'}) && Only(CC, {'C'}) && Only(II, {'I'}) && Only(KK, {'K'}) && Only(AA, {'A'})
    ensures 'M' in CM
  {
    assert CM[1] == 'M';
  }

  /** Neither pattern can be mistaken for the other. */
  predicate Distinct(p: string, q: string) {
    && IsPattern(p) && IsPattern(q) && p != q
    && Apart(p, q) && Apart(q, p) && p[0] !in q && q[0] !in p
  }

  lemma OnlyApart(p: string, cs: set<char>, q: string, ds: set<char>)
    requires Only(p, cs) && Only(q, ds) && cs !! ds
    ensures Distinct(p, q)
  {
  }

  lemma CustomIsNoChip()
    ensures CM != CC
  {
    assert CM[1] == 'M' && CC[1] == 'C';
  }

  lemma SlotsDistinct()
    ensures Distinct(ZZ, TT) && Distinct(ZZ, SS) && Distinct(ZZ, WW) && Distinct(ZZ, LL) && Distinct(ZZ, CM)
    ensures Distinct(ZZ, CC) && Distinct(ZZ, II) && Distinct(ZZ, KK) && Distinct(ZZ, AA) && Distinct(TT, SS)
    ensures Distinct(TT, WW) && Distinct(TT, LL) && Distinct(TT, CM) && Distinct(TT, CC) && Distinct(TT, II)
    ensures Distinct(TT, KK) && Distinct(TT, AA) && Distinct(CC, II) && Distinct(CC, SS) && Distinct(CC, KK)
    ensures Distinct(II, SS) && Distinct(KK, II) && Distinct(KK, SS) && Distinct(SS, WW) && Distinct(SS, LL)
    ensures Distinct(SS, CM) && Distinct(WW, LL) && Distinct(WW, CM) && Distinct(WW, CC) && Distinct(LL, CM)
    ensures Distinct(LL, CC) && Distinct(WW, II) && Distinct(LL, II) && Distinct(CM, II) && CM != CC
  {
    SlotLettersOnly();
    CustomIsNoChip();
    hide *;
    OnlyApart(WW, {'W'}, LL, {'L'});
    OnlyApart(WW, {'W'}, CM, {'C', 'M'});
    OnlyApart(WW, {'W'}, CC, {'C'});
    OnlyApart(LL, {'L'}, CM, {'C', 'M'});
    OnlyApart(LL, {'L'}, CC, {'C'});
    OnlyApart(WW, {'W'}, II, {'I'});
    OnlyApart(LL, {'L'}, II, {'I'});
    OnlyApart(CM, {'C', 'M'}, II, {'I'});
    OnlyApart(ZZ, {'Z'}, TT, {'T'});
    OnlyApart(ZZ, {'Z'}, SS, {'S'});
    OnlyApart(ZZ, {'Z'}, WW, {'W'});
    OnlyApart(ZZ, {'Z'}, LL, {'L'});
    OnlyApart(ZZ, {'Z'}, CM, {'C', 'M'});
    OnlyApart(ZZ, {'Z'}, CC, {'C'});
    OnlyApart(ZZ, {'Z'}, II, {'I'});
    OnlyApart(ZZ, {'Z'}, KK, {'K'});
    OnlyApart(ZZ, {'Z'}, AA, {'A'});
    OnlyApart(TT, {'T'}, SS, {'S'});
    OnlyApart(TT, {'T'}, WW, {'W'});
    OnlyApart(TT, {'T'}, LL, {'L'});
    OnlyApart(TT, {'T'}, CM, {'C', 'M'});
    OnlyApart(TT, {'T'}, CC, {'C'});
    OnlyApart(TT, {'T'}, II, {'I'});
    OnlyApart(TT, {'T'}, KK, {'K'});
    OnlyApart(TT, {'T'}, AA, {'A'});
    OnlyApart(CC, {'C'}, II, {'I'});
    OnlyApart(CC, {'C'}, SS, {'S'});
    OnlyApart(CC, {'C'}, KK, {'K'});
    OnlyApart(II, {'I'}, SS, {'S'});
    OnlyApart(KK, {'K'}, II, {'I'});
    OnlyApart(KK, {'K'}, SS, {'S'});
    OnlyApart(SS, {'S'}, WW, {'W'});
    OnlyApart(SS, {'S'}, LL, {'L'});
    OnlyApart(SS, {'S'}, CM, {'C', 'M'});
  }

  /** The slots of a feeder template besides counter and time. */
  function FeederSlots(op: FeederOp): set<string> {
    match op
    case FeederAck => {SS}
    case FeederGet => {SS}
    case SetBowlCount => {SS}
    case ZeroScale => {SS}
    case SetLeftScale => {WW}
    case SetRightScale => {WW}
    case SetCloseDelay => {LL}
    case SetCustom => {CM}
    case FeederTag => {CC, II, SS}
    case _ => {}
  }

  lemma SlotWellformed(p: string, rest: Template)
    requires IsPattern(p) && Wellformed(rest)
    requires forall q :: q in Open(rest, map[]) ==> Distinct(p, q)
    ensures Wellformed(Slot(p, rest)) && Open(Slot(p, rest), map[]) == {p} + Open(rest, map[])
  {
    hide IsPattern, Apart;
  }

  lemma HeaderWellformed(op: byte, body: Template)
    requires Wellformed(body)
    requires forall q :: q in Open(body, map[]) ==> Distinct(ZZ, q) && Distinct(TT, q)
    ensures Wellformed(Header(op, body)) && Open(Header(op, body), map[]) == {ZZ, TT} + Open(body, map[])
  {
    SlotsDistinct();
    hide ZZ, TT, SS, WW, LL, CM, CC, II, KK, AA, IsPattern, Apart;
    DistinctFacts(ZZ, TT);
    SlotWellformed(TT, body);
    SlotWellformed(ZZ, Slot(TT, body));
  }

  lemma TagWellformed()
    ensures var t := Slot(CC, Raw([0x02], Slot(II, Slot(SS, Done))));
            Wellformed(t) && Open(t, map[]) == {CC, II, SS}
    ensures var t := Slot(CC, Slot(KK, Slot(II, Slot(SS, Done))));
            Wellformed(t) && Open(t, map[]) == {CC, KK, II, SS}
  {
    SlotsDistinct();
    hide ZZ, TT, SS, WW, LL, CM, CC, II, KK, AA, Distinct, IsPattern, Apart;
    DistinctFacts(CC, II);
    DistinctFacts(KK, SS);
    assert Wellformed(Done) && Open(Done, map[]) == {};
    SlotWellformed(SS, Done);
    var i := Slot(II, Slot(SS, Done));
    SlotWellformed(II, Slot(SS, Done));
    var r := Raw([0x02], i);
    assert Wellformed(r) && Open(r, map[]) == Open(i, map[]);
    SlotWellformed(CC, r);
    SlotWellformed(KK, i);
    SlotWellformed(CC, Slot(KK, i));
  }

  lemma DistinctFacts(p: string, q: string)
    requires Distinct(p, q)
    ensures IsPattern(p) && IsPattern(q) && Apart(p, q) && Apart(q, p) && p != q
  {
  }

  lemma OneSlot(bs: seq<byte>, p: string, rest: Template)
    requires IsPattern(p) && (rest == Done || (rest.Raw? && rest.rest == Done))
    ensures var t := Raw(bs, Slot(p, rest)); Wellformed(t) && Open(t, map[]) == {p}
    ensures var t := Slot(p, rest); Wellformed(t) && Open(t, map[]) == {p}
  {
    assert Open(rest, map[]) == {} && Wellformed(rest);
    assert Open(Slot(p, rest), map[]) == {p};
  }

  lemma FeederBodyWellformed(op: FeederOp)
    ensures Wellformed(FeederBody(op)) && Open(FeederBody(op), map[]) == FeederSlots(op)
  {
    SlotsDistinct();
    TagWellformed();
    hide ZZ, TT, SS, WW, LL, CM, CC, II, KK, AA, IsPattern, Apart;
    DistinctFacts(ZZ, SS);
    DistinctFacts(ZZ, WW);
    DistinctFacts(ZZ, LL);
    DistinctFacts(ZZ, CM);
    match op
    case FeederAck => OneSlot([], SS, Raw([0x00, 0x00], Done));
    case FeederGet => OneSlot([], SS, Done);
    case SetLeftScale => OneSlot([0x0a], WW, Done);
    case SetRightScale => OneSlot([0x0b], WW, Done);
    case SetBowlCount => OneSlot([0x0c], SS, Raw([0x00, 0x00, 0x00], Done));
    case SetCloseDelay => OneSlot([0x0d], LL, Done);
    case SetCustom => OneSlot([0x14], CM, Done);
    case ZeroScale => OneSlot([0x00, 0x19, 0x00, 0x00, 0x00, 0x03, 0x00, 0x00, 0x00, 0x00, 0x01], SS, Done);
    case _ =>
  }

  lemma FeederWellformed(op: FeederOp)
    ensures Wellformed(FeederTemplate(op)) && Open(FeederTemplate(op), map[]) == {ZZ, TT} + FeederSlots(op)
  {
    SlotsDistinct();
    FeederBodyWellformed(op);
    hide ZZ, TT, SS, WW, LL, CM, CC, II, KK, AA, FeederBody, Header, Distinct, Wellformed, Open;
    HeaderWellformed(FeederType(op), FeederBody(op));
  }

  /** The slots of a cat flap template besides counter and time. */
  function CatFlapSlots(op: CatFlapOp): set<string> {
    match op
    case FlapAck => {SS}
    case FlapGet => {SS}
    case FlapTag => {CC, KK, II, SS}
    case FlapCurfew => {AA}
    case _ => {}
  }

  lemma CatFlapWellformed(op: CatFlapOp, state: string, lm: int)
    ensures var t := CatFlapTemplate(op, state, lm);
            Wellformed(t) && Open(t, map[]) == {ZZ, TT} + CatFlapSlots(op)
  {
    SlotsDistinct();
    CatFlapBodyWellformed(op, state, lm);
    hide ZZ, TT, SS, WW, LL, CM, CC, II, KK, AA, CatFlapBody, Header, Distinct, Wellformed, Open;
    HeaderWellformed(CatFlapType(op), CatFlapBody(op, state, lm));
  }

  lemma CatFlapBodyWellformed(op: CatFlapOp, state: string, lm: int)
    ensures var t := CatFlapBody(op, state, lm); Wellformed(t) && Open(t, map[]) == CatFlapSlots(op)
  {
    SlotsDistinct();
    TagWellformed();
    hide ZZ, TT, SS, WW, LL, CM, CC, II, KK, AA, IsPattern, Apart, LockChoice;
    DistinctFacts(ZZ, SS);
    DistinctFacts(ZZ, AA);
    match op
    case FlapAck => OneSlot([], SS, Raw([0x00, 0x00], Done));
    case FlapGet => OneSlot([], SS, Done);
    case FlapCurfew => OneSlot([0x00, 0x00, 0x00, 0x00, 0x00, 0x00, 0x07, 0x00], AA, Done);
    case _ =>
  }

  // ----- filling

  lemma Word127()
    ensures NoUpper("127")
  {
  }

  lemma SlotsApart()
    ensures ZZ != TT
  {
    assert ZZ[0] == 'Z' && TT[0] == 'T';
  }

  /** Two or three replacements in a feeder message; the last one may write anything. */
  lemma FeederFillsAll(op: FeederOp, env: map<string, string>, subs: seq<(string, string)>)
    requires Clean(env)
    requires forall i :: 0 <= i < |subs| ==> subs[i].0 in {ZZ, TT} + FeederSlots(op) && subs[i].0 !in env && (i < |subs| - 1 ==> NoUpper(subs[i].1))
    requires forall i, j :: 0 <= i < j < |subs| ==> subs[i].0 != subs[j].0
    ensures forall s :: s in subs ==> s.0 != ""
    ensures Substitute("127" + Tail(FeederTemplate(op), env), subs) == "127" + Tail(FeederTemplate(op), Bound(env, subs))
  {
    hide *;
    FeederWellformed(op);
    Word127();
    OpenShrinks(FeederTemplate(op), env);
    SubstitutionFillsSlots("127", FeederTemplate(op), env, subs);
  }

  lemma SubstituteTwo(m: string, a: (string, string), b: (string, string), env: map<string, string>)
    requires a.0 != "" && b.0 != ""
    ensures Substitute(m, [a, b]) == Replace(Replace(m, a.0, a.1), b.0, b.1)
    ensures Bound(env, [a, b]) == env[a.0 := a.1][b.0 := b.1]
  {
    hide Replace;
    assert [a, b][1..] == [b] && [b][1..] == [];
    assert Substitute(Replace(m, a.0, a.1), [b]) == Substitute(Replace(Replace(m, a.0, a.1), b.0, b.1), []);
    assert Bound(env[a.0 := a.1], [b]) == Bound(env[a.0 := a.1][b.0 := b.1], []);
  }

  lemma SubstituteThree(m: string, a: (string, string), b: (string, string), c: (string, string), env: map<string, string>)
    requires a.0 != "" && b.0 != "" && c.0 != ""
    ensures Substitute(m, [a, b, c]) == Replace(Replace(Replace(m, a.0, a.1), b.0, b.1), c.0, c.1)
    ensures Bound(env, [a, b, c]) == env[a.0 := a.1][b.0 := b.1][c.0 := c.1]
  {
    hide Replace;
    assert [a, b, c][1..] == [b, c];
    SubstituteTwo(Replace(m, a.0, a.1), b, c, env[a.0 := a.1]);
  }

  /** One replacement in a feeder message. */
  lemma FeederFills(op: FeederOp, env: map<string, string>, p: string, rep: string)
    requires Clean(env) && p in {ZZ, TT} + FeederSlots(op) && p !in env
    ensures Replace("127" + Tail(FeederTemplate(op), env), p, rep) == "127" + Tail(FeederTemplate(op), env[p := rep])
    ensures Contains("127" + Tail(FeederTemplate(op), env), p)
  {
    hide *;
    FeederWellformed(op);
    Word127();
    FillOpenSlot("127", FeederTemplate(op), env, p, rep);
  }

  lemma OnlyLacks(p: string, cs: set<char>)
    requires Only(p, cs)
    ensures forall c :: IsUpper(c) && c !in cs ==> c !in p
  {
  }

  lemma Lacking()
    ensures 'W' !in ZZ && 'W' !in TT && 'W' !in SS && 'W' !in LL && 'W' !in CM && 'W' !in CC && 'W' !in II
    ensures 'L' !in ZZ && 'L' !in TT && 'L' !in SS && 'L' !in WW && 'L' !in CM && 'L' !in CC && 'L' !in II
    ensures 'M' !in ZZ && 'M' !in TT && 'M' !in SS && 'M' !in WW && 'M' !in LL && 'M' !in CC && 'M' !in II
    ensures 'C' !in ZZ && 'C' !in TT && 'C' !in SS && 'C' !in WW && 'C' !in LL && 'C' !in II
    ensures 'W' in WW && 'L' in LL && 'M' in CM && 'C' in CC
  {
    SlotLettersOnly();
    assert 'W' == WW[0] && 'L' == LL[0] && 'C' == CC[0];
    hide ZZ, TT, SS, WW, LL, CM, CC, II, Only;
    OnlyLacks(ZZ, {'Z'});
    OnlyLacks(TT, {'T'});
    OnlyLacks(SS, {'S'});
    OnlyLacks(WW, {'W'});
    OnlyLacks(LL, {'L'});
    OnlyLacks(CM, {'C', 'M'});
    OnlyLacks(CC, {'C'});
    OnlyLacks(II, {'I'});
  }

  /** The letter by which a pattern would show that it is there. */
  function Mark(p: string): char {
    if p == WW then 'W' else if p == LL then 'L' else if p == CM then 'M' else 'C'
  }

  lemma SlotLacks(op: FeederOp, p: string)
    requires p in {WW, LL, CM, CC} && p !in FeederSlots(op)
    ensures IsUpper(Mark(p)) && Mark(p) in p && Mark(p) !in ZZ && Mark(p) !in TT
    ensures forall q :: q in FeederSlots(op) ==> Mark(p) !in q || (p == CC && op == SetCustom && q == CM)
  {
    hide ZZ, TT, SS, WW, LL, CM, CC, II;
    Lacking();
  }

  /** A pattern is found when the template has the slot, and not otherwise. */
  lemma FeederHas(op: FeederOp, env: map<string, string>, p: string)
    requires Clean(env) && p in {WW, LL, CM, CC}
    requires p == CC && op == SetCustom ==> CM in env
    requires p in FeederSlots(op) ==> p !in env
    ensures Contains("127" + Tail(FeederTemplate(op), env), p) <==> p in FeederSlots(op)
  {
    hide ZZ, TT, SS, WW, LL, CM, CC, II, FeederTemplate, FeederSlots, Tail, Contains, Wellformed, Clean, NoUpper, Mark;
    if p in FeederSlots(op) {
      FeederFills(op, env, p, "");
    } else {
      FeederWellformed(op);
      Word127();
      var t := FeederTemplate(op);
      OpenShrinks(t, env);
      SlotLacks(op, p);
      AbsentPattern("127", t, env, p, Mark(p));
    }
  }

  lemma HbNoUpper(n: nat)
    ensures NoUpper(Hb(n))
  {
    PrintedNoUpper(Numeral(16, n));
  }

  /** Every accepted argument but a chip is lower-case text. */
  lemma ChosenNoUpper(choices: map<string, seq<byte>>, b: base, state: string)
    ensures Choose(choices, b, state).Ok? ==> NoUpper(Choose(choices, b, state).value)
  {
    hide ParseInt, Hb, NoUpper, Spaced;
    if state in choices {
      SpacedNoUpper(choices[state]);
    } else if ParseInt(b, state).Ok? {
      HbNoUpper(ParseInt(b, state).value);
    }
  }

  /** Which operations have which slot. */
  lemma SlotOwners(op: FeederOp)
    ensures WW in FeederSlots(op) <==> op == SetLeftScale || op == SetRightScale
    ensures LL in FeederSlots(op) <==> op == SetCloseDelay
    ensures CM in FeederSlots(op) <==> op == SetCustom
    ensures CC in FeederSlots(op) <==> op == FeederTag
    ensures Validated(op) ==> SS in FeederSlots(op)
    ensures op == FeederTag ==> SS in FeederSlots(op) && II in FeederSlots(op)
  {
    hide ZZ, TT, SS, WW, LL, CM, CC, II, IsPattern, Apart;
    SlotsDistinct();
  }

  predicate Validated(op: FeederOp) {
    op == FeederGet || op == SetBowlCount || op == ZeroScale
  }

  /** The text once the arguments fill their slots. */
  function Completed(op: FeederOp, arguments: Result<map<string, string>>): Result<string> {
    match arguments
    case Ok(env) => Ok("127" + Tail(FeederTemplate(op), env))
    case Err(e) => Err(e)
  }

  function Sent(clock: string, text: Result<string>): Result<string> {
    match text
    case Ok(message) => Ok(clock + " 1000 " + message)
    case Err(e) => Err(e)
  }

  /** Which argument goes where, operation by operation. */
  lemma ArgumentsOf(op: FeederOp, state: string, env: map<string, string>)
    requires op != FeederAck
    ensures Validated(op) ==> FeederArguments(op, state, env) == With(env, SS, Choose(FeederChoices(op), 16, state))
    ensures op == SetLeftScale || op == SetRightScale ==> FeederArguments(op, state, env) == With(env, WW, WeightText(state))
    ensures op == SetCloseDelay ==>
              FeederArguments(op, state, env) == With(env, LL, ValueText(FeederCloseDelayValue(state)))
    ensures op == SetCustom ==>
              FeederArguments(op, state, env) == With(env, CM, ValueText(FeederCustomModeValue(state)))
    ensures !Validated(op) && op !in {SetLeftScale, SetRightScale, SetCloseDelay, SetCustom, FeederTag} ==>
              FeederArguments(op, state, env) == Ok(env)
  {
    hide ZZ, TT, SS, WW, LL, CM, CC, II, Choose, WeightText, FeederTagArguments, FeederCloseDelayValue,
      FeederCustomModeValue, ValueText, FeederChoices, With;
  }

  // ----- generatemessage

  /** The feeder branch: every operation but Ack takes the next counter, even when its argument is rejected. */
  method GenerateFeeder(db: Database, mac: Mac, op: FeederOp, state: string, now: Stamp, clock: string)
    returns (r: Result<string>)
    modifies db`counters
    ensures op != FeederAck && Encoded(now).Ok? && mac in old(db.counters) ==>
              && r == FeederMessage(op, state, NextSend(old(db.counters)[mac].send), now, clock)
              && db.Rows() == old(db.Rows()).SetSend(mac, NextSend(old(db.counters)[mac].send))
    ensures op == FeederAck ==> r == FeederMessage(op, state, 0, now, clock)
    ensures op != FeederAck && Encoded(now).Err? ==> r == Err(Encoded(now).error)
    ensures op != FeederAck && Encoded(now).Ok? && mac !in old(db.counters) ==> r == Err(AttributeError)
    ensures op == FeederAck || Encoded(now).Err? || mac !in old(db.counters) ==> db.Rows() == old(db.Rows())
  {
    if op == FeederAck {
      var text := FillAck(state, now);
      return Sent(clock, text);
    }
    if Encoded(now).Err? { return Err(Encoded(now).error); }
    var send := db.AdvanceSend(mac);
    if send.Err? { return Err(send.error); }
    r := FillFeeder(op, state, send.value, Encoded(now).value, clock);
  }

  /** The Ack template: type, counter, time. */
  method FillAck(state: string, now: Stamp) returns (r: Result<string>)
    ensures r == CompletedAck(AckSlots(state, now))
  {
    hide ZZ, TT, SS, WW, LL, CM, CC, II, Tail, Replace, Encoded, FeederTemplate, AckTemplate, NoUpper, Spaced, Hb, Clean, Substitute, Bound;
    PatternsNonEmpty();
    SlotsDistinct();
    AckHasType();
    CleanEmpty();
    var message := "127" + Tail(AckTemplate(), map[]);
    var arguments := AckArguments(state);
    if arguments.Err? { return Err(arguments.error); }
    var (kind, counter) := arguments.value;
    AckNoUpper(state);
    message := Replace(message, SS, kind);
    message := Replace(message, ZZ, counter);
    if Encoded(now).Err? { return Err(Encoded(now).error); }
    var stamp := Spaced(Encoded(now).value);
    message := Replace(message, TT, stamp);
    FeederFillsAll(FeederAck, map[], [(SS, kind), (ZZ, counter), (TT, stamp)]);
    SubstituteThree("127" + Tail(AckTemplate(), map[]), (SS, kind), (ZZ, counter), (TT, stamp), map[]);
    assert map[][SS := kind][ZZ := counter][TT := stamp] == map[SS := kind, ZZ := counter, TT := stamp];
    r := Ok(message);
  }

  function CompletedAck(arguments: Result<map<string, string>>): Result<string> {
    match arguments
    case Ok(env) => Ok("127" + Tail(AckTemplate(), env))
    case Err(e) => Err(e)
  }

  lemma CleanEmpty()
    ensures Clean(map[])
  {
  }

  lemma CleanMore(env: map<string, string>, p: string, rep: string)
    requires Clean(env) && NoUpper(rep)
    ensures Clean(env[p := rep])
  {
  }

  lemma AckHasType()
    ensures FeederSlots(FeederAck) == {SS} && FeederTemplate(FeederAck) == AckTemplate()
  {
  }

  lemma AckNoUpper(state: string)
    ensures AckArguments(state).Ok? ==>
              NoUpper(AckArguments(state).value.0) && NoUpper(AckArguments(state).value.1)
  {
    hide Split, ParseInt, Encode, Hb, Spaced, NoUpper;
    forall n: nat
      ensures NoUpper(Hb(n))
    {
      HbNoUpper(n);
    }
    forall bs: seq<byte>
      ensures NoUpper(Spaced(bs))
    {
      SpacedNoUpper(bs);
    }
  }

  lemma SlotsClean(send: nat, stamp: seq<byte>)
    ensures Clean(Slots(send, stamp)) && Slots(send, stamp).Keys == {ZZ, TT}
  {
    SpacedNoUpper(ToLittle(send, 2));
    SpacedNoUpper(stamp);
  }

  /** Counter and time, the standard values. */
  method FillStandard(op: FeederOp, send: nat, stamp: seq<byte>) returns (message: string)
    ensures message == "127" + Tail(FeederTemplate(op), Slots(send, stamp))
  {
    hide ZZ, TT, SS, WW, LL, CM, CC, II, Tail, Replace, Contains, FeederTemplate, NoUpper, Spaced, Hb, Clean, Choose, ToLittle, Substitute, Bound;
    PatternsNonEmpty();
    SlotsDistinct();
    CleanEmpty();
    var counter, time := Spaced(ToLittle(send, 2)), Spaced(stamp);
    message := "127" + Tail(FeederTemplate(op), map[]);
    message := Replace(message, ZZ, counter);
    message := Replace(message, TT, time);
    SpacedNoUpper(ToLittle(send, 2));
    FeederFillsAll(op, map[], [(ZZ, counter), (TT, time)]);
    SubstituteTwo("127" + Tail(FeederTemplate(op), map[]), (ZZ, counter), (TT, time), map[]);
    assert map[ZZ := counter][TT := time] == Slots(send, stamp);
  }

  /** The three slots of tag provisioning. The chip is filled last. */
  method FillTag(text: string, state: string, ghost env: map<string, string>)
    returns (r: Result<string>)
    requires text == "127" + Tail(FeederTemplate(FeederTag), env)
    requires Clean(env) && env.Keys == {ZZ, TT}
    ensures r == Completed(FeederTag, FeederArguments(FeederTag, state, env))
  {
    hide ZZ, TT, SS, WW, LL, CM, CC, II, Tail, Replace, Contains, FeederTemplate, NoUpper, Spaced, Hb, Clean, Choose, ToLittle, FeederSlots, FeederTagArguments, Apart, Substitute, Bound;
    PatternsNonEmpty();
    SlotsDistinct();
    SlotOwners(FeederTag);
    var arguments := FeederTagArguments(state);
    if arguments.Err? { return Err(arguments.error); }
    var (tagState, index, chip) := arguments.value;
    TagNoUpper(state);
    var message := Replace(text, SS, tagState);
    message := Replace(message, II, index);
    message := Replace(message, CC, chip);
    FeederFillsAll(FeederTag, env, [(SS, tagState), (II, index), (CC, chip)]);
    SubstituteThree(text, (SS, tagState), (II, index), (CC, chip), env);
    r := Ok(message);
  }

  /** The standard values first, then whatever slot is found in the text. */
  method FillFeeder(op: FeederOp, state: string, send: nat, stamp: seq<byte>, clock: string) returns (r: Result<string>)
    requires op != FeederAck
    ensures r == Sent(clock, Completed(op, FeederArguments(op, state, Slots(send, stamp))))
  {
    hide ZZ, TT, SS, WW, LL, CM, CC, II, Tail, Replace, Contains, FeederTemplate, NoUpper, Spaced, Hb, Clean, Choose, ToLittle, FeederSlots, FeederArguments, FeederTagArguments, Apart, WeightText;
    SlotsDistinct();
    SlotOwners(op);
    var message := FillStandard(op, send, stamp);
    ghost var env := Slots(send, stamp);
    SlotsClean(send, stamp);
    ArgumentsOf(op, state, env);
    if Validated(op) {
      var chosen := Choose(FeederChoices(op), 16, state);
      if chosen.Err? { return Err(chosen.error); }
      FeederFills(op, env, SS, chosen.value);
      message := Replace(message, SS, chosen.value);
      ChosenNoUpper(FeederChoices(op), 16, state);
      CleanMore(env, SS, chosen.value);
      env := env[SS := chosen.value];
    }
    FeederHas(op, env, WW);
    if Contains(message, WW) {
      var weight := WeightText(state);
      if weight.Err? { return Err(weight.error); }
      FeederFills(op, env, WW, weight.value);
      message := Replace(message, WW, weight.value);
      WeightNoUpper(state);
      CleanMore(env, WW, weight.value);
      env := env[WW := weight.value];
    }
    FeederHas(op, env, LL);
    if Contains(message, LL) {
      var delay := ValueText(FeederCloseDelayValue(state));
      if delay.Err? { return Err(delay.error); }
      FeederFills(op, env, LL, delay.value);
      message := Replace(message, LL, delay.value);
      ValueNoUpper(FeederCloseDelayValue(state));
      CleanMore(env, LL, delay.value);
      env := env[LL := delay.value];
    }
    FeederHas(op, env, CM);
    if Contains(message, CM) {
      var mode := ValueText(FeederCustomModeValue(state));
      if mode.Err? { return Err(mode.error); }
      FeederFills(op, env, CM, mode.value);
      message := Replace(message, CM, mode.value);
      ValueNoUpper(FeederCustomModeValue(state));
      CleanMore(env, CM, mode.value);
      env := env[CM := mode.value];
    }
    FeederHas(op, env, CC);
    if Contains(message, CC) {
      var filled := FillTag(message, state, env);
      if filled.Err? { return filled; }
      message := filled.value;
    }
    r := Ok(clock + " 1000 " + message);
  }

  lemma ValueNoUpper(value: Option<nat>)
    ensures ValueText(value).Ok? ==> NoUpper(ValueText(value).value)
  {
    hide Spaced, NoUpper;
    if value.Some? {
      SpacedNoUpper(ToLittle(value.value, 4));
    }
  }

  lemma WeightNoUpper(state: string)
    ensures WeightText(state).Ok? ==> NoUpper(WeightText(state).value)
  {
    hide Spaced, NoUpper, Encode;
    forall bs: seq<byte>
      ensures NoUpper(Spaced(bs))
    {
      SpacedNoUpper(bs);
    }
  }

  lemma TagNoUpper(state: string)
    ensures FeederTagArguments(state).Ok? ==>
              NoUpper(FeederTagArguments(state).value.0) && NoUpper(FeederTagArguments(state).value.1)
  {
    hide Split, ParseInt, Hb, NoUpper, ChipToHex, SplitByte;
    forall n: nat
      ensures NoUpper(Hb(n))
    {
      HbNoUpper(n);
    }
  }

  // ----- the cat flap branch

  lemma CatFlapFills(op: CatFlapOp, state: string, lm: int, env: map<string, string>, p: string, rep: string)
    requires Clean(env) && p in {ZZ, TT} + CatFlapSlots(op) && p !in env
    ensures var t := CatFlapTemplate(op, state, lm);
            Replace("127" + Tail(t, env), p, rep) == "127" + Tail(t, env[p := rep])
            && Contains("127" + Tail(t, env), p)
  {
    hide *;
    CatFlapWellformed(op, state, lm);
    Word127();
    FillOpenSlot("127", CatFlapTemplate(op, state, lm), env, p, rep);
  }

  lemma NoCurfewLetter()
    ensures IsPattern(AA) && AA[0] == 'A' && 'A' in AA
    ensures 'A' !in ZZ && 'A' !in TT && 'A' !in SS && 'A' !in CC && 'A' !in KK && 'A' !in II
  {
    SlotLettersOnly();
    assert AA[0] == 'A';
    hide ZZ, TT, SS, CC, II, KK, Only;
    OnlyLacks(ZZ, {'Z'});
    OnlyLacks(TT, {'T'});
    OnlyLacks(SS, {'S'});
    OnlyLacks(CC, {'C'});
    OnlyLacks(KK, {'K'});
    OnlyLacks(II, {'I'});
  }

  lemma CatFlapHasCurfew(op: CatFlapOp, state: string, lm: int, env: map<string, string>)
    requires Clean(env) && AA !in env
    ensures Contains("127" + Tail(CatFlapTemplate(op, state, lm), env), AA) <==> op == FlapCurfew
  {
    hide ZZ, TT, SS, WW, LL, CM, CC, II, KK, AA, CatFlapTemplate, Tail, Contains, Wellformed, Clean, NoUpper;
    CatFlapWellformed(op, state, lm);
    NoCurfewLetter();
    Word127();
    var t := CatFlapTemplate(op, state, lm);
    OpenShrinks(t, env);
    if op == FlapCurfew {
      CatFlapFills(op, state, lm, env, AA, "");
    } else {
      AbsentPattern("127", t, env, AA, 'A');
    }
  }

  /** The tag template on either side of the chip. */
  function TagFront(): Template {
    Raw([0x11, 0x00], Slot(ZZ, Slot(TT, Done)))
  }

  function TagBack(): Template {
    Slot(KK, Slot(II, Slot(SS, Done)))
  }

  lemma TagParts()
    ensures Wellformed(TagFront()) && Open(TagFront(), map[]) == {ZZ, TT}
    ensures Wellformed(TagBack()) && Open(TagBack(), map[]) == {KK, II, SS}
  {
    SlotsDistinct();
    hide ZZ, TT, SS, WW, LL, CM, CC, II, KK, AA, Distinct, IsPattern, Apart;
    DistinctFacts(ZZ, TT);
    DistinctFacts(KK, SS);
    DistinctFacts(KK, II);
    DistinctFacts(II, SS);
    assert Wellformed(Done) && Open(Done, map[]) == {};
    SlotWellformed(TT, Done);
    SlotWellformed(ZZ, Slot(TT, Done));
    SlotWellformed(SS, Done);
    SlotWellformed(II, Slot(SS, Done));
    SlotWellformed(KK, Slot(II, Slot(SS, Done)));
  }

  lemma TagText(state: string, lm: int, env: map<string, string>, c: string)
    requires CC !in env
    ensures "127" + Tail(CatFlapTemplate(FlapTag, state, lm), env[CC := c])
         == "127" + Tail(TagFront(), env) + (" " + c + Tail(TagBack(), env))
  {
    SlotsDistinct();
    TagParts();
    TagJoined(state, lm);
    hide ZZ, TT, SS, CC, II, KK, TagFront, TagBack, Tail, CatFlapTemplate, Apart;
    TailJoin(TagFront(), Slot(CC, TagBack()), env[CC := c]);
    ChipTail(env, c);
    Unused(TagFront(), env, CC, c);
    Unused(TagBack(), env, CC, c);
    ConcatAssociative("127", Tail(TagFront(), env), " " + c + Tail(TagBack(), env));
  }

  lemma TagJoined(state: string, lm: int)
    ensures CatFlapTemplate(FlapTag, state, lm) == Join(TagFront(), Slot(CC, TagBack()))
  {
    hide ZZ, TT, SS, CC, II, KK;
    var chip := Slot(CC, TagBack());
    assert Join(Slot(TT, Done), chip) == Slot(TT, chip);
    assert Join(Slot(ZZ, Slot(TT, Done)), chip) == Slot(ZZ, Slot(TT, chip));
  }

  lemma ChipTail(env: map<string, string>, c: string)
    ensures Tail(Slot(CC, TagBack()), env[CC := c]) == " " + c + Tail(TagBack(), env[CC := c])
  {
    hide TagBack, CC;
  }

  lemma SlotEnds()
    ensures KK[|KK| - 1] == KK[0] && SS[|SS| - 1] == SS[0] && ZZ[|ZZ| - 1] == ZZ[0] && TT[|TT| - 1] == TT[0] && AA[|AA| - 1] == AA[0]
    ensures ' ' !in KK && ' ' !in SS
  {
  }

  /** One replacement in a tag message that holds a chip already: the chip's text suffers it too. */
  lemma TagReplace(state: string, lm: int, env: map<string, string>, c: string, p: string, rep: string)
    requires Clean(env) && CC !in env && p in {ZZ, TT, KK, SS} && p !in env && p != ""
    ensures Replace("127" + Tail(CatFlapTemplate(FlapTag, state, lm), env[CC := c]), p, rep)
         == "127" + Tail(CatFlapTemplate(FlapTag, state, lm), env[p := rep][CC := Replace(c, p, rep)])
  {
    SlotEnds();
    SlotsDistinct();
    hide ZZ, TT, SS, CC, II, KK, Tail, Replace, CatFlapTemplate, TagFront, Clean, NoUpper, Wellformed, Open, Apart;
    TagParts();
    Word127();
    OpenShrinks(TagFront(), env);
    OpenShrinks(TagBack(), env);
    TagText(state, lm, env, c);
    TagText(state, lm, env[p := rep], Replace(c, p, rep));
    ReplaceAround("127", TagFront(), env, c, TagBack(), p, rep);
  }

  /** The curfew slot is found in a tag message exactly when it is found in the chip. */
  lemma TagContains(state: string, lm: int, env: map<string, string>, c: string)
    requires Clean(env) && CC !in env
    ensures Contains("127" + Tail(CatFlapTemplate(FlapTag, state, lm), env[CC := c]), AA) <==> Contains(c, AA)
  {
    SlotEnds();
    NoCurfewLetter();
    hide ZZ, TT, SS, CC, II, KK, AA, Tail, Contains, CatFlapTemplate, TagFront, TagBack, Clean, NoUpper, Wellformed, Open;
    TagParts();
    Word127();
    OpenShrinks(TagFront(), env);
    OpenShrinks(TagBack(), env);
    TagText(state, lm, env, c);
    ContainsAround("127", TagFront(), env, c, TagBack(), AA);
  }

  lemma TagEnv(a: (string, string, string, string))
    ensures ZZ != "" && TT != "" && CC in TagSlots(a) && TagSlots(a)[CC] == Overwritten(a.1, a.2, a.3)
    ensures var env: map<string, string> := map[II := a.0, KK := a.2, SS := a.3];
            CC !in env && ZZ !in env && TT !in env && TagSlots(a) == env[CC := Overwritten(a.1, a.2, a.3)]
  {
    PatternsNonEmpty();
    SlotsDistinct();
    hide ZZ, TT, SS, CC, II, KK, Overwritten;
  }

  /** Index, chip, lock and tag state, in that order. */
  method FillCatFlapTag(text: string, state: string, lm: int) returns (r: Result<string>)
    requires text == "127" + Tail(CatFlapTemplate(FlapTag, state, lm), map[])
    ensures r == match CatFlapTagArguments(state)
                 case Err(e) => Err(e)
                 case Ok(a) => Ok("127" + Tail(CatFlapTemplate(FlapTag, state, lm), TagSlots(a)))
  {
    hide ZZ, TT, SS, WW, LL, CM, CC, II, KK, AA, Tail, Replace, Contains, CatFlapTemplate, NoUpper, Clean,
      CatFlapTagArguments, IsPattern, Apart, TagSlots;
    var arguments := CatFlapTagArguments(state);
    if arguments.Err? { return Err(arguments.error); }
    var (index, chip, lock, tagState) := arguments.value;
    PatternsNonEmpty();
    SlotsDistinct();
    CatFlapTagNoUpper(state);
    CleanEmpty();
    CatFlapFills(FlapTag, state, lm, map[], II, index);
    var message := Replace(text, II, index);
    ghost var env: map<string, string> := map[II := index];
    CleanMore(map[], II, index);
    CatFlapFills(FlapTag, state, lm, env, CC, chip);
    message := Replace(message, CC, chip);
    TagReplace(state, lm, env, chip, KK, lock);
    message := Replace(message, KK, lock);
    CleanMore(env, KK, lock);
    TagReplace(state, lm, env[KK := lock], Replace(chip, KK, lock), SS, tagState);
    message := Replace(message, SS, tagState);
    TagEnv(arguments.value);
    assert env[KK := lock][SS := tagState] == map[II := index, KK := lock, SS := tagState];
    r := Ok(message);
  }

  lemma PatternsNonEmpty()
    ensures II != "" && CC != "" && KK != "" && SS != "" && AA != "" && ZZ != "" && TT != ""
  {
  }

  lemma CatFlapTagNoUpper(state: string)
    ensures CatFlapTagArguments(state).Ok? ==>
              var a := CatFlapTagArguments(state).value; NoUpper(a.0) && NoUpper(a.2) && NoUpper(a.3)
  {
    hide Split, ParseInt, Hb, NoUpper, ChipToHex, SplitByte, CatFlapLockStateValue, TagStateValue;
    forall n: nat
      ensures NoUpper(Hb(n))
    {
      HbNoUpper(n);
    }
    LiteralsNoUpper();
  }

  lemma LiteralsNoUpper()
    ensures NoUpper("03") && NoUpper("00")
  {
  }

  /** Counter and time are the open slots that are left. */
  ghost predicate Standard(t: Template, env: map<string, string>) {
    Wellformed(t) && Clean(env) && {ZZ, TT} <= Open(t, map[]) && ZZ !in env && TT !in env
  }

  lemma StandardFilled(t: Template, env: map<string, string>, send: nat, stamp: seq<byte>)
    requires Standard(t, env)
    ensures ZZ != "" && TT != ""
    ensures Replace(Replace("127" + Tail(t, env), ZZ, Spaced(ToLittle(send, 2))), TT, Spaced(stamp))
         == "127" + Tail(t, env + Slots(send, stamp))
  {
    PatternsNonEmpty();
    SlotsDistinct();
    hide ZZ, TT, Tail, Replace, Contains, Wellformed, NoUpper, Spaced, ToLittle, Clean, Apart;
    Word127();
    FillOpenSlot("127", t, env, ZZ, Spaced(ToLittle(send, 2)));
    SpacedNoUpper(ToLittle(send, 2));
    CleanMore(env, ZZ, Spaced(ToLittle(send, 2)));
    FillOpenSlot("127", t, env[ZZ := Spaced(ToLittle(send, 2))], TT, Spaced(stamp));
    assert env[ZZ := Spaced(ToLittle(send, 2))][TT := Spaced(stamp)] == env + Slots(send, stamp);
  }

  lemma NothingOpen(t: Template, env: map<string, string>, send: nat, stamp: seq<byte>)
    requires Wellformed(t) && Clean(env) && Open(t, env) == {}
    ensures ZZ != "" && TT != ""
    ensures Replace(Replace("127" + Tail(t, env), ZZ, Spaced(ToLittle(send, 2))), TT, Spaced(stamp)) == "127" + Tail(t, env)
  {
    PatternsNonEmpty();
    SlotsDistinct();
    hide ZZ, TT, Tail, Replace, Wellformed, NoUpper, Clean, Apart;
    Word127();
    TailFree(t, env, ZZ[0]);
    TailFree(t, env, TT[0]);
    NoUpperFree("127", ZZ[0]);
    NoUpperFree("127", TT[0]);
    FreeAppend("127", Tail(t, env), {ZZ[0]});
    FreeAppend("127", Tail(t, env), {TT[0]});
    ReplaceFree("127" + Tail(t, env), ZZ, Spaced(ToLittle(send, 2)));
    ReplaceFree("127" + Tail(t, env), TT, Spaced(stamp));
  }

  lemma AckFilled(state: string, now: Stamp, lm: int)
    ensures CatFlapTemplate(FlapAck, state, lm) == AckTemplate()
    ensures AckSlots(state, now).Ok? ==>
              var env := AckSlots(state, now).value;
              Wellformed(AckTemplate()) && Clean(env) && Open(AckTemplate(), env) == {}
  {
    hide ZZ, TT, SS, AckArguments, Encoded, Spaced, NoUpper, Clean, Tail, Wellformed, Open;
    AckHasType();
    if AckSlots(state, now).Ok? {
      FeederWellformed(FeederAck);
      var a, stamp := AckArguments(state).value, Encoded(now).value;
      OpenShrinks(AckTemplate(), AckSlots(state, now).value);
      AckNoUpper(state);
      SpacedNoUpper(stamp);
      ThreeClean(SS, a.0, ZZ, a.1, TT, Spaced(stamp));
    }
  }

  lemma ThreeClean(p: string, a: string, q: string, b: string, r: string, c: string)
    requires NoUpper(a) && NoUpper(b) && NoUpper(c)
    ensures Clean(map[p := a, q := b, r := c])
  {
    hide NoUpper;
  }

  /** The message text before counter and time, as far as the operation fills it. */
  method FillCatFlap(op: CatFlapOp, state: string, lm: int, zone: Zone) returns (r: Result<string>, ghost entries: Result<string>)
    requires op != FlapAck
    ensures op == FlapCurfew ==> EntriesOf(entries, state, zone)
    ensures r == match CatFlapArguments(op, state, entries)
                 case Err(e) => Err(e)
                 case Ok(env) => Ok("127" + Tail(CatFlapTemplate(op, state, lm), env))
  {
    hide ZZ, TT, SS, WW, LL, CM, CC, II, KK, AA, Tail, Replace, Contains, CatFlapTemplate, NoUpper, Clean, Choose,
      CatFlapTagArguments, StateCurfews, Spaced, TagSlots, CurfewsOf;
    SlotsDistinct();
    PatternsNonEmpty();
    CleanEmpty();
    NoCurfewLetter();
    entries := Err(Rejected);
    ghost var env: map<string, string> := map[];
    var message := "127" + Tail(CatFlapTemplate(op, state, lm), map[]);
    if op == FlapGet {
      var chosen := Choose(CatFlapChoices(), 10, state);
      if chosen.Err? { return Err(chosen.error), entries; }
      CatFlapFills(op, state, lm, env, SS, chosen.value);
      message := Replace(message, SS, chosen.value);
      ChosenNoUpper(CatFlapChoices(), 10, state);
      CleanMore(env, SS, chosen.value);
      env := env[SS := chosen.value];
    }
    if op == FlapTag {
      var filled := FillCatFlapTag(message, state, lm);
      if filled.Err? { return filled, entries; }
      message := filled.value;
      env := TagSlots(CatFlapTagArguments(state).value);
      TagHasCurfew(state, lm);
      TagIsNoCurfew(state, zone);
    } else {
      CatFlapHasCurfew(op, state, lm, env);
    }
    if Contains(message, AA) {
      var text := CurfewText(state, zone);
      entries := text;
      if text.Err? { return Err(text.error), entries; }
      CatFlapFills(op, state, lm, env, AA, text.value);
      message := Replace(message, AA, text.value);
      env := env[AA := text.value];
    }
    r := Ok(message);
  }

  lemma TagHasCurfew(state: string, lm: int)
    requires CatFlapTagArguments(state).Ok?
    ensures var env := TagSlots(CatFlapTagArguments(state).value);
            CC in env && (Contains("127" + Tail(CatFlapTemplate(FlapTag, state, lm), env), AA) <==> Contains(env[CC], AA))
  {
    hide ZZ, TT, SS, CC, II, KK, AA, Tail, Contains, CatFlapTemplate, NoUpper, Clean, CatFlapTagArguments, TagSlots, Overwritten;
    var a := CatFlapTagArguments(state).value;
    CatFlapTagNoUpper(state);
    TagEnv(a);
    ThreeClean(II, a.0, KK, a.2, SS, a.3);
    TagContains(state, lm, map[II := a.0, KK := a.2, SS := a.3], Overwritten(a.1, a.2, a.3));
  }

  /** The entry text says what the curfews in the state are. */
  ghost predicate EntriesOf(entries: Result<string>, state: string, zone: Zone) {
    match StateCurfews(CurfewsOf(state), zone, 0)
    case Err(e) => entries == Err(e)
    case Ok(bytes) => entries.Ok? && Prints(entries.value, bytes)
  }

  lemma PrintsNoUpper(s: string, bs: seq<byte>)
    requires Prints(s, bs)
    ensures NoUpper(s)
  {
  }

  lemma CatFlapStandard(op: CatFlapOp, state: string, lm: int, env: map<string, string>)
    requires Clean(env) && env.Keys == CatFlapSlots(op)
    ensures Standard(CatFlapTemplate(op, state, lm), env)
  {
    hide ZZ, TT, SS, CC, II, KK, AA, CatFlapTemplate, Wellformed, Open, Clean, IsPattern, Apart;
    CatFlapWellformed(op, state, lm);
    SlotsDistinct();
  }

  /** What a cat flap operation but the tag fills its slots with is lower-case text. */
  lemma CatFlapArgumentsClean(op: CatFlapOp, state: string, entries: Result<string>)
    requires op != FlapAck && op != FlapTag && CatFlapArguments(op, state, entries).Ok?
    requires op == FlapCurfew ==> exists zone :: EntriesOf(entries, state, zone)
    ensures Clean(CatFlapArguments(op, state, entries).value) && CatFlapArguments(op, state, entries).value.Keys == CatFlapSlots(op)
  {
    hide SS, AA, StateCurfews, Prints, CurfewsOf, Choose;
    ChosenNoUpper(CatFlapChoices(), 10, state);
    if op == FlapCurfew {
      var zone :| EntriesOf(entries, state, zone);
      PrintsNoUpper(entries.value, StateCurfews(CurfewsOf(state), zone, 0).value);
    }
  }

  /** Counter and time, after everything else, in a tag message. */
  lemma TagStamped(state: string, lm: int, a: (string, string, string, string), send: nat, stamp: seq<byte>)
    requires NoUpper(a.0) && NoUpper(a.2) && NoUpper(a.3)
    ensures ZZ != "" && TT != ""
    ensures Replace(Replace("127" + Tail(CatFlapTemplate(FlapTag, state, lm), TagSlots(a)), ZZ, Spaced(ToLittle(send, 2))), TT, Spaced(stamp))
         == "127" + Tail(CatFlapTemplate(FlapTag, state, lm), AllSlots(FlapTag, TagSlots(a), send, stamp))
  {
    hide ZZ, TT, SS, CC, II, KK, Tail, Replace, CatFlapTemplate, NoUpper, Clean, TagSlots, Overwritten, Spaced, ToLittle, Apart;
    TagEnv(a);
    SlotsDistinct();
    ThreeClean(II, a.0, KK, a.2, SS, a.3);
    var env: map<string, string> := map[II := a.0, KK := a.2, SS := a.3];
    var c, z, t := Overwritten(a.1, a.2, a.3), Spaced(ToLittle(send, 2)), Spaced(stamp);
    TagReplace(state, lm, env, c, ZZ, z);
    SpacedNoUpper(ToLittle(send, 2));
    CleanMore(env, ZZ, z);
    TagReplace(state, lm, env[ZZ := z], Replace(c, ZZ, z), TT, t);
    assert env[ZZ := z][TT := t][CC := Stamped(c, send, stamp)] == AllSlots(FlapTag, TagSlots(a), send, stamp);
  }

  /** Counter and time, after everything else, in any cat flap message. */
  lemma CatFlapStamped(op: CatFlapOp, state: string, lm: int, entries: Result<string>, send: nat, stamp: seq<byte>)
    requires op != FlapAck && CatFlapArguments(op, state, entries).Ok?
    requires op == FlapCurfew ==> exists zone :: EntriesOf(entries, state, zone)
    ensures ZZ != "" && TT != ""
    ensures var env := CatFlapArguments(op, state, entries).value;
            Replace(Replace("127" + Tail(CatFlapTemplate(op, state, lm), env), ZZ, Spaced(ToLittle(send, 2))), TT, Spaced(stamp))
            == "127" + Tail(CatFlapTemplate(op, state, lm), AllSlots(op, env, send, stamp))
  {
    hide ZZ, TT, SS, CC, II, KK, AA, Tail, Replace, CatFlapTemplate, NoUpper, Clean, TagSlots, Overwritten, Spaced, ToLittle, Slots,
      Contains, CatFlapTagArguments, EntriesOf, Standard, Choose;
    if op == FlapTag {
      CatFlapTagNoUpper(state);
      TagStamped(state, lm, CatFlapTagArguments(state).value, send, stamp);
    } else {
      CatFlapArgumentsClean(op, state, entries);
      var env := CatFlapArguments(op, state, entries).value;
      CatFlapStandard(op, state, lm, env);
      StandardFilled(CatFlapTemplate(op, state, lm), env, send, stamp);
    }
  }

  /** The cat flap branch: the counter advances last, and only for a message that is sent. */
  method GenerateCatFlap(db: Database, mac: Mac, op: CatFlapOp, state: string, zone: Zone, now: Stamp, clock: string)
    returns (r: Result<string>, ghost entries: Result<string>)
    modifies db`counters
    ensures r.Ok? ==> mac in old(db.counters) && db.Rows() == old(db.Rows()).SetSend(mac, NextSend(old(db.counters)[mac].send))
    ensures r.Err? ==> db.Rows() == old(db.Rows())
    ensures op == FlapCurfew ==> EntriesOf(entries, state, zone)
    ensures op.Keep? && mac !in db.doors ==> r == Err(AttributeError)
    ensures op.Keep? ==> mac in db.doors ==>
              mac in old(db.counters) ==>
                r == CatFlapMessage(op, state, db.doors[mac].lockingMode, entries, NextSend(old(db.counters)[mac].send), now, clock)
    ensures !op.Keep? && mac in old(db.counters) ==>
              r == CatFlapMessage(op, state, 0, entries, NextSend(old(db.counters)[mac].send), now, clock)
    ensures mac !in old(db.counters) && (op.Keep? ==> mac in db.doors) ==>
              r == Err(match CatFlapMessage(op, state, 0, entries, 0, now, clock) { case Err(e) => e case Ok(_) => AttributeError })
  {
    hide ZZ, TT, SS, WW, LL, CM, CC, II, KK, AA, Tail, CatFlapTemplate, AckTemplate, NoUpper, Clean, EntriesOf, Replace,
      Spaced, Encoded, CatFlapArguments, AckArguments, Slots, AllSlots, Standard, Wellformed, Open, ToLittle;
    PatternsNonEmpty();
    var lm := 0;
    entries := Err(Rejected);
    if op.Keep? {
      if mac !in db.doors { return Err(AttributeError), entries; }
      lm := db.doors[mac].lockingMode;
    }
    var text: Result<string>;
    if op == FlapAck {
      text := FillAck(state, now);
    } else {
      text, entries := FillCatFlap(op, state, lm, zone);
    }
    if text.Err? { return Err(text.error), entries; }
    if Encoded(now).Err? { return Err(Encoded(now).error), entries; }
    var send := db.AdvanceSend(mac);
    if send.Err? { return Err(send.error), entries; }
    var message := Replace(text.value, ZZ, Spaced(ToLittle(send.value, 2)));
    message := Replace(message, TT, Spaced(Encoded(now).value));
    if op == FlapAck {
      AckFilled(state, now, lm);
      NothingOpen(AckTemplate(), AckSlots(state, now).value, send.value, Encoded(now).value);
    } else {
      CatFlapStamped(op, state, lm, entries, send.value, Encoded(now).value);
    }
    r := Ok(clock + " 1000 " + message);
  }
}
