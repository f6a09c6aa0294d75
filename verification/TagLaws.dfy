/**
 Tag provisioning: which chips reach the device undisturbed, and exactly which tag messages
 read back as what they were made from.
 */
module TagLaws {
  import opened Bytes
  import opened Chips
  import opened Commands
  import opened Constants
  import opened Databases
  import opened FlapRoundTrips
  import opened Generators
  import opened Numerals
  import opened Results
  import opened RoundTrips
  import opened Templates
  import opened Texts
  import opened Timestamps
  import F = Frames

  // ----- the chip in a cat flap message

  /** No slot that is replaced or looked for after the chip is found in its text. */
  predicate Undisturbed(text: string) {
    !Contains(text, KK) && !Contains(text, SS) && !Contains(text, AA) && !Contains(text, ZZ) && !Contains(text, TT)
  }

  /** All slots of a tag message as they are meant. */
  function Intended(a: (string, string, string, string), send: nat, stamp: seq<byte>): map<string, string> {
    map[II := a.0, KK := a.2, SS := a.3, ZZ := Spaced(ToLittle(send, 2)), TT := Spaced(stamp), CC := a.1]
  }

  lemma OverwrittenCounts(chip: string, lock: string, tagState: string, send: nat, stamp: seq<byte>, c: char)
    requires NoUpper(lock) && NoUpper(tagState) && IsUpper(c)
    ensures KK != "" && SS != "" && ZZ != "" && TT != ""
    ensures var once := Replace(chip, KK, lock);
            var twice := Overwritten(chip, lock, tagState);
            var thrice := Replace(twice, ZZ, Spaced(ToLittle(send, 2)));
            && Count(once, c) <= Count(chip, c) && Count(twice, c) <= Count(once, c) && Count(thrice, c) <= Count(twice, c)
            && Count(Stamped(twice, send, stamp), c) <= Count(thrice, c)
            && (c in KK && Contains(chip, KK) ==> Count(once, c) < Count(chip, c))
            && (c in SS && Contains(once, SS) ==> Count(twice, c) < Count(once, c))
            && (c in ZZ && Contains(twice, ZZ) ==> Count(thrice, c) < Count(twice, c))
            && (c in TT && Contains(thrice, TT) ==> Count(Stamped(twice, send, stamp), c) < Count(thrice, c))
  {
    PatternsNonEmpty();
    hide KK, SS, ZZ, TT, Replace, Contains, Spaced, ToLittle, Count, NoUpper;
    NoUpperFree(lock, c);
    NoUpperFree(tagState, c);
    SpacedNoUpper(ToLittle(send, 2));
    SpacedNoUpper(stamp);
    NoUpperFree(Spaced(ToLittle(send, 2)), c);
    NoUpperFree(Spaced(stamp), c);
    var once := Replace(chip, KK, lock);
    var twice := Replace(once, SS, tagState);
    var thrice := Replace(twice, ZZ, Spaced(ToLittle(send, 2)));
    ReplaceCounts(chip, KK, lock, c);
    ReplaceCounts(once, SS, tagState, c);
    ReplaceCounts(twice, ZZ, Spaced(ToLittle(send, 2)), c);
    ReplaceCounts(thrice, TT, Spaced(stamp), c);
  }

  /** The chip survives the replacements, and is not taken for a curfew, exactly when none of the slots is in it. */
  lemma ChipIntact(chip: string, lock: string, tagState: string, send: nat, stamp: seq<byte>)
    requires NoUpper(lock) && NoUpper(tagState)
    ensures (!Contains(Overwritten(chip, lock, tagState), AA) && Stamped(Overwritten(chip, lock, tagState), send, stamp) == chip)
            <==> Undisturbed(chip)
  {
    PatternsNonEmpty();
    SlotLettersOnly();
    hide KK, SS, ZZ, TT, AA, CC, II, WW, LL, CM, Replace, Contains, Spaced, ToLittle, Count, NoUpper;
    if !Contains(chip, KK) {
      ReplaceAbsent(chip, KK, lock);
    }
    if !Contains(chip, SS) {
      ReplaceAbsent(chip, SS, tagState);
    }
    if !Contains(chip, ZZ) {
      ReplaceAbsent(chip, ZZ, Spaced(ToLittle(send, 2)));
    }
    if !Contains(chip, TT) {
      ReplaceAbsent(chip, TT, Spaced(stamp));
    }
    OverwrittenCounts(chip, lock, tagState, send, stamp, KK[0]);
    OverwrittenCounts(chip, lock, tagState, send, stamp, SS[0]);
    OverwrittenCounts(chip, lock, tagState, send, stamp, ZZ[0]);
    OverwrittenCounts(chip, lock, tagState, send, stamp, TT[0]);
    assert KK[0] in KK && SS[0] in SS && ZZ[0] in ZZ && TT[0] in TT;
  }

  lemma IntendedEnv(a: (string, string, string, string), send: nat, stamp: seq<byte>)
    ensures CC in TagSlots(a) && TagSlots(a)[CC] == Overwritten(a.1, a.2, a.3)
    ensures var env: map<string, string> :=
              map[II := a.0, KK := a.2, SS := a.3, ZZ := Spaced(ToLittle(send, 2)), TT := Spaced(stamp)];
            && CC !in env && Intended(a, send, stamp) == env[CC := a.1]
            && AllSlots(FlapTag, TagSlots(a), send, stamp) == env[CC := Stamped(Overwritten(a.1, a.2, a.3), send, stamp)]
  {
    SlotsDistinct();
    hide ZZ, TT, SS, CC, II, KK, Overwritten, Stamped, Spaced, ToLittle, Apart;
  }

  lemma SameMiddle(a: string, c: string, d: string, b: string)
    ensures a + (" " + c + b) == a + (" " + d + b) <==> c == d
  {
    if a + (" " + c + b) == a + (" " + d + b) {
      assert (a + (" " + c + b))[|a|..] == " " + c + b && (a + (" " + d + b))[|a|..] == " " + d + b;
      assert (" " + c + b)[1..1 + |c|] == c && (" " + d + b)[1..1 + |d|] == d;
    }
  }

  /** A tag message is the template with its slots filled exactly when none of the later slots is in the chip's text. */
  lemma TagTextExact(state: string, lm: int, entries: Result<string>, send: nat, now: Stamp, clock: string)
    requires CatFlapTagArguments(state).Ok? && Encoded(now).Ok?
    ensures var a := CatFlapTagArguments(state).value;
            CatFlapMessage(FlapTag, state, lm, entries, send, now, clock)
            == Ok(Message(clock, CatFlapTemplate(FlapTag, state, lm), Intended(a, send, Encoded(now).value)))
            <==> Undisturbed(a.1)
  {
    hide ZZ, TT, SS, CC, II, KK, AA, CatFlapTagArguments, Encoded, Tail, CatFlapTemplate, TagSlots, Overwritten, Stamped, Contains,
      AllSlots, Intended, Spaced, ToLittle, NoUpper, TagFront, TagBack;
    var a, stamp := CatFlapTagArguments(state).value, Encoded(now).value;
    CatFlapTagNoUpper(state);
    ChipIntact(a.1, a.2, a.3, send, stamp);
    IntendedEnv(a, send, stamp);
    var env: map<string, string> := map[II := a.0, KK := a.2, SS := a.3, ZZ := Spaced(ToLittle(send, 2)), TT := Spaced(stamp)];
    var c := Stamped(Overwritten(a.1, a.2, a.3), send, stamp);
    TagText(state, lm, env, c);
    TagText(state, lm, env, a.1);
    SameMiddle("127" + Tail(TagFront(), env), c, a.1, Tail(TagBack(), env));
    SameEnd(clock + " 1000 ", "127" + Tail(CatFlapTemplate(FlapTag, state, lm), env[CC := c]),
            "127" + Tail(CatFlapTemplate(FlapTag, state, lm), env[CC := a.1]));
  }

  lemma SameEnd(a: string, s: string, t: string)
    ensures a + s == a + t <==> s == t
  {
    if a + s == a + t {
      assert (a + s)[|a|..] == s && (a + t)[|a|..] == t;
    }
  }

  // ----- hexadecimal chips

  /** Two letters A in one byte. */
  predicate HasPairAA(hex: string) {
    2 <= |hex| && (hex[..2] == "AA" || HasPairAA(hex[2..]))
  }

  /** For a chip of hexadecimal digits in either case the only slot it can show is the curfew's, as a byte AA. */
  lemma HexUndisturbed(hex: string)
    requires IsNumeral(16, hex)
    ensures Undisturbed(SplitByte(hex)) <==> !HasPairAA(hex)
  {
    hide KK, SS, ZZ, TT, SplitByte, Contains;
    HexTextStays(hex, "", "", 0, []);
    PairFound(hex);
  }

  lemma {:induction false} PairFound(hex: string)
    ensures Contains(SplitByte(hex), AA) <==> HasPairAA(hex)
    decreases |hex|
  {
    CurfewIsAA();
    hide AA;
    if |hex| <= 2 {
      SmallPair(hex);
    } else {
      PairFound(hex[2..]);
      PairStep(hex[..2], SplitByte(hex[2..]));
      assert hex[..2] + " " + SplitByte(hex[2..]) == hex[..2] + (" " + SplitByte(hex[2..]));
    }
  }

  lemma CurfewIsAA()
    ensures AA == "AA"
  {
  }

  lemma SmallPair(s: string)
    requires |s| <= 2
    ensures Contains(s, "AA") <==> s == "AA"
    ensures HasPairAA(s) <==> s == "AA"
  {
    assert |s| == 2 ==> s[..2] == s;
  }

  lemma PairStep(s: string, t: string)
    requires |s| == 2
    ensures Contains(s + (" " + t), "AA") <==> s == "AA" || Contains(t, "AA")
  {
    var u := s + (" " + t);
    var v := " " + t;
    assert u[..2] == s && u[1..] == [s[1]] + v && u[1..][1..] == v && v[1..] == t;
    assert u[1..][..2][1] == ' ' && "AA"[1] == 'A';
    ContainsStep(u, "AA");
    ContainsStep(u[1..], "AA");
    if t == "" {
      assert !Contains(v, "AA") && !Contains(t, "AA");
    } else {
      assert v[..2][0] == ' ' && "AA"[0] == 'A';
      ContainsStep(v, "AA");
    }
  }

  lemma ContainsStep(s: string, pat: string)
    requires |pat| <= |s| && pat != ""
    ensures Contains(s, pat) <==> s[..|pat|] == pat || Contains(s[1..], pat)
  {
  }

  lemma {:induction false} PairAppend(s: string, t: string)
    requires |s| % 2 == 0
    ensures HasPairAA(s + t) <==> HasPairAA(s) || HasPairAA(t)
    decreases |s|
  {
    if s == "" {
      assert s + t == t;
    } else {
      PairAppend(s[2..], t);
      assert (s + t)[..2] == s[..2] && (s + t)[2..] == s[2..] + t;
    }
  }

  lemma {:induction false} NoPair(s: string)
    requires Free(s, {'A'})
    ensures !HasPairAA(s)
    decreases |s|
  {
    if 2 <= |s| {
      assert s[..2][0] == s[0] && "AA"[0] == 'A';
      NoPair(s[2..]);
    }
  }

  lemma PrintedNoA(s: string)
    requires IsPrinted(16, s)
    ensures Free(s, {'A'})
  {
  }

  lemma FdxPairs(country: nat, number: nat)
    requires IsChip(country, number) && 16 <= number % 256
    ensures !HasPairAA(ChipText(country, number))
    ensures ChipToHex(ChipText(country, number)).Ok? && !HasPairAA(ChipToHex(ChipText(country, number)).value)
  {
    hide ChipText, ChipToHex, ToHex, BytesToTag, ToLittle, HasPairAA, Free, IsPrinted;
    FdxBytes(country, number);
    var bs := ToLittle(Chips.Packed(country, number), 6) + [1];
    ToHexPrinted(bs);
    PrintedNoA(ToHex(bs));
    NoPair(ToHex(bs));
    ChipNoA(country, number);
    NoPair(ChipText(country, number));
  }

  lemma ChipNoA(country: nat, number: nat)
    ensures Free(ChipText(country, number), {'A'})
  {
    var c, n := Numeral(10, country), ZFill(Numeral(10, number), 12);
    hide Numeral;
    var s := ChipText(country, number);
    assert forall i :: 0 <= i < |s| ==> s[i] == '.' || s[i] in c || s[i] in n;
  }

  lemma ChipPairs(chip: string)
    requires GoodChip(chip)
    ensures ChipToHex(chip).Ok? && IsNumeral(16, ChipToHex(chip).value)
    ensures HasPairAA(ChipToHex(chip).value) <==> HasPairAA(chip)
  {
    hide ChipText, ChipToHex, HasPairAA, IsNumeral, IsPrinted, FromHex, BytesToTag;
    var bs := GoodChipBytes(chip);
    if |chip| == 10 && IsNumeral(16, chip) {
      bs := HdxBytes(chip);
      PairAppend(chip, "0003");
      assert Free("0003", {'A'});
      NoPair("0003");
    } else {
      var c: nat, n: nat :| IsChip(c, n) && 1 <= c && 16 <= n % 256 && chip == ChipText(c, n);
      FdxPairs(c, n);
    }
  }

  /**
   A tag message for a chip that can be read at all is refused exactly when the chip has a
   byte AA, which is taken for the curfew slot; otherwise it decodes, to the chip in lower case.
   */
  lemma FlapTagOutcome(t: Tables, device: Mac, state: string, lm: int, zone: Zone, entries: Result<string>, send: nat, now: Stamp, clock: string)
    requires send < 65536 && InRange(now) && IsWord(clock) && GoodFlapTag(state)
    ensures var parts := Split(state, {'-'});
            var r := CatFlapMessage(FlapTag, state, lm, entries, send, now, clock);
            if HasPairAA(parts[1]) then r == Err(ValueError)
            else
              && r.Ok? && DecodeMessage(t, device, r.value).Ok?
              && DecodeMessage(t, device, r.value).value.body
                 == F.Tag(t.Animal(Some(Lower(parts[1]))), CatFlapLockStateName(FlapLock(parts[2])), FlapLock(parts[2]),
                          ParseInt(10, parts[0]).value, TagStateName(FlapTagState(parts[3])))
  {
    hide ZZ, TT, SS, CC, II, KK, AA, Split, ParseInt, GoodChip, ChipToHex, SplitByte, Contains, Overwritten, HasPairAA, Encoded, Stamped, Hb,
      FlapLock, FlapTagState, DecodeMessage, IsWord, InRange, Message, CatFlapTemplate, AllSlots, IsNumeral, Lower, CatFlapTagArguments;
    var parts := Split(state, {'-'});
    ChipPairs(parts[1]);
    TagArgumentsParsed(state);
    FlapArgumentText(state);
    var a := CatFlapTagArguments(state).value;
    TagEnv(a);
    var h := ChipToHex(parts[1]).value;
    HexTextStays(h, a.2, a.3, send, []);
    PairFound(h);
    var body := CatFlapRoundTrip(t, device, FlapTag, state, lm, zone, entries, send, now, clock);
  }

  lemma FourParts(i: string, c: string, l: string, s: string)
    requires Free(i, {'-'}) && Free(c, {'-'}) && Free(l, {'-'}) && Free(s, {'-'})
    ensures Split(i + ['-'] + (c + ['-'] + (l + ['-'] + s)), {'-'}) == [i, c, l, s]
  {
    hide Free;
    SplitFree(s, {'-'});
    SplitAppend(l, '-', s, {'-'});
    SplitAppend(c, '-', l + ['-'] + s, {'-'});
    SplitAppend(i, '-', c + ['-'] + (l + ['-'] + s), {'-'});
  }

  /** Enabling a chip in slot 1. */
  function Enabling(chip: string): string {
    "1-" + chip + "-Normal-Enabled"
  }

  /** A chip that is refused, and an upper-case one that is not. */
  lemma ChipExamples(entries: Result<string>)
    ensures CatFlapArguments(FlapTag, Enabling("AA00000000"), entries) == Err(ValueError)
    ensures CatFlapArguments(FlapTag, Enabling("0113C870F2"), entries).Ok?
  {
    hide *;
    ExamplePairs();
    ExampleSplit("AA00000000");
    ExampleSplit("0113C870F2");
    ExampleArguments(Enabling("AA00000000"), "AA00000000", entries);
    ExampleArguments(Enabling("0113C870F2"), "0113C870F2", entries);
  }

  lemma ExampleSplit(chip: string)
    requires IsNumeral(16, chip)
    ensures Split(Enabling(chip), {'-'}) == ["1", chip, "Normal", "Enabled"] && ParseInt(10, "1").Ok?
  {
    ParsePrinted(10, "1");
    assert DigitValue('-') == 16;
    assert Free("1", {'-'}) && Free(chip, {'-'}) && Free("Normal", {'-'}) && Free("Enabled", {'-'});
    hide Split, Free, IsNumeral, ParseInt;
    FourParts("1", chip, "Normal", "Enabled");
    var l := "Normal" + ['-'] + "Enabled";
    assert "-Normal-Enabled" == ['-'] + l && "1-" == "1" + ['-'];
    assert Enabling(chip) == "1" + ['-'] + (chip + ['-'] + l);
  }

  lemma ExamplePairs()
    ensures IsNumeral(16, "AA00000000") && HasPairAA("AA00000000")
    ensures IsNumeral(16, "0113C870F2") && !HasPairAA("0113C870F2")
  {
    var s := "0113C870F2";
    assert s[..2] == "01" && s[2..] == "13C870F2" && "13C870F2"[..2] == "13" && "13C870F2"[2..] == "C870F2";
    assert "C870F2"[..2] == "C8" && "C870F2"[2..] == "70F2" && "70F2"[..2] == "70" && "70F2"[2..] == "F2" && "F2"[..2] == "F2" && "F2"[2..] == "";
    assert "AA00000000"[..2] == "AA";
    assert !HasPairAA("F2") && !HasPairAA("70F2") && !HasPairAA("C870F2");
  }

  lemma ExampleArguments(state: string, chip: string, entries: Result<string>)
    requires |Split(state, {'-'})| == 4 && Split(state, {'-'})[1] == chip && ParseInt(10, Split(state, {'-'})[0]).Ok?
    requires |chip| == 10 && IsNumeral(16, chip)
    ensures CatFlapArguments(FlapTag, state, entries).Ok? <==> !HasPairAA(chip)
    ensures CatFlapArguments(FlapTag, state, entries).Err? ==> CatFlapArguments(FlapTag, state, entries).error == ValueError
  {
    hide ZZ, TT, SS, CC, II, KK, AA, Split, ParseInt, ChipToHex, SplitByte, Contains, Overwritten, HasPairAA, Stamped, Hb,
      FlapLock, FlapTagState, CatFlapTagArguments, IsNumeral;
    ChipPairs(chip);
    TagArgumentsParsed(state);
    FlapArgumentText(state);
    var a := CatFlapTagArguments(state).value;
    TagEnv(a);
    HexTextStays(ChipToHex(chip).value, a.2, a.3, 0, []);
    PairFound(ChipToHex(chip).value);
  }

  // ----- which tag messages read back as themselves

  /** What a tag frame that was decoded must have looked like, when no pet hides its tag. */
  lemma TagFrame(t: Tables, device: Mac, v: seq<byte>, tag: string, lock: string, number: int, index: int, tagState: string)
    requires t.pets == map[] && F.Decode(t, device, v).Ok?
    requires F.Decode(t, device, v).value.body == F.Tag(Some(tag), lock, number, index, tagState)
    ensures 17 < |v| && v[16] == index && v[14] in {0x01, 0x03, 0x07} && BytesToTag(v[8..15]) == Ok(Some(tag))
    ensures TagStateName(v[17]) == tagState && !(v[16] == 0 && v[17] == 2)
  {
    hide ToHex, Hb, FromLittle, FromLittleSigned, BytesToTag, Numeral, ToText, CatFlapLockStateName, TagStateName,
      F.CurfewEntries, F.DecodeSetting, F.FeedTag, PetDoorLockStateValue, FeederStateName;
    assert v != [] && F.DecodeBody(t, device, v).Ok? && F.DecodeBody(t, device, v).value.Tag?;
    assert F.Decode11(t, v) == F.DecodeBody(t, device, v);
  }

  lemma NotLower(s: string)
    requires forall i :: 0 <= i < |Lower(s)| ==> !('a' <= Lower(s)[i] <= 'z')
    ensures Lower(s) == s
  {
    forall i | 0 <= i < |s|
      ensures Lower(s)[i] == s[i]
    {
      assert Lower(s)[i] == LowerCase(s[i]);
    }
  }

  lemma ChipNoLetters(country: nat, number: nat)
    ensures forall i :: 0 <= i < |ChipText(country, number)| ==> !('a' <= ChipText(country, number)[i] <= 'z')
  {
    var c, n := Numeral(10, country), ZFill(Numeral(10, number), 12);
    hide Numeral;
    var s := ChipText(country, number);
    assert forall i :: 0 <= i < |s| ==> s[i] == '.' || s[i] in c || s[i] in n;
  }

  /** A chip some seven bytes decode to, in lower case, is ten hexadecimal digits or an FDX-B chip with a country. */
  lemma ChipOfBytes(bs: seq<byte>, chip: string) returns (country: nat, number: nat)
    requires |bs| == 7 && bs[6] in {0x01, 0x03, 0x07} && BytesToTag(bs) == Ok(Some(Lower(chip)))
    ensures || (|chip| == 10 && IsNumeral(16, chip))
            || (1 <= country && IsChip(country, number) && chip == ChipText(country, number))
  {
    country, number := 0, 0;
    NeverEmpty(chip);
    if bs[6] == 1 {
      FdxDecodes(bs);
      var n := FromLittle(bs[..6]);
      country, number := n / 0x40_0000_0000, n % 0x40_0000_0000;
      hide ChipText, FromLittle, BytesToTag;
      ChipNoLetters(country, number);
      NotLower(chip);
    } else if bs[6] == 3 {
      ToHexPrinted(bs[..5]);
      hide ToHex, IsPrinted, IsNumeral;
      LowerPrinted(chip);
      LowerTwice(chip);
    }
  }

  lemma LowerTwice(s: string)
    ensures IsPrinted(16, Lower(s)) ==> IsNumeral(16, s)
  {
    LowerPrinted(s);
  }

  /** How many digits a template makes without spaces. */
  function Digits(t: Template, env: map<string, string>): nat {
    match t
    case Done => 0
    case Raw(bs, rest) => 2 * |bs| + Digits(rest, env)
    case Slot(p, rest) => |NoSpaces(if p in env then env[p] else p)| + Digits(rest, env)
  }

  lemma {:induction false} DigitsCounted(t: Template, env: map<string, string>)
    ensures |NoSpaces(Tail(t, env))| == Digits(t, env)
  {
    hide NoSpaces, ToHex, Spaced;
    match t
    case Done => EmptyText();
    case Raw(bs, rest) =>
      DigitsCounted(rest, env);
      NoSpacesCons(Spaced(bs), Tail(rest, env));
      SpacedHex(bs);
    case Slot(p, rest) =>
      DigitsCounted(rest, env);
      NoSpacesCons(if p in env then env[p] else p, Tail(rest, env));
  }

  lemma EmptyText()
    ensures NoSpaces("") == ""
  {
  }

  lemma PayloadSize(clock: string, t: Template, env: map<string, string>)
    requires IsWord(clock) && t != Done && Payload(Message(clock, t, env)).Ok?
    ensures 2 * |Payload(Message(clock, t, env)).value| == Digits(t, env)
  {
    hide Payload, Message, FromHex, NoSpaces, Tail, Digits, IsWord;
    PayloadText(clock, t, env);
    FromHexLength(NoSpaces(Tail(t, env)));
    DigitsCounted(t, env);
  }

  /** Both tag messages have 36 digits or more only if the chip has 14. */
  lemma TagDigits(env: map<string, string>, send: nat, stamp: seq<byte>, index: byte, tagState: byte, lock: byte)
    requires |stamp| == 4 && {ZZ, TT, CC, II, SS} <= env.Keys && env[ZZ] == Spaced(ToLittle(send, 2)) && env[TT] == Spaced(stamp)
    requires env[II] == Hb(index) && env[SS] == Hb(tagState)
    ensures Digits(FeederTemplate(FeederTag), env) == 22 + |NoSpaces(env[CC])|
    ensures KK in env && env[KK] == Hb(lock) ==> Digits(CatFlapTemplate(FlapTag, "", 0), env) == 22 + |NoSpaces(env[CC])|
  {
    hide ZZ, TT, SS, CC, II, KK, NoSpaces, Spaced, ToLittle, Hb, Hex2;
    SpacedHex(ToLittle(send, 2));
    SpacedHex(stamp);
    HbWritten(index);
    HbWritten(tagState);
    HbWritten(lock);
    var i := Slot(II, Slot(SS, Done));
    assert Digits(Slot(SS, Done), env) == |ToHex([tagState])| + Digits(Done, env) == 2;
    assert Digits(i, env) == |ToHex([index])| + 2 == 4;
    assert Digits(Slot(KK, i), env) == |NoSpaces(if KK in env then env[KK] else KK)| + 4;
    var f, c := Slot(CC, Raw([0x02], i)), Slot(CC, Slot(KK, i));
    assert Digits(Raw([0x02], i), env) == 6;
    assert Digits(f, env) == |NoSpaces(env[CC])| + 6;
    assert Digits(Slot(TT, f), env) == 8 + Digits(f, env) && Digits(Slot(TT, c), env) == 8 + Digits(c, env);
    assert Digits(Slot(ZZ, Slot(TT, f)), env) == 12 + Digits(f, env) && Digits(Slot(ZZ, Slot(TT, c)), env) == 12 + Digits(c, env);
  }

  lemma {:induction false} NoSpacesSplit(s: string)
    ensures NoSpaces(SplitByte(s)) == NoSpaces(s)
    decreases |s|
  {
    if 2 < |s| {
      NoSpacesSplit(s[2..]);
      var rest := SplitByte(s[2..]);
      NoSpacesAppend(s[..2] + " ", rest);
      NoSpacesAppend(s[..2], " ");
      NoSpacesAppend(s[..2], s[2..]);
      assert s[..2] + s[2..] == s && NoSpaces(" ") == "" + NoSpaces("") == "";
    }
  }

  lemma {:induction false} NoSpacesShrinks(s: string)
    ensures |NoSpaces(s)| <= |s|
  {
    if s != "" {
      NoSpacesShrinks(s[1..]);
    }
  }

  /** A chip that was read back, in lower case, from a message that holds all its digits is a good one. */
  lemma ChipIsGood(bs: seq<byte>, chip: string)
    requires |bs| == 7 && bs[6] in {0x01, 0x03, 0x07} && BytesToTag(bs) == Ok(Some(Lower(chip)))
    requires ChipToHex(chip).Ok?
    requires IsNumeral(16, ChipToHex(chip).value) ==> 14 <= |NoSpaces(SplitByte(ChipToHex(chip).value))|
    ensures GoodChip(chip)
  {
    hide ChipText, ChipToHex, BytesToTag, IsNumeral, SplitByte, NoSpaces;
    var c, n := ChipOfBytes(bs, chip);
    if !(|chip| == 10 && IsNumeral(16, chip)) {
      FdxLength(c, n);
      FdxNumeral(c, n);
      NoSpacesSplit(ChipToHex(chip).value);
      NoSpacesShrinks(ChipToHex(chip).value);
    }
  }

  lemma FdxNumeral(country: nat, number: nat)
    requires IsChip(country, number)
    ensures ChipToHex(ChipText(country, number)).Ok? && IsNumeral(16, ChipToHex(ChipText(country, number)).value)
  {
    hide ChipText, ChipToHex, Numeral, FromBig, ToLittle;
    ChipHexText(country, number);
    assert IsNumeral(16, "01");
  }

  predicate ReadsBack(r: Result<F.Frame>, body: F.Body) {
    r.Ok? && r.value.body == body
  }

  lemma TagAccepted(state: string)
    requires FeederAccepts(FeederTag, state)
    ensures var parts := Split(state, {'-'});
            |parts| == 3 && TagStateValue(parts[0]).Some? && ParseInt(10, parts[1]).Ok? && ChipToHex(parts[2]).Ok?
  {
    hide Split, ParseInt, ChipToHex;
  }

  /** A feeder's tag message that is long enough for a tag frame holds all digits of its chip. */
  lemma FeederTagLength(state: string, send: nat, now: Stamp, clock: string)
    requires InRange(now) && IsWord(clock) && FeederAccepts(FeederTag, state)
    requires ParseInt(10, Split(state, {'-'})[1]).value < 256
    ensures FeederMessage(FeederTag, state, send, now, clock).Ok?
    ensures var r := Payload(FeederMessage(FeederTag, state, send, now, clock).value);
            r.Ok? && 17 < |r.value| ==> 14 <= |NoSpaces(SplitByte(ChipToHex(Split(state, {'-'})[2]).value))|
  {
    hide *;
    TagAccepted(state);
    var parts := Split(state, {'-'});
    var stamp := StampRoundTrip(now);
    FeederMessageParts(FeederTag, state, send, now, clock);
    FeederTagSlots(state, send, stamp);
    var env := FeederArguments(FeederTag, state, Slots(send, stamp)).value;
    TagStateSmall(parts[0]);
    TagDigits(env, send, stamp, ParseInt(10, parts[1]).value, TagStateValue(parts[0]).value, 0);
    if Payload(FeederMessage(FeederTag, state, send, now, clock).value).Ok? {
      PayloadSize(clock, FeederTemplate(FeederTag), env);
    }
  }

  function FeederTagBody(state: string): F.Body
    requires FeederAccepts(FeederTag, state)
  {
    var parts := Split(state, {'-'});
    F.Tag(Some(Lower(parts[2])), "Normal", 2, ParseInt(10, parts[1]).value, parts[0])
  }

  lemma FeederTagOnlyGood(t: Tables, device: Mac, state: string, send: nat, now: Stamp, clock: string)
    requires InRange(now) && IsWord(clock) && t.pets == map[] && FeederAccepts(FeederTag, state)
    requires FeederMessage(FeederTag, state, send, now, clock).Ok?
    requires ReadsBack(DecodeMessage(t, device, FeederMessage(FeederTag, state, send, now, clock).value), FeederTagBody(state))
    ensures GoodTag(state)
  {
    hide Split, ParseInt, GoodChip, ChipToHex, SplitByte, Lower, IsWord, InRange, F.Decode, Payload, FeederMessage, NoSpaces, BytesToTag,
      TagStateName, TagStateValue, IsNumeral;
    var parts := Split(state, {'-'});
    var v := Payload(FeederMessage(FeederTag, state, send, now, clock).value).value;
    TagFrame(t, device, v, Lower(parts[2]), "Normal", 2, ParseInt(10, parts[1]).value, parts[0]);
    FeederTagLength(state, send, now, clock);
    ChipIsGood(v[8..15], parts[2]);
    F.TagStateIsLock(v[17]);
  }

  /** A feeder's tag message reads back as its own state, index and chip, in lower case, exactly for a good tag. */
  lemma FeederTagExact(t: Tables, device: Mac, state: string, send: nat, now: Stamp, clock: string)
    requires send < 65536 && InRange(now) && IsWord(clock) && t.pets == map[] && FeederAccepts(FeederTag, state)
    ensures FeederMessage(FeederTag, state, send, now, clock).Ok?
    ensures ReadsBack(DecodeMessage(t, device, FeederMessage(FeederTag, state, send, now, clock).value), FeederTagBody(state))
            <==> GoodTag(state)
  {
    hide Split, ParseInt, GoodTag, Lower, IsWord, InRange, DecodeMessage, FeederMessage, FeederAccepts;
    var body := FeederRoundTrip(t, device, FeederTag, state, send, now, clock);
    TagMeans(t, state, body);
    if ReadsBack(DecodeMessage(t, device, FeederMessage(FeederTag, state, send, now, clock).value), FeederTagBody(state)) {
      FeederTagOnlyGood(t, device, state, send, now, clock);
    }
  }

  lemma TagMeans(t: Tables, state: string, body: F.Body)
    requires t.pets == map[] && FeederAccepts(FeederTag, state)
    ensures FeederMeans(t, FeederTag, state, body) ==> body == FeederTagBody(state)
  {
    hide Split, ParseInt, Lower;
  }

  lemma TagStateSmall(name: string)
    ensures TagStateValue(name).Some? ==> TagStateValue(name).value < 256
  {
  }

  lemma FeederTagSlots(state: string, send: nat, stamp: seq<byte>)
    requires FeederAccepts(FeederTag, state)
    ensures var parts := Split(state, {'-'});
            && FeederTemplate(FeederTag) != Done
            && FeederArguments(FeederTag, state, Slots(send, stamp)).Ok?
            && var env := FeederArguments(FeederTag, state, Slots(send, stamp)).value;
            && {ZZ, TT, CC, II, SS} <= env.Keys && env[ZZ] == Spaced(ToLittle(send, 2)) && env[TT] == Spaced(stamp)
            && env[SS] == Hb(TagStateValue(parts[0]).value) && env[II] == Hb(ParseInt(10, parts[1]).value)
            && env[CC] == SplitByte(ChipToHex(parts[2]).value)
  {
    SlotsDistinct();
    hide ZZ, TT, SS, CC, II, KK, Split, ParseInt, ChipToHex, SplitByte, Hb, Spaced, ToLittle, Apart, TagStateValue;
    DistinctSlots();
  }

  /** A cat flap's tag message that is long enough for a tag frame holds all digits of a hexadecimal chip. */
  lemma FlapTagLength(state: string, lm: int, entries: Result<string>, send: nat, now: Stamp, clock: string)
    requires InRange(now) && IsWord(clock) && CatFlapMessage(FlapTag, state, lm, entries, send, now, clock).Ok?
    ensures var parts := Split(state, {'-'});
            && |parts| == 4 && ParseInt(10, parts[0]).Ok? && ChipToHex(parts[1]).Ok?
            && var r := Payload(CatFlapMessage(FlapTag, state, lm, entries, send, now, clock).value);
            r.Ok? && 17 < |r.value| && ParseInt(10, parts[0]).value < 256 && IsNumeral(16, ChipToHex(parts[1]).value) ==>
              14 <= |NoSpaces(SplitByte(ChipToHex(parts[1]).value))|
  {
    hide ZZ, TT, SS, CC, II, KK, AA, WW, LL, CM, Split, ParseInt, ChipToHex, SplitByte, Encoded, Hb, IsWord, InRange,
      Message, CatFlapTemplate, Payload, CatFlapMessage, CatFlapArguments, Digits, NoSpaces, Spaced, ToLittle, AllSlots, IsNumeral,
      FlapLock, FlapTagState;
    var parts := Split(state, {'-'});
    var stamp := StampRoundTrip(now);
    CatFlapMessageParts(FlapTag, state, lm, entries, send, now, clock);
    var env := AllSlots(FlapTag, CatFlapArguments(FlapTag, state, entries).value, send, stamp);
    FlapTagSlots(state, entries, send, stamp);
    if Payload(CatFlapMessage(FlapTag, state, lm, entries, send, now, clock).value).Ok? && ParseInt(10, parts[0]).value < 256 {
      TagDigits(env, send, stamp, ParseInt(10, parts[0]).value, FlapTagState(parts[3]), FlapLock(parts[2]));
      SameTagTemplate(state, lm);
      PayloadSize(clock, CatFlapTemplate(FlapTag, state, lm), env);
    }
  }

  function FlapTagBody(state: string): F.Body
    requires CatFlapTagArguments(state).Ok?
  {
    var parts := Split(state, {'-'});
    F.Tag(Some(Lower(parts[1])), CatFlapLockStateName(FlapLock(parts[2])), FlapLock(parts[2]), ParseInt(10, parts[0]).value,
          TagStateName(FlapTagState(parts[3])))
  }

  lemma FlapTagOnlyGood(t: Tables, device: Mac, state: string, lm: int, entries: Result<string>, send: nat, now: Stamp, clock: string)
    requires InRange(now) && IsWord(clock) && t.pets == map[] && CatFlapTagArguments(state).Ok?
    requires CatFlapMessage(FlapTag, state, lm, entries, send, now, clock).Ok?
    requires ReadsBack(DecodeMessage(t, device, CatFlapMessage(FlapTag, state, lm, entries, send, now, clock).value), FlapTagBody(state))
    ensures GoodFlapTag(state)
  {
    hide Split, ParseInt, GoodChip, ChipToHex, SplitByte, Lower, IsWord, InRange, F.Decode, Payload, CatFlapMessage, NoSpaces, BytesToTag,
      TagStateName, FlapTagState, FlapLock, IsNumeral, CatFlapLockStateName, CatFlapTagArguments;
    var parts := Split(state, {'-'});
    var v := Payload(CatFlapMessage(FlapTag, state, lm, entries, send, now, clock).value).value;
    FlapTagLength(state, lm, entries, send, now, clock);
    TagFrame(t, device, v, Lower(parts[1]), CatFlapLockStateName(FlapLock(parts[2])), FlapLock(parts[2]),
             ParseInt(10, parts[0]).value, TagStateName(FlapTagState(parts[3])));
    ChipIsGood(v[8..15], parts[1]);
    FlapTagNames(parts[3]);
    F.TagStateIsLock(v[17]);
    F.TagStateIsLock(FlapTagState(parts[3]));
  }

  /** And so does a cat flap's, with its lock: exactly for a good tag, among those that are not refused. */
  lemma FlapTagExact(t: Tables, device: Mac, state: string, lm: int, zone: Zone, entries: Result<string>, send: nat, now: Stamp, clock: string)
    requires send < 65536 && InRange(now) && IsWord(clock) && t.pets == map[] && CatFlapAccepts(FlapTag, state, zone)
    ensures CatFlapMessage(FlapTag, state, lm, entries, send, now, clock).Ok? && CatFlapTagArguments(state).Ok?
    ensures ReadsBack(DecodeMessage(t, device, CatFlapMessage(FlapTag, state, lm, entries, send, now, clock).value), FlapTagBody(state))
            <==> GoodFlapTag(state)
  {
    hide Split, ParseInt, GoodFlapTag, Lower, IsWord, InRange, DecodeMessage, CatFlapMessage, CatFlapAccepts, CatFlapTagArguments;
    var body := CatFlapRoundTrip(t, device, FlapTag, state, lm, zone, entries, send, now, clock);
    FlapTagMeans(t, state, zone, lm, body);
    if ReadsBack(DecodeMessage(t, device, CatFlapMessage(FlapTag, state, lm, entries, send, now, clock).value), FlapTagBody(state)) {
      FlapTagOnlyGood(t, device, state, lm, entries, send, now, clock);
    }
  }

  lemma FlapTagMeans(t: Tables, state: string, zone: Zone, lm: int, body: F.Body)
    requires t.pets == map[] && CatFlapAccepts(FlapTag, state, zone)
    ensures CatFlapTagArguments(state).Ok?
    ensures CatFlapMeans(t, FlapTag, state, lm, zone, body) ==> body == FlapTagBody(state)
  {
    hide Split, ParseInt, Lower, Contains, Overwritten, FlapLock, FlapTagState, ChipToHex, CatFlapTagArguments, Hb;
    TagArgumentsParsed(state);
  }

  lemma SameTagTemplate(state: string, lm: int)
    ensures CatFlapTemplate(FlapTag, state, lm) == CatFlapTemplate(FlapTag, "", 0) && CatFlapTemplate(FlapTag, state, lm) != Done
  {
  }

  lemma FlapTagSlots(state: string, entries: Result<string>, send: nat, stamp: seq<byte>)
    requires CatFlapArguments(FlapTag, state, entries).Ok?
    ensures var parts := Split(state, {'-'});
            && |parts| == 4 && ParseInt(10, parts[0]).Ok? && ChipToHex(parts[1]).Ok?
            && var env := AllSlots(FlapTag, CatFlapArguments(FlapTag, state, entries).value, send, stamp);
            && {ZZ, TT, CC, II, SS, KK} <= env.Keys && env[ZZ] == Spaced(ToLittle(send, 2)) && env[TT] == Spaced(stamp)
            && env[SS] == Hb(FlapTagState(parts[3])) && env[II] == Hb(ParseInt(10, parts[0]).value) && env[KK] == Hb(FlapLock(parts[2]))
            && (IsNumeral(16, ChipToHex(parts[1]).value) ==> env[CC] == SplitByte(ChipToHex(parts[1]).value))
  {
    SixApart();
    hide ZZ, TT, SS, CC, II, KK, AA, Split, ParseInt, ChipToHex, SplitByte, Hb, Spaced, ToLittle, FlapLock, FlapTagState, Stamped,
      Overwritten, IsNumeral, CatFlapTagArguments, Contains, AllSlots, TagSlots;
    FlapArgumentText(state);
    var a := CatFlapTagArguments(state).value;
    IntendedEnv(a, send, stamp);
    var h := ChipToHex(Split(state, {'-'})[1]).value;
    if IsNumeral(16, h) {
      HexTextStays(h, a.2, a.3, send, stamp);
    }
  }

  lemma SixApart()
    ensures ZZ != TT && ZZ != SS && ZZ != CC && ZZ != II && ZZ != KK && TT != SS && TT != CC && TT != II && TT != KK
    ensures SS != CC && SS != II && SS != KK && CC != II && CC != KK && II != KK
  {
    SlotsDistinct();
    hide ZZ, TT, SS, CC, II, KK, Apart;
  }
}
