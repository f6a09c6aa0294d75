/** The pet door commands that are read back register by register: its clock and its curfew. */
module DoorCommands {
  import opened Bytes
  import opened Chips
  import opened Databases
  import opened Locks
  import opened Numerals
  import opened Results
  import opened RoundTrips
  import opened Templates
  import opened Texts
  import D = Doors
  import Generators

  // ----- the messages

  function TimeMessage(hour: nat, minute: nat, clock: string): string {
    clock + " 1000 2 34 2 " + (Hb(hour) + " " + Hb(minute))
  }

  /** SetTime: the local time is put into the template. */
  method GenerateTime(hour: nat, minute: nat, clock: string) returns (r: string)
    ensures r == TimeMessage(hour, minute, clock)
  {
    var message := "2 34 2 HH MM";
    TimeSlot(Hb(hour) + " " + Hb(minute));
    message := Replace(message, "HH MM", Hb(hour) + " " + Hb(minute));
    r := clock + " 1000 " + message;
    assert " 1000 " + "2 34 2 " == " 1000 2 34 2 ";
  }

  lemma TimeSlot(rep: string)
    ensures Replace("2 34 2 HH MM", "HH MM", rep) == "2 34 2 " + rep
  {
    assert "2 34 2 HH MM" == "2 34 2 " + "HH MM" + "";
    assert Free("2 34 2 ", {'H'}) && "HH MM"[0] == 'H';
    ReplaceOnce("2 34 2 ", "HH MM", "", rep);
    assert "2 34 2 " + rep + "" == "2 34 2 " + rep;
  }

  /** converttimetohex */
  function TimeToHex(time: string): Result<string> {
    var parts := Split(time, {':'});
    var hour :- ParseInt(10, parts[0]);
    if |parts| < 2 then Err(IndexError) else
    var minute :- ParseInt(10, parts[1]);
    Ok(Hb(hour) + " " + Hb(minute))
  }

  /** The first register: as stored, by name, or a number that stands for a name. */
  function CurfewRegister(enabled: int, state: string): Result<string> {
    if state == "UPD" then Ok(if enabled < 0 then "-" + Numeral(16, -enabled) else Hb(enabled))
    else if state == "OFF" then Ok("01")
    else if state == "ON" then Ok("02")
    else
      var n :- ParseInt(10, state);
      if Hb(n) == "01" || Hb(n) == "02" then Ok(Hb(n)) else Err(Rejected)
  }

  function CurfewMessage(door: Door, state: string, clock: string): Result<string> {
    var times := Split(door.curfews, {'-'});
    var from :- TimeToHex(times[0]);
    if |times| < 2 then Err(IndexError) else
    var to :- TimeToHex(times[1]);
    var switch :- CurfewRegister(door.curfewEnabled, state);
    Ok(clock + " 1000 2 519 6 " + (switch + (" " + (from + " " + to) + " 00")))
  }

  /** SetCurfewState, with the times that are stored for the door. */
  method GenerateCurfewState(db: Database, mac: Mac, state: string, clock: string) returns (r: Result<string>)
    ensures r == if mac in db.doors then CurfewMessage(db.doors[mac], state, clock) else Err(AttributeError)
  {
    hide Split, TimeToHex, CurfewRegister, Replace;
    if mac !in db.doors { return Err(AttributeError); }
    var door := db.doors[mac];
    var message := "2 519 6 SS FF FF TT TT 00";
    var times := Split(door.curfews, {'-'});
    var from := TimeToHex(times[0]);
    if from.Err? { return Err(from.error); }
    if |times| < 2 { return Err(IndexError); }
    var to := TimeToHex(times[1]);
    if to.Err? { return Err(to.error); }
    message := Replace(message, "FF FF TT TT", from.value + " " + to.value);
    var switch := CurfewRegister(door.curfewEnabled, state);
    if switch.Err? { return Err(switch.error); }
    TimesNoUpper(times[0]);
    TimesNoUpper(times[1]);
    CurfewSlots(from.value + " " + to.value, switch.value);
    message := Replace(message, "SS", switch.value);
    r := Ok(clock + " 1000 " + message);
    CommandText(clock, switch.value + (" " + (from.value + " " + to.value) + " 00"));
  }

  lemma TimesNoUpper(time: string)
    ensures TimeToHex(time).Ok? ==> NoUpper(TimeToHex(time).value)
  {
    hide Split, ParseInt, Hb;
    forall n: nat
      ensures NoUpper(Hb(n))
    {
      Generators.HbNoUpper(n);
    }
  }

  lemma CommandText(clock: string, rest: string)
    ensures clock + " 1000 " + ("2 519 6 " + rest) == clock + " 1000 2 519 6 " + rest
  {
    assert " 1000 " + "2 519 6 " == " 1000 2 519 6 ";
  }

  lemma CurfewSlots(times: string, switch: string)
    requires NoUpper(times)
    ensures Replace(Replace("2 519 6 SS FF FF TT TT 00", "FF FF TT TT", times), "SS", switch)
         == "2 519 6 " + (switch + (" " + times + " 00"))
  {
    hide Replace, NoUpper;
    TimesSlot(times);
    SwitchSlot(times, switch);
  }

  lemma TimesSlot(times: string)
    ensures Replace("2 519 6 SS FF FF TT TT 00", "FF FF TT TT", times) == "2 519 6 " + "SS" + (" " + times + " 00")
  {
    hide Replace;
    var a, b := "2 519 6 SS ", " 00";
    assert "2 519 6 SS FF FF TT TT 00" == a + "FF FF TT TT" + b;
    assert Free(a, {'F'}) && Free(b, {'F'}) && "FF FF TT TT"[0] == 'F';
    ReplaceOnce(a, "FF FF TT TT", b, times);
    assert a == "2 519 6 " + "SS" + " ";
    assert "2 519 6 " + "SS" + " " + times + b == "2 519 6 " + "SS" + (" " + times + b);
  }

  lemma SwitchSlot(times: string, switch: string)
    requires NoUpper(times)
    ensures Replace("2 519 6 " + "SS" + (" " + times + " 00"), "SS", switch) == "2 519 6 " + (switch + (" " + times + " 00"))
  {
    hide Replace;
    var a, b := "2 519 6 ", " " + times + " 00";
    assert Free(a, {'S'}) && "SS"[0] == 'S';
    assert Free(b, {'S'});
    ReplaceOnce(a, "SS", b, switch);
    assert a + switch + b == a + (switch + b);
  }

  // ----- reading them back

  /** The fields of a command that writes registers: everything after the length, joined. */
  lemma WriteFields(clock: string, o: string, l: string, offset: nat, length: nat, rest: string)
    requires IsWord(clock) && IsWord(o) && IsWord(l) && length <= 9
    requires ParseInt(10, o) == Ok(offset) && ParseInt(10, l) == Ok(length)
    ensures DoorFields(clock + " " + ("1000" + " " + ("2" + " " + (o + " " + (l + " " + rest))))) == Ok((offset, length, NoSpaces(rest)))
  {
    SmallWords();
    LengthReread(length);
    hide Words, ParseInt, Hb, Free, NoSpaces, Concat;
    WordsCons(l, rest);
    var t3 := l + " " + rest;
    WordsCons(o, t3);
    var t2 := o + " " + t3;
    WordsCons("2", t2);
    var t1 := "2" + " " + t2;
    WordsCons("1000", t1);
    WordsCons(clock, "1000" + " " + t1);
    ConcatWords(rest);
    var words := Words(clock + " " + ("1000" + " " + t1));
    assert words == [clock, "1000", "2", o, l] + Words(rest);
    assert words[5..] == Words(rest);
    TwoIsTwo();
  }

  lemma TwoIsTwo()
    ensures "2" != "132" && "2" != "3"
  {
    assert |"132"| == 3 && "2"[0] == '2' && "3"[0] == '3';
  }

  lemma DecimalText(n: nat)
    ensures IsWord(Numeral(10, n)) && ParseInt(10, Numeral(10, n)) == Ok(n)
  {
    hide IsWord, ParseInt, Value, Numeral;
    ParsePrinted(10, Numeral(10, n));
    ValueOfNumeral(10, n);
    DecimalWord(Numeral(10, n));
  }

  lemma DecimalWords()
    ensures IsWord("34") && IsWord("519") && IsWord("6")
    ensures ParseInt(10, "34") == Ok(34) && ParseInt(10, "2") == Ok(2) && ParseInt(10, "519") == Ok(519) && ParseInt(10, "6") == Ok(6)
  {
    assert Numeral(10, 3) == "3" && Numeral(10, 34) == "34" && Numeral(10, 2) == "2" && Numeral(10, 6) == "6";
    assert Numeral(10, 5) == "5" && Numeral(10, 51) == "51" && Numeral(10, 519) == "519";
    hide *;
    DecimalText(34);
    DecimalText(2);
    DecimalText(519);
    DecimalText(6);
  }

  /** The minute is read without its top bit, so the time that is set is read back exactly when its minute is below 128. */
  lemma TimeReadBack(t: Tables, mac: Mac, hour: byte, minute: byte, clock: string)
    requires IsWord(clock)
    ensures DoorFields(TimeMessage(hour, minute, clock)) == Ok((34, 2, ToHex([hour, minute])))
    ensures D.DecodeDoor(t, mac, 34, 2, ToHex([hour, minute])) == Ok(D.NOTHING.(time := Some((hour as int, minute as int))))
            <==> minute < 128
    ensures D.DecodeDoor(t, mac, 34, 2, ToHex([hour, minute])) == Ok(D.NOTHING.(time := Some((hour as int, minute % 128))))
  {
    TimeFields(hour, minute, clock);
    TimeDecodes(t, mac, hour, minute);
    MinuteRead(hour, minute);
    hide ToHex, D.DecodeDoor, D.DoorTime, DoorFields, TimeMessage;
  }

  lemma MinuteRead(hour: byte, minute: byte)
    ensures D.DoorTime(hour, minute) == (hour as int, minute % 128)
  {
  }

  lemma TimeDecodes(t: Tables, mac: Mac, hour: byte, minute: byte)
    ensures D.DecodeDoor(t, mac, 34, 2, ToHex([hour, minute])) == Ok(D.NOTHING.(time := Some(D.DoorTime(hour, minute))))
  {
    hide ToHex, FromHex, D.DoorTime;
    HexRoundTrip([hour, minute]);
  }

  lemma TimeFields(hour: byte, minute: byte, clock: string)
    requires IsWord(clock)
    ensures DoorFields(TimeMessage(hour, minute, clock)) == Ok((34, 2, ToHex([hour, minute])))
  {
    hide *;
    TimeText(hour, minute);
    SmallWords();
    DecimalWords();
    WriteFields(clock, "34", "2", 34, 2, Hb(hour) + " " + Hb(minute));
    TimeWords(hour, minute, clock);
  }

  lemma TimeWords(hour: nat, minute: nat, clock: string)
    ensures TimeMessage(hour, minute, clock)
         == clock + " " + ("1000" + " " + ("2" + " " + ("34" + " " + ("2" + " " + (Hb(hour) + " " + Hb(minute))))))
  {
    hide Hb;
    var rest := Hb(hour) + " " + Hb(minute);
    assert " 1000 2 34 2 " == " " + "1000" + " " + "2" + " " + "34" + " " + "2" + " ";
    assert clock + (" " + "1000" + " " + "2" + " " + "34" + " " + "2" + " ") + rest
        == clock + " " + ("1000" + " " + ("2" + " " + ("34" + " " + ("2" + " " + rest))));
  }

  lemma TimeText(hour: byte, minute: byte)
    ensures NoSpaces(Hb(hour) + " " + Hb(minute)) == ToHex([hour, minute])
  {
    hide Hb, NoSpaces, ToHex;
    HbWritten(hour);
    HbWritten(minute);
    NoSpacesCons(Hb(minute), "");
    NoSpacesAppend(Hb(hour), " " + Hb(minute));
    ToHexAppend([hour], [minute]);
    NoSpacesNothing();
    assert Hb(hour) + " " + Hb(minute) == Hb(hour) + (" " + Hb(minute)) && " " + Hb(minute) + "" == " " + Hb(minute);
    assert [hour] + [minute] == [hour, minute] && ToHex([minute]) + "" == ToHex([minute]);
  }

  lemma NoSpacesNothing()
    ensures NoSpaces("") == ""
  {
  }

  /** Two times of two digits each, or three for numbers from 100 on, as the decoder prints four registers. */
  function Times(a: byte, b: byte, c: byte, d: byte): string {
    D.CurfewText([0, a, b, c, d])
  }

  ghost predicate CurfewKept(t: Tables, mac: Mac, door: Door, clock: string) {
    match CurfewMessage(door, "UPD", clock)
    case Err(_) => false
    case Ok(message) =>
      match DoorFields(message)
      case Err(_) => false
      case Ok((offset, length, value)) =>
        D.DecodeDoor(t, mac, offset, length, value) == Ok(D.NOTHING.(other := D.CurfewSetting(door.curfewEnabled, door.curfews)))
  }

  /** The stored curfew is read back from the command that repeats it exactly when it is one the decoder could have printed. */
  lemma CurfewReadBack(t: Tables, mac: Mac, door: Door, clock: string)
    requires IsWord(clock)
    ensures CurfewKept(t, mac, door, clock)
       <==> 0 <= door.curfewEnabled < 256 && exists a, b, c, d :: door.curfews == Times(a, b, c, d)
  {
    hide DoorFields, CurfewMessage, D.CurfewText, FromHex, IsWord;
    if CurfewKept(t, mac, door, clock) {
      var (offset, length, value) := DoorFields(CurfewMessage(door, "UPD", clock).value).value;
      CurfewPrinted(t, mac, door, offset, length, value);
    }
    if a, b, c, d :| 0 <= door.curfewEnabled < 256 && door.curfews == Times(a, b, c, d) {
      CurfewSent(t, mac, door, clock, a, b, c, d);
    }
  }

  lemma CurfewPrinted(t: Tables, mac: Mac, door: Door, offset: nat, length: nat, value: string)
    requires D.DecodeDoor(t, mac, offset, length, value) == Ok(D.NOTHING.(other := D.CurfewSetting(door.curfewEnabled, door.curfews)))
    ensures 0 <= door.curfewEnabled < 256 && exists a, b, c, d :: door.curfews == Times(a, b, c, d)
  {
    hide FromHex, D.SlotTag, D.MovementSlot, D.CurfewText, D.DoorTime, DoorHexToChip;
    var m := FromHex(value).value;
    assert offset == 519 && 4 < |m| && door.curfewEnabled == m[0] && door.curfews == D.CurfewText(m);
    TimesOf(m);
  }

  lemma TimesOf(m: seq<byte>)
    requires 4 < |m|
    ensures D.CurfewText(m) == Times(m[1], m[2], m[3], m[4])
  {
    hide Numeral, ZFill;
  }

  lemma CurfewSent(t: Tables, mac: Mac, door: Door, clock: string, a: byte, b: byte, c: byte, d: byte)
    requires IsWord(clock) && 0 <= door.curfewEnabled < 256 && door.curfews == Times(a, b, c, d)
    ensures CurfewKept(t, mac, door, clock)
  {
    hide DoorFields, CurfewMessage, IsWord, ToHex, Times, D.DecodeDoor, CurfewRest;
    CurfewFields(door.curfewEnabled, a, b, c, d, clock);
    CurfewTextIs(door, a, b, c, d, clock);
    CurfewDecodes(t, mac, door.curfewEnabled, a, b, c, d);
  }

  /** The registers of a curfew as they stand in the message. */
  function CurfewRest(e: byte, a: byte, b: byte, c: byte, d: byte): string {
    Hb(e) + (" " + ((Hb(a) + " " + Hb(b)) + " " + (Hb(c) + " " + Hb(d))) + " 00")
  }

  lemma CurfewTextIs(door: Door, a: byte, b: byte, c: byte, d: byte, clock: string)
    requires 0 <= door.curfewEnabled < 256 && door.curfews == Times(a, b, c, d)
    ensures CurfewMessage(door, "UPD", clock) == Ok(clock + " 1000 2 519 6 " + CurfewRest(door.curfewEnabled, a, b, c, d))
  {
    hide Times, Hb, Split, TimeToHex;
    TimesParse(a, b, c, d);
  }

  lemma CurfewFields(e: byte, a: byte, b: byte, c: byte, d: byte, clock: string)
    requires IsWord(clock)
    ensures DoorFields(clock + " 1000 2 519 6 " + CurfewRest(e, a, b, c, d)) == Ok((519, 6, ToHex([e, a, b, c, d, 0])))
  {
    CurfewBytes(e, a, b, c, d);
    hide *;
    SmallWords();
    DecimalWords();
    WriteFields(clock, "519", "6", 519, 6, CurfewRest(e, a, b, c, d));
    CurfewWords(clock, CurfewRest(e, a, b, c, d));
  }

  lemma CurfewWords(clock: string, rest: string)
    ensures clock + " 1000 2 519 6 " + rest == clock + " " + ("1000" + " " + ("2" + " " + ("519" + " " + ("6" + " " + rest))))
  {
    assert " 1000 2 519 6 " == " " + "1000" + " " + "2" + " " + "519" + " " + "6" + " ";
    assert clock + (" " + "1000" + " " + "2" + " " + "519" + " " + "6" + " ") + rest
        == clock + " " + ("1000" + " " + ("2" + " " + ("519" + " " + ("6" + " " + rest))));
  }

  /** A curfew report is stored as its switch and its four numbers. */
  lemma CurfewStored(t: Tables, mac: Mac, e: byte, a: byte, b: byte, c: byte, d: byte, rest: seq<byte>, length: nat, now: string)
    ensures var times := Times(a, b, c, d);
            var value := ToHex([e, a, b, c, d] + rest);
            && D.DecodeDoor(t, mac, 519, length, value) == Ok(D.NOTHING.(other := D.CurfewSetting(e, times)))
            && D.DoorEffect(t, mac, 519, length, value, now) == t.SetCurfew(mac, e, times)
  {
    hide ToHex, FromHex, Numeral, ZFill, Tables.SetCurfew;
    HexRoundTrip([e, a, b, c, d] + rest);
  }

  lemma CurfewDecodes(t: Tables, mac: Mac, e: byte, a: byte, b: byte, c: byte, d: byte)
    ensures D.DecodeDoor(t, mac, 519, 6, ToHex([e, a, b, c, d, 0])) == Ok(D.NOTHING.(other := D.CurfewSetting(e, Times(a, b, c, d))))
  {
    hide ToHex, FromHex, Numeral, ZFill;
    HexRoundTrip([e, a, b, c, d, 0]);
  }

  lemma CurfewBytes(e: byte, a: byte, b: byte, c: byte, d: byte)
    ensures NoSpaces(CurfewRest(e, a, b, c, d)) == ToHex([e, a, b, c, d, 0])
  {
    hide Hb, NoSpaces, ToHex;
    TimeText(a, b);
    TimeText(c, d);
    HbWritten(e);
    ZeroText();
    var x, y := Hb(a) + " " + Hb(b), Hb(c) + " " + Hb(d);
    NoSpacesAppend(Hb(e), " " + (x + " " + y) + " 00");
    NoSpacesCons(x + " " + y, " 00");
    assert x + " " + y == x + (" " + y + "");
    NoSpacesAppend(x, " " + y + "");
    NoSpacesCons(y, "");
    NoSpacesNothing();
    ToHexAppend([a, b], [c, d]);
    ToHexAppend([a, b] + [c, d], [0]);
    ToHexAppend([e], [a, b] + [c, d] + [0]);
    assert [e] + ([a, b] + [c, d] + [0]) == [e, a, b, c, d, 0];
    assert ToHex([c, d]) + "" == ToHex([c, d]);
  }

  lemma ZeroText()
    ensures NoSpaces(" 00") == ToHex([0])
  {
    hide *;
    HbWritten(0);
    ZeroHex();
    NoSpacesCons("00", "");
    NoSpacesNothing();
    assert " 00" == " " + "00" + "";
    assert ToHex([0]) + "" == ToHex([0]);
  }

  lemma ZeroHex()
    ensures Hb(0) == "00"
  {
    Hex2Value(0);
    assert Fixed(16, 0, 1) == "" + "0";
  }

  /** The times stored for a door are repeated behind the switch: 02 is on, 01 is off, and nothing else is accepted. */
  lemma CurfewTexts(enabled: int, lm: int, a: byte, b: byte, c: byte, d: byte, state: string, clock: string)
    requires state != "UPD"
    ensures CurfewMessage(Door(lm, enabled, Times(a, b, c, d)), state, clock)
         == var times := Hex2(a) + " " + Hex2(b) + " " + Hex2(c) + " " + Hex2(d) + " 00";
            if state == "ON" || ParseInt(10, state) == Ok(2) then Ok(clock + " 1000 2 519 6 02 " + times)
            else if state == "OFF" || ParseInt(10, state) == Ok(1) then Ok(clock + " 1000 2 519 6 01 " + times)
            else Err(if ParseInt(10, state).Ok? then Rejected else ValueError)
  {
    SwitchRegister(enabled, state);
    TimesParse(a, b, c, d);
    Hex2Value(a);
    Hex2Value(b);
    Hex2Value(c);
    Hex2Value(d);
    CurfewSpaces(clock, Hex2(a), Hex2(b), Hex2(c), Hex2(d));
    hide *;
    CurfewMessageIs(enabled, lm, Times(a, b, c, d), state, clock);
  }

  lemma CurfewMessageIs(enabled: int, lm: int, curfews: string, state: string, clock: string)
    ensures var times := Split(curfews, {'-'});
            2 <= |times| && TimeToHex(times[0]).Ok? && TimeToHex(times[1]).Ok? ==>
              CurfewMessage(Door(lm, enabled, curfews), state, clock)
              == match CurfewRegister(enabled, state)
                 case Err(e) => Err(e)
                 case Ok(switch) =>
                   Ok(clock + " 1000 2 519 6 "
                      + (switch + (" " + (TimeToHex(times[0]).value + " " + TimeToHex(times[1]).value) + " 00")))
  {
    hide Split, TimeToHex, CurfewRegister;
  }

  lemma CurfewSpaces(clock: string, a: string, b: string, c: string, d: string)
    ensures var front := clock + " 1000 2 519 6 ";
            var times := a + " " + b + " " + c + " " + d + " 00";
            && front + ("02" + (" " + ((a + " " + b) + " " + (c + " " + d)) + " 00")) == clock + " 1000 2 519 6 02 " + times
            && front + ("01" + (" " + ((a + " " + b) + " " + (c + " " + d)) + " 00")) == clock + " 1000 2 519 6 01 " + times
  {
    var times := a + " " + b + " " + c + " " + d + " 00";
    assert " " + ((a + " " + b) + " " + (c + " " + d)) + " 00" == " " + times;
    assert " 1000 2 519 6 " + "02" + " " == " 1000 2 519 6 02 " && " 1000 2 519 6 " + "01" + " " == " 1000 2 519 6 01 ";
    assert clock + " 1000 2 519 6 " + ("02" + (" " + times)) == clock + (" 1000 2 519 6 " + "02" + " ") + times;
    assert clock + " 1000 2 519 6 " + ("01" + (" " + times)) == clock + (" 1000 2 519 6 " + "01" + " ") + times;
  }

  /** UPD repeats the stored switch in hexadecimal. */
  lemma StoredRegister(enabled: int)
    ensures CurfewRegister(enabled, "UPD").Ok?
    ensures var text := CurfewRegister(enabled, "UPD").value;
            if enabled < 0 then text[0] == '-' && Value(16, text[1..]) == -enabled
            else enabled < 256 ==> text == Hex2(enabled)
  {
    hide Numeral, Value, Hb, Hex2;
    if enabled < 0 {
      ValueOfNumeral(16, -enabled);
      assert ("-" + Numeral(16, -enabled))[1..] == Numeral(16, -enabled);
    } else if enabled < 256 {
      Hex2Value(enabled);
    }
  }

  lemma SwitchRegister(enabled: int, state: string)
    requires state != "UPD"
    ensures CurfewRegister(enabled, state)
         == if state == "ON" || ParseInt(10, state) == Ok(2) then Ok("02")
            else if state == "OFF" || ParseInt(10, state) == Ok(1) then Ok("01")
            else Err(if ParseInt(10, state).Ok? then Rejected else ValueError)
  {
    NamesNoNumbers();
    forall n: nat
      ensures Hb(n) == "01" <==> n == 1
      ensures Hb(n) == "02" <==> n == 2
    {
      OneTwo(n);
    }
    hide Hb;
  }

  lemma NamesNoNumbers()
    ensures ParseInt(10, "ON").Err? && ParseInt(10, "OFF").Err? && "ON" != "OFF"
  {
    assert DigitValue("ON"[0]) == 16 && DigitValue("OFF"[0]) == 16 && |"ON"| == 2;
    StripNothing("ON");
    StripNothing("OFF");
  }

  lemma OneTwo(n: nat)
    ensures Hb(n) == "01" <==> n == 1
    ensures Hb(n) == "02" <==> n == 2
  {
    PairDigits(1);
    PairDigits(2);
    Hex2Value(1);
    Hex2Value(2);
    NumberHasNoSpace(n);
    hide Hb, Hex2;
    if |Hb(n)| == 2 {
      Hex2Value(n);
      PairDigits(n);
    }
  }

  /** A number below 256 as the decoder prints it: at least two digits. */
  lemma ByteParses(x: byte)
    ensures ParseInt(10, ZFill(Numeral(10, x), 2)) == Ok(x)
    ensures Free(ZFill(Numeral(10, x), 2), {':'}) && Free(ZFill(Numeral(10, x), 2), {'-'})
  {
    var n := Numeral(10, x);
    var s := ZFill(n, 2);
    ValueOfNumeral(10, x);
    ZFillValue(n);
    assert DigitValue(':') == 16 && DigitValue('-') == 16;
    ParsePrinted(10, s);
  }

  lemma ZFillValue(s: string)
    requires IsPrinted(10, s) && s != ""
    ensures Value(10, ZFill(s, 2)) == Value(10, s) && IsPrinted(10, ZFill(s, 2))
  {
    if |s| < 2 {
      var t := ZFill(s, 2);
      assert t == ['0'] + s && t[..1] == "0" && t[..1][..0] == "" && s[..0] == "";
      assert Value(10, "0") == 0;
    }
  }

  lemma TimesParse(a: byte, b: byte, c: byte, d: byte)
    ensures var times := Split(Times(a, b, c, d), {'-'});
            && |times| == 2 && TimeToHex(times[0]) == Ok(Hb(a) + " " + Hb(b)) && TimeToHex(times[1]) == Ok(Hb(c) + " " + Hb(d))
  {
    hide ParseInt, Split, Numeral, ZFill, Hb, Free;
    ByteParses(a);
    ByteParses(b);
    ByteParses(c);
    ByteParses(d);
    TimesSplit(ZFill(Numeral(10, a), 2), ZFill(Numeral(10, b), 2), ZFill(Numeral(10, c), 2), ZFill(Numeral(10, d), 2));
    hide D.CurfewText;
    TimesAre(a, b, c, d);
  }

  lemma TimesAre(a: byte, b: byte, c: byte, d: byte)
    ensures Times(a, b, c, d)
         == ZFill(Numeral(10, a), 2) + ":" + ZFill(Numeral(10, b), 2) + "-" + ZFill(Numeral(10, c), 2) + ":" + ZFill(Numeral(10, d), 2)
  {
    hide ZFill, Numeral;
  }

  lemma TimesSplit(p: string, q: string, r: string, s: string)
    requires Free(p, {':'}) && Free(q, {':'}) && Free(r, {':'}) && Free(s, {':'})
    requires Free(p, {'-'}) && Free(q, {'-'}) && Free(r, {'-'}) && Free(s, {'-'})
    ensures var times := Split(p + ":" + q + "-" + r + ":" + s, {'-'});
            |times| == 2 && Split(times[0], {':'}) == [p, q] && Split(times[1], {':'}) == [r, s]
  {
    var x, y := p + [':'] + q, r + [':'] + s;
    assert Free(x, {'-'}) && Free(y, {'-'});
    hide Split, Free;
    assert p + ":" + q + "-" + r + ":" + s == x + ['-'] + y;
    SplitAppend(x, '-', y, {'-'});
    SplitFree(y, {'-'});
    SplitAppend(p, ':', q, {':'});
    SplitFree(q, {':'});
    SplitAppend(r, ':', s, {':'});
    SplitFree(s, {':'});
  }
}
