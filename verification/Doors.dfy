/**
 Pet doors: parsedoorframe reads whichever registers a 132 or 2 message covers, and the
 tables follow the lock register, the battery and the movements of the pets.
 */
module Doors {
  import opened Bytes
  import opened Chips
  import opened Constants
  import opened Databases
  import opened Numerals
  import opened Results

  /** Registers from 91 on come one subject at a time. */
  datatype Other =
    | NoOther
    | ProvisionedChip(pet: int, chip: string)
    | CurfewSetting(curfewState: int, curfews: string)
    | Movement(slot: int, animal: string, direction: string)
    | NoMovement
    | UnknownPet

  datatype Report = Report(
    battery: Option<byte>,
    time: Option<(int, int)>,
    lock: Option<byte>,
    lockedOut: Option<byte>,
    chipCount: Option<byte>,
    chipSlot: Option<byte>,
    other: Other)

  /** The register a message covers, read at its place in the message. */
  function At(m: seq<byte>, offset: nat, length: nat, register: nat): Result<Option<byte>> {
    if !(offset <= register < offset + length) then Ok(None)
    else if register - offset < |m| then Ok(Some(m[register - offset]))
    else Err(IndexError)
  }

  /** converttime: hours, and minutes without their top bit. */
  function DoorTime(hour: byte, minute: byte): (int, int) {
    (hour as int, if 128 <= minute then minute as int - 128 else minute as int)
  }

  /** Registers 34 and 35, when the message covers both. */
  function TimeAt(m: seq<byte>, offset: nat, length: nat): Result<Option<(int, int)>> {
    if !(offset <= 34 && 35 < offset + length) then Ok(None)
    else if 35 - offset < |m| then Ok(Some(DoorTime(m[34 - offset], m[35 - offset])))
    else Err(IndexError)
  }

  /** Battery voltage in ten-thousandths. */
  function Voltage(adc: byte): int {
    adc as int * 225 + 21075
  }

  /** round(n / d), for divisors that leave no halves. */
  function RoundOdd(n: nat, d: nat): nat
    requires d == 3 || d == 7
  {
    (n + d / 2) / d
  }

  /** The slot a movement message is about. */
  function MovementSlot(offset: nat): int
    requires 525 <= offset
  {
    RoundOdd(offset - 522, 3) - 1
  }

  /** hh:mm-hh:mm in decimal. */
  function CurfewText(m: seq<byte>): string
    requires 4 < |m|
  {
    ZFill(Numeral(10, m[1]), 2) + ":" + ZFill(Numeral(10, m[2]), 2) + "-" + ZFill(Numeral(10, m[3]), 2) + ":" + ZFill(Numeral(10, m[4]), 2)
  }

  /** The pet whose tag sits in a slot of this door. */
  function SlotTag(t: Tables, mac: Mac, slot: int): Option<string> {
    if (mac, slot) in t.tagmap && t.tagmap[(mac, slot)] in t.pets then Some(t.tagmap[(mac, slot)]) else None
  }

  function DecodeOther(t: Tables, mac: Mac, offset: nat, value: string, m: seq<byte>): Result<Other> {
    if 91 <= offset < 309 then
      var chip :- DoorHexToChip(if |value| < 4 then "" else value[4..]);
      Ok(ProvisionedChip(RoundOdd(offset - 84, 7) - 1, chip))
    else if offset == 519 then
      if |m| <= 4 then Err(IndexError) else Ok(CurfewSetting(m[0], CurfewText(m)))
    else if 525 <= offset < 618 then
      if |m| <= 2 then Err(IndexError) else Ok(MovementReport(t, mac, MovementSlot(offset), m[2]))
    else if offset == 621 then Ok(UnknownPet)
    else Ok(NoOther)
  }

  function DecodeDoor(t: Tables, mac: Mac, offset: nat, length: nat, value: string): Result<Report> {
    var m :- FromHex(value);
    var battery :- At(m, offset, length, 33);
    var time :- TimeAt(m, offset, length);
    var lock :- At(m, offset, length, 36);
    var lockedOut :- At(m, offset, length, 40);
    var chipCount :- At(m, offset, length, 59);
    var chipSlot :- At(m, offset, length, 60);
    var other :- DecodeOther(t, mac, offset, value, m);
    Ok(Report(battery, time, lock, lockedOut, chipCount, chipSlot, other))
  }

  /** The row of a pet after a movement: inside for 0x61 and 0x81, otherwise outside. */
  function Moved(t: Tables, mac: Mac, slot: int, movement: byte, now: string): Tables {
    match SlotTag(t, mac, slot)
    case Some(tag) => t.SetPetState(tag, mac, Located(movement == 0x61 || movement == 0x81), now)
    case None => t
  }

  /** Rows are updated as the registers are read, so they stay even if a later register is missing. */
  function DoorEffect(t: Tables, mac: Mac, offset: nat, length: nat, value: string, now: string): Tables {
    match FromHex(value)
    case Err(_) => t
    case Ok(m) =>
      var charged := match At(m, offset, length, 33) { case Ok(Some(adc)) => t.SetBattery(mac, Voltage(adc)) case _ => t };
      var locked := match At(m, offset, length, 36) { case Ok(Some(mode)) => charged.SetLockingMode(mac, mode) case _ => charged };
      if offset == 519 && 4 < |m| then locked.SetCurfew(mac, m[0], CurfewText(m))
      else if 525 <= offset < 618 && 2 < |m| && m[2] != 0 then Moved(locked, mac, MovementSlot(offset), m[2], now)
      else locked
  }

  function MovementReport(t: Tables, mac: Mac, slot: int, movement: byte): Other {
    if movement == 0 then NoMovement
    else
      var direction := match PetDoorDirectionName(movement) { case Some(name) => name case None => "Other " + Hb(movement) };
      Movement(slot, match SlotTag(t, mac, slot) { case Some(tag) => t.pets[tag] case None => "Unknown" }, direction)
  }

  /** A pet in front of the door: found by its slot, it is moved in or out. */
  method StoreMovement(db: Database, mac: Mac, slot: int, movement: byte, now: string) returns (other: Other)
    modifies db`petstate
    ensures other == MovementReport(old(db.Rows()), mac, slot, movement)
    ensures db.Rows() == if movement == 0 then old(db.Rows()) else Moved(old(db.Rows()), mac, slot, movement, now)
  {
    hide Hb, PetDoorDirectionName;
    if movement == 0 { return NoMovement; }
    var direction := match PetDoorDirectionName(movement) { case Some(name) => name case None => "Other " + Hb(movement) };
    var animal := "Unknown";
    if (mac, slot) in db.tagmap && db.tagmap[(mac, slot)] in db.pets {
      var tag := db.tagmap[(mac, slot)];
      animal := db.pets[tag];
      db.UpdatePetState(tag, mac, Located(movement == 0x61 || movement == 0x81), now);
    }
    other := Movement(slot, animal, direction);
  }

  /** parsedoorframe */
  method ParseDoorFrame(db: Database, mac: Mac, offset: nat, length: nat, value: string, now: string) returns (r: Result<Report>)
    modifies db
    ensures r == DecodeDoor(old(db.Rows()), mac, offset, length, value)
    ensures db.Rows() == DoorEffect(old(db.Rows()), mac, offset, length, value, now)
  {
    hide FromHex, DoorHexToChip, CurfewText, MovementReport, Moved, MovementSlot;
    var hex := FromHex(value);
    if hex.Err? { return Err(hex.error); }
    var m := hex.value;
    var report := Report(None, None, None, None, None, None, NoOther);
    if offset <= 33 < offset + length {
      if |m| <= 33 - offset { return Err(IndexError); }
      report := report.(battery := Some(m[33 - offset]));
      db.UpdateBattery(mac, Voltage(m[33 - offset]));
    }
    if offset <= 34 && 35 < offset + length {
      if |m| <= 35 - offset { return Err(IndexError); }
      report := report.(time := Some(DoorTime(m[34 - offset], m[35 - offset])));
    }
    if offset <= 36 < offset + length {
      if |m| <= 36 - offset { return Err(IndexError); }
      report := report.(lock := Some(m[36 - offset]));
      db.UpdateLockingMode(mac, m[36 - offset]);
    }
    if offset <= 40 < offset + length {
      if |m| <= 40 - offset { return Err(IndexError); }
      report := report.(lockedOut := Some(m[40 - offset]));
    }
    if offset <= 59 < offset + length {
      if |m| <= 59 - offset { return Err(IndexError); }
      report := report.(chipCount := Some(m[59 - offset]));
    }
    if offset <= 60 < offset + length {
      if |m| <= 60 - offset { return Err(IndexError); }
      report := report.(chipSlot := Some(m[60 - offset]));
    }
    if 91 <= offset < 309 {
      var chip :- DoorHexToChip(if |value| < 4 then "" else value[4..]);
      report := report.(other := ProvisionedChip(RoundOdd(offset - 84, 7) - 1, chip));
    }
    if offset == 519 {
      if |m| <= 4 { return Err(IndexError); }
      report := report.(other := CurfewSetting(m[0], CurfewText(m)));
      db.UpdateCurfew(mac, m[0], CurfewText(m));
    }
    if 525 <= offset < 618 {
      if |m| <= 2 { return Err(IndexError); }
      var other := StoreMovement(db, mac, MovementSlot(offset), m[2], now);
      report := report.(other := other);
    }
    if offset == 621 {
      report := report.(other := UnknownPet);
    }
    r := Ok(report);
  }

  // ----- register dumps

  function Merge<T>(first: Option<T>, second: Option<T>): Option<T> {
    if second.Some? then second else first
  }

  /** What two reports say together; the later one counts. */
  function MergeReports(a: Report, b: Report): Report {
    Report(Merge(a.battery, b.battery), Merge(a.time, b.time), Merge(a.lock, b.lock), Merge(a.lockedOut, b.lockedOut),
           Merge(a.chipCount, b.chipCount), Merge(a.chipSlot, b.chipSlot), b.other)
  }

  const NOTHING := Report(None, None, None, None, None, None, NoOther)

  function Sum(lengths: seq<nat>): nat {
    if lengths == [] then 0 else lengths[0] + Sum(lengths[1..])
  }

  /** The dump of a window of registers, as its text. */
  function Dump(registers: seq<byte>, start: nat, length: nat): string
    requires start + length <= |registers|
  {
    ToHex(registers[start..start + length])
  }

  /** Decoding the window in chunks of these lengths, merging what they report. */
  function DecodeChunks(t: Tables, mac: Mac, registers: seq<byte>, start: nat, lengths: seq<nat>, now: string): Result<Report>
    requires start + Sum(lengths) <= |registers|
    decreases |lengths|
  {
    if lengths == [] then Ok(NOTHING) else
    var n := lengths[0];
    var first :- DecodeDoor(t, mac, start, n, Dump(registers, start, n));
    var rest :- DecodeChunks(DoorEffect(t, mac, start, n, Dump(registers, start, n), now), mac, registers, start + n, lengths[1..], now);
    Ok(MergeReports(first, rest))
  }

  function EffectChunks(t: Tables, mac: Mac, registers: seq<byte>, start: nat, lengths: seq<nat>, now: string): Tables
    requires start + Sum(lengths) <= |registers|
    decreases |lengths|
  {
    if lengths == [] then t else
    var n := lengths[0];
    EffectChunks(DoorEffect(t, mac, start, n, Dump(registers, start, n), now), mac, registers, start + n, lengths[1..], now)
  }

  /** A chunk ends between the two time registers. */
  predicate CutsTime(start: nat, lengths: seq<nat>)
    decreases |lengths|
  {
    lengths != [] && ((start <= 34 && start + lengths[0] == 35 && 0 < Sum(lengths[1..])) || CutsTime(start + lengths[0], lengths[1..]))
  }

  function Has(register: nat, start: nat, length: nat, registers: seq<byte>): Option<byte>
    requires start + length <= |registers|
  {
    if start <= register < start + length then Some(registers[register]) else None
  }

  function HasTime(start: nat, length: nat, registers: seq<byte>): Option<(int, int)>
    requires start + length <= |registers|
  {
    if start <= 34 && 35 < start + length then Some(DoorTime(registers[34], registers[35])) else None
  }

  /** What a window of the register file says. */
  function WindowReport(registers: seq<byte>, start: nat, length: nat): Report
    requires start + length <= |registers|
  {
    Report(Has(33, start, length, registers), HasTime(start, length, registers), Has(36, start, length, registers),
           Has(40, start, length, registers), Has(59, start, length, registers), Has(60, start, length, registers), NoOther)
  }

  /** Decoding one window reads it off the register file. */
  lemma WindowDecodes(t: Tables, mac: Mac, registers: seq<byte>, start: nat, length: nat, now: string)
    requires start + length <= |registers| && start < 91
    ensures DecodeDoor(t, mac, start, length, Dump(registers, start, length)) == Ok(WindowReport(registers, start, length))
    ensures DoorEffect(t, mac, start, length, Dump(registers, start, length), now)
         == RowsAfter(t, mac, WindowReport(registers, start, length))
  {
    var m := registers[start..start + length];
    HexRoundTrip(m);
    WindowReads(registers, start, length, 33);
    WindowReads(registers, start, length, 36);
    WindowReads(registers, start, length, 40);
    WindowReads(registers, start, length, 59);
    WindowReads(registers, start, length, 60);
    WindowReadsTime(registers, start, length);
    hide FromHex, ToHex, At, TimeAt, Has, HasTime, Voltage, Tables.SetBattery, Tables.SetLockingMode;
  }

  lemma WindowReads(registers: seq<byte>, start: nat, length: nat, register: nat)
    requires start + length <= |registers|
    ensures At(registers[start..start + length], start, length, register) == Ok(Has(register, start, length, registers))
  {
  }

  lemma WindowReadsTime(registers: seq<byte>, start: nat, length: nat)
    requires start + length <= |registers|
    ensures TimeAt(registers[start..start + length], start, length) == Ok(HasTime(start, length, registers))
  {
  }

  /** The rows after a report of the low registers. */
  function RowsAfter(t: Tables, mac: Mac, r: Report): Tables {
    var charged := match r.battery { case Some(adc) => t.SetBattery(mac, Voltage(adc)) case None => t };
    match r.lock
    case Some(mode) => charged.SetLockingMode(mac, mode)
    case None => charged
  }

  /** Side by side, two windows say what the joined window says, apart from a time cut in two. */
  lemma WindowsJoin(registers: seq<byte>, start: nat, m: nat, n: nat)
    requires start + m + n <= |registers|
    ensures var joined := MergeReports(WindowReport(registers, start, m), WindowReport(registers, start + m, n));
            joined == WindowReport(registers, start, m + n).(time := joined.time)
    ensures Merge(HasTime(start, m, registers), HasTime(start + m, n, registers))
         == if start <= 34 && start + m == 35 && 0 < n then None else HasTime(start, m + n, registers)
  {
  }

  lemma RowsJoin(t: Tables, mac: Mac, registers: seq<byte>, start: nat, m: nat, n: nat)
    requires start + m + n <= |registers|
    ensures RowsAfter(RowsAfter(t, mac, WindowReport(registers, start, m)), mac, WindowReport(registers, start + m, n))
         == RowsAfter(t, mac, WindowReport(registers, start, m + n))
  {
  }

  /** Chunk by chunk: everything but the time, the time unless it is cut, and the same final rows. */
  lemma {:induction false} ChunksDecode(t: Tables, mac: Mac, registers: seq<byte>, start: nat, lengths: seq<nat>, now: string)
    requires start + Sum(lengths) <= |registers| && start + Sum(lengths) <= 91
    requires forall i :: 0 <= i < |lengths| ==> 0 < lengths[i]
    ensures DecodeChunks(t, mac, registers, start, lengths, now)
         == Ok(WindowReport(registers, start, Sum(lengths)).(
                 time := if CutsTime(start, lengths) then None else HasTime(start, Sum(lengths), registers)))
    ensures EffectChunks(t, mac, registers, start, lengths, now) == RowsAfter(t, mac, WindowReport(registers, start, Sum(lengths)))
    decreases |lengths|
  {
    hide DecodeDoor, DoorEffect, Dump;
    if lengths != [] {
      var n, rest := lengths[0], lengths[1..];
      var t' := RowsAfter(t, mac, WindowReport(registers, start, n));
      WindowDecodes(t, mac, registers, start, n, now);
      ChunksDecode(t', mac, registers, start + n, rest, now);
      hide RowsAfter;
      RowsJoin(t, mac, registers, start, n, Sum(rest));
      WindowsJoin(registers, start, n, Sum(rest));
      LaterCut(start + n, rest);
    }
  }

  /** Past register 34 no chunk can cut the time any more. */
  lemma {:induction false} LaterCut(start: nat, lengths: seq<nat>)
    ensures 35 <= start ==> !CutsTime(start, lengths)
    ensures CutsTime(start, lengths) ==> start <= 34 && 35 < start + Sum(lengths)
    decreases |lengths|
  {
    if lengths != [] {
      LaterCut(start + lengths[0], lengths[1..]);
    }
  }

  /** A dump may be split anywhere except between the two time registers. */
  lemma SplittingInvariance(t: Tables, mac: Mac, registers: seq<byte>, start: nat, lengths: seq<nat>, now: string)
    requires start + Sum(lengths) <= |registers| && start + Sum(lengths) <= 91 && lengths != []
    requires forall i :: 0 <= i < |lengths| ==> 0 < lengths[i]
    ensures DecodeChunks(t, mac, registers, start, lengths, now)
         == DecodeDoor(t, mac, start, Sum(lengths), Dump(registers, start, Sum(lengths)))
         <==> !CutsTime(start, lengths)
    ensures EffectChunks(t, mac, registers, start, lengths, now)
         == DoorEffect(t, mac, start, Sum(lengths), Dump(registers, start, Sum(lengths)), now)
  {
    hide DecodeDoor, DoorEffect, Dump, DecodeChunks, EffectChunks, RowsAfter;
    assert 0 < lengths[0];
    ChunksDecode(t, mac, registers, start, lengths, now);
    WindowDecodes(t, mac, registers, start, Sum(lengths), now);
    LaterCut(start, lengths);
  }

  // ----- where pets are

  /** One decoded message: its register offset, length and hexadecimal value, and the clock. */
  datatype Event = Event(mac: Mac, offset: nat, length: nat, value: string, now: string)

  function Run(t: Tables, events: seq<Event>): Tables
    decreases |events|
  {
    if events == [] then t else
    var e := events[|events| - 1];
    DoorEffect(Run(t, events[..|events| - 1]), e.mac, e.offset, e.length, e.value, e.now)
  }

  /** The movement byte a message carries for the pet with this tag, if it is about that pet. */
  function MovementOf(t: Tables, e: Event, mac: Mac, tag: string): Option<byte> {
    if e.mac == mac && 525 <= e.offset < 618 && SlotTag(t, mac, MovementSlot(e.offset)) == Some(tag) then
      match FromHex(e.value)
      case Ok(m) => if 2 < |m| && m[2] != 0 then Some(m[2]) else None
      case Err(_) => None
    else None
  }

  /** The last movement of a pet in a run. */
  function LastMovement(t: Tables, events: seq<Event>, mac: Mac, tag: string): Option<byte> {
    if events == [] then None else
    var last := MovementOf(t, events[|events| - 1], mac, tag);
    if last.Some? then last else LastMovement(t, events[..|events| - 1], mac, tag)
  }

  /** The rows after battery and lock state, before curfew and movements. */
  function LowRows(t: Tables, mac: Mac, offset: nat, length: nat, m: seq<byte>): Tables {
    var charged := match At(m, offset, length, 33) { case Ok(Some(adc)) => t.SetBattery(mac, Voltage(adc)) case _ => t };
    match At(m, offset, length, 36) { case Ok(Some(mode)) => charged.SetLockingMode(mac, mode) case _ => charged }
  }

  lemma LowRowsLocal(t: Tables, mac: Mac, offset: nat, length: nat, m: seq<byte>)
    ensures var u := LowRows(t, mac, offset, length, m);
            t.LocalTo(u, mac) && KeepsPets(t, u) && u.petstate == t.petstate
  {
    hide Tables.LocalTo, Tables.SetBattery, Tables.SetLockingMode;
    LocalSelf(t, mac);
    if At(m, offset, length, 33).Ok? && At(m, offset, length, 33).value.Some? {
      var adc := At(m, offset, length, 33).value.value;
      BatteryRowsLocal(t, mac, Voltage(adc));
    }
    var charged := match At(m, offset, length, 33) { case Ok(Some(adc)) => t.SetBattery(mac, Voltage(adc)) case _ => t };
    if At(m, offset, length, 36).Ok? && At(m, offset, length, 36).value.Some? {
      var mode := At(m, offset, length, 36).value.value;
      LockRowsLocal(charged, mac, mode);
      LocalTwice(t, charged, charged.SetLockingMode(mac, mode), mac);
    }
  }

  lemma EffectCases(t: Tables, mac: Mac, offset: nat, length: nat, value: string, now: string)
    ensures var u := DoorEffect(t, mac, offset, length, value, now);
            match FromHex(value)
            case Err(_) => u == t
            case Ok(m) =>
              var low := LowRows(t, mac, offset, length, m);
              if offset == 519 && 4 < |m| then u == low.SetCurfew(mac, m[0], CurfewText(m))
              else if 525 <= offset < 618 && 2 < |m| && m[2] != 0 then u == Moved(low, mac, MovementSlot(offset), m[2], now)
              else u == low
  {
    hide FromHex, CurfewText, At, Moved;
  }

  /** A message of one door changes no row of another device, and no table of pets or slots. */
  lemma DoorLocality(t: Tables, mac: Mac, offset: nat, length: nat, value: string, now: string)
    ensures var u := DoorEffect(t, mac, offset, length, value, now); t.LocalTo(u, mac) && KeepsPets(t, u)
  {
    hide FromHex, CurfewText, LowRows, DoorEffect, Tables.LocalTo, SlotTag, Tables.SetPetState, Tables.SetCurfew, MovementSlot;
    EffectCases(t, mac, offset, length, value, now);
    LocalSelf(t, mac);
    if FromHex(value).Ok? {
      var m := FromHex(value).value;
      var low := LowRows(t, mac, offset, length, m);
      LowRowsLocal(t, mac, offset, length, m);
      if offset == 519 && 4 < |m| {
        CurfewRowsLocal(low, mac, m[0], CurfewText(m));
        LocalTwice(t, low, low.SetCurfew(mac, m[0], CurfewText(m)), mac);
      } else if 525 <= offset < 618 && 2 < |m| && m[2] != 0 {
        var slot := MovementSlot(offset);
        if SlotTag(low, mac, slot).Some? {
          var tag := SlotTag(low, mac, slot).value;
          var state := Located(m[2] == 0x61 || m[2] == 0x81);
          PetRowsLocal(low, tag, mac, state, now);
          LocalTwice(t, low, low.SetPetState(tag, mac, state, now), mac);
        }
      }
    }
  }

  lemma EffectOnPet(t: Tables, e: Event, mac: Mac, tag: string)
    requires (tag, mac) in t.petstate
    ensures var t' := DoorEffect(t, e.mac, e.offset, e.length, e.value, e.now);
            (tag, mac) in t'.petstate && t'.petstate[(tag, mac)].state ==
              match MovementOf(t, e, mac, tag)
              case Some(x) => Located(x == 0x61 || x == 0x81)
              case None => t.petstate[(tag, mac)].state
  {
    hide FromHex, CurfewText, LowRows, DoorEffect, Tables.LocalTo, MovementSlot;
    EffectCases(t, e.mac, e.offset, e.length, e.value, e.now);
    if FromHex(e.value).Ok? {
      var m := FromHex(e.value).value;
      LowRowsLocal(t, e.mac, e.offset, e.length, m);
      var low := LowRows(t, e.mac, e.offset, e.length, m);
      if e.offset == 519 && 4 < |m| {
        CurfewRowsLocal(low, e.mac, m[0], CurfewText(m));
      }
    }
  }

  lemma {:induction false} RunKeepsPets(t: Tables, events: seq<Event>)
    ensures Run(t, events).tagmap == t.tagmap && Run(t, events).pets == t.pets
    ensures Run(t, events).petstate.Keys == t.petstate.Keys
    decreases |events|
  {
    hide DoorEffect;
    if events != [] {
      RunKeepsPets(t, events[..|events| - 1]);
      var e := events[|events| - 1];
      DoorLocality(Run(t, events[..|events| - 1]), e.mac, e.offset, e.length, e.value, e.now);
    }
  }

  lemma MovementFromMaps(t: Tables, u: Tables, e: Event, mac: Mac, tag: string)
    requires t.tagmap == u.tagmap && t.pets == u.pets
    ensures MovementOf(t, e, mac, tag) == MovementOf(u, e, mac, tag)
  {
    hide FromHex;
  }

  /** A pet is inside exactly when its last movement was 0x61 or 0x81; without one its row is as before. */
  lemma {:induction false} PetLocation(t: Tables, events: seq<Event>, mac: Mac, tag: string)
    requires (tag, mac) in t.petstate
    ensures (tag, mac) in Run(t, events).petstate
    ensures Run(t, events).petstate[(tag, mac)].state
         == match LastMovement(t, events, mac, tag)
            case Some(x) => Located(x == 0x61 || x == 0x81)
            case None => t.petstate[(tag, mac)].state
    decreases |events|
  {
    hide DoorEffect, MovementOf;
    if events != [] {
      var before, e := events[..|events| - 1], events[|events| - 1];
      PetLocation(t, before, mac, tag);
      RunKeepsPets(t, before);
      MovementFromMaps(t, Run(t, before), e, mac, tag);
      EffectOnPet(Run(t, before), e, mac, tag);
    }
  }

  lemma SlotOf(offset: nat)
    requires 525 <= offset <= 617
    ensures MovementSlot(offset) == (offset - 524) / 3
  {
  }

  /** Aligned movement messages are about consecutive slots, and so are those one register off. */
  lemma AlignedSlot(slot: nat)
    requires slot < 31
    ensures 525 <= 525 + 3 * slot < 618 && MovementSlot(525 + 3 * slot) == slot == MovementSlot(526 + 3 * slot)
    ensures 0 < slot ==> MovementSlot(524 + 3 * slot) == slot
  {
  }

  // ----- what single registers say

  /** The low registers, whichever of them a message covers and however short its value: what is stored of them. */
  lemma LowStored(t: Tables, mac: Mac, offset: nat, length: nat, m: seq<byte>, now: string)
    requires offset < 91
    ensures var charged := if offset <= 33 < offset + length && 33 - offset < |m|
                           then t.SetBattery(mac, 21075 + 225 * m[33 - offset] as int) else t;
            DoorEffect(t, mac, offset, length, ToHex(m), now)
            == if offset <= 36 < offset + length && 36 - offset < |m|
               then charged.SetLockingMode(mac, m[36 - offset]) else charged
  {
    hide ToHex, FromHex, Tables.SetBattery, Tables.SetLockingMode;
    HexRoundTrip(m);
  }

  /** A message is decoded exactly when no register it covers is missing from its value. */
  lemma CoveredRegisters(t: Tables, mac: Mac, offset: nat, length: nat, m: seq<byte>)
    requires offset < 91
    ensures var missing := register => offset <= register < offset + length && |m| <= register - offset;
            DecodeDoor(t, mac, offset, length, ToHex(m)).Err?
            <==> missing(33) || (offset <= 34 && missing(35)) || missing(36) || missing(40) || missing(59) || missing(60)
    ensures DecodeDoor(t, mac, offset, length, ToHex(m)).Err? ==> DecodeDoor(t, mac, offset, length, ToHex(m)) == Err(IndexError)
  {
    hide ToHex, FromHex, DoorTime;
    HexRoundTrip(m);
  }

  /** What a message that is decoded is about, by its first register. */
  lemma RegisterKinds(t: Tables, mac: Mac, offset: nat, length: nat, value: string)
    requires DecodeDoor(t, mac, offset, length, value).Ok?
    ensures var other := DecodeDoor(t, mac, offset, length, value).value.other;
            && (other.ProvisionedChip? <==> 91 <= offset <= 308)
            && (other.CurfewSetting? <==> offset == 519)
            && (other.Movement? || other.NoMovement? <==> 525 <= offset <= 617)
            && (other.UnknownPet? <==> offset == 621)
  {
    hide FromHex, At, TimeAt, DoorHexToChip, CurfewText, MovementSlot, SlotTag;
  }

  /** A dump of all the low registers: which byte is what, and what is stored of them. */
  lemma DumpDecodes(t: Tables, mac: Mac, registers: seq<byte>, start: nat, length: nat, now: string)
    requires start <= 33 && 60 < start + length <= |registers|
    ensures DecodeDoor(t, mac, start, length, Dump(registers, start, length))
         == Ok(Report(Some(registers[33]), Some((registers[34] as int, registers[35] % 128)), Some(registers[36]),
                      Some(registers[40]), Some(registers[59]), Some(registers[60]), NoOther))
    ensures DoorEffect(t, mac, start, length, Dump(registers, start, length), now)
         == t.SetBattery(mac, 21075 + 225 * registers[33] as int).SetLockingMode(mac, registers[36])
  {
    hide DecodeDoor, DoorEffect, Dump, Tables.SetBattery, Tables.SetLockingMode;
    WindowDecodes(t, mac, registers, start, length, now);
  }

  /** The directions a door reports. */
  function Direction(movement: byte): string {
    if movement == 0x40 then "Outside_LookedIn" else if movement == 0x61 then "Inside" else if movement == 0x62 then "Outside"
    else if movement == 0x81 then "Inside_Already" else if movement == 0xd3 then "Outside_UnknownPet" else "Other " + Hex2(movement)
  }

  lemma DirectionNames(movement: byte)
    ensures Direction(movement)
         == match PetDoorDirectionName(movement) { case Some(name) => name case None => "Other " + Hb(movement) }
  {
    hide Hb, Hex2;
    Hex2Value(movement);
  }

  /** The third byte of a movement message is the movement, of the pet whose tag is in that slot; 0 is none. */
  lemma MovementDecodes(t: Tables, mac: Mac, offset: nat, length: nat, x: byte, y: byte, movement: byte, rest: seq<byte>, now: string)
    requires 525 <= offset <= 617
    ensures var slot := (offset - 524) / 3;
            var pet := if (mac, slot) in t.tagmap && t.tagmap[(mac, slot)] in t.pets then Some(t.tagmap[(mac, slot)]) else None;
            var value := ToHex([x, y, movement] + rest);
            && DecodeDoor(t, mac, offset, length, value)
               == Ok(NOTHING.(other :=
                       if movement == 0 then NoMovement
                       else Movement(slot, if pet.Some? then t.pets[pet.value] else "Unknown", Direction(movement))))
            && DoorEffect(t, mac, offset, length, value, now)
               == if movement == 0 || pet.None? then t
                  else t.SetPetState(pet.value, mac, Located(movement in {0x61, 0x81}), now)
  {
    hide ToHex, FromHex, Hb, PetDoorDirectionName, Direction, MovementSlot, Tables.SetPetState;
    HexRoundTrip([x, y, movement] + rest);
    SlotOf(offset);
    DirectionNames(movement);
  }

  /** A provisioned chip stands behind two bytes, seven registers a pet. */
  lemma ChipRegister(t: Tables, mac: Mac, offset: nat, length: nat, bs: seq<byte>, now: string)
    requires 91 <= offset <= 308 && 2 <= |bs|
    ensures DecodeDoor(t, mac, offset, length, ToHex(bs))
         == match DoorHexToChip(ToHex(bs[2..]))
            case Ok(chip) => Ok(NOTHING.(other := ProvisionedChip((offset - 88) / 7, chip)))
            case Err(e) => Err(e)
    ensures DoorEffect(t, mac, offset, length, ToHex(bs), now) == t
  {
    hide ToHex, FromHex, DoorHexToChip, CurfewText;
    HexRoundTrip(bs);
    ToHexAppend(bs[..2], bs[2..]);
    assert bs == bs[..2] + bs[2..];
    assert ToHex(bs)[4..] == ToHex(bs[2..]);
  }

  /** A message from register 621 on is about an unknown pet. */
  lemma UnknownPetDecodes(t: Tables, mac: Mac, length: nat, bs: seq<byte>, now: string)
    ensures DecodeDoor(t, mac, 621, length, ToHex(bs)) == Ok(NOTHING.(other := UnknownPet))
    ensures DoorEffect(t, mac, 621, length, ToHex(bs), now) == t
  {
    hide ToHex, FromHex;
    HexRoundTrip(bs);
  }
}
