/** The device and pet tables, one map per SQLite table, and the statements that change them. */
module Databases {
  import opened Results

  type Mac = string

  datatype Device = Device(product: int, battery: int, customMode: int)
  datatype Door = Door(lockingMode: int, curfewEnabled: int, curfews: string)
  datatype Feeder = Feeder(bowlType: int, bowl1: int, bowl2: int)
  datatype Counter = Counter(send: nat, retrieve: nat)

  /** The state column: where a pet is, or what it last ate in hundredths from each bowl. */
  datatype PetValue = Located(inside: bool) | Ate(left: int, right: int) | Unset
  datatype PetState = PetState(timestamp: string, state: PetValue)

  /** All rows at one moment. */
  datatype Tables = Tables(
    devices: map<Mac, Device>,
    doors: map<Mac, Door>,
    feeders: map<Mac, Feeder>,
    tagmap: map<(Mac, int), string>,
    pets: map<string, string>,
    petstate: map<(string, Mac), PetState>,
    counters: map<Mac, Counter>)
  {
    // UPDATE statements change the row they select, and nothing when there is none.

    function SetBattery(mac: Mac, battery: int): Tables {
      if mac in devices then this.(devices := devices[mac := devices[mac].(battery := battery)]) else this
    }

    function SetCustomMode(mac: Mac, mode: int): Tables {
      if mac in devices then this.(devices := devices[mac := devices[mac].(customMode := mode)]) else this
    }

    function SetLockingMode(mac: Mac, mode: int): Tables {
      if mac in doors then this.(doors := doors[mac := doors[mac].(lockingMode := mode)]) else this
    }

    function SetCurfew(mac: Mac, enabled: int, curfews: string): Tables {
      if mac in doors
      then this.(doors := doors[mac := doors[mac].(curfewEnabled := enabled, curfews := curfews)]) else this
    }

    function SetBowl1(mac: Mac, weight: int): Tables {
      if mac in feeders then this.(feeders := feeders[mac := feeders[mac].(bowl1 := weight)]) else this
    }

    /** updatedb on both bowls: without a real MAC address it changes every feeder. */
    function SetBowls(mac: Mac, left: int, right: int): Tables {
      if 1 < |mac| && mac !in feeders then this
      else if 1 < |mac| then this.(feeders := feeders[mac := feeders[mac].(bowl1 := left, bowl2 := right)])
      else this.(feeders := map m | m in feeders :: feeders[m].(bowl1 := left, bowl2 := right))
    }

    /** updatedb on lockingmode and on curfewenabled, which also reach all doors without a real MAC address. */
    function SetLockingModes(mac: Mac, mode: int): Tables {
      if 1 < |mac| then SetLockingMode(mac, mode)
      else this.(doors := map m | m in doors :: doors[m].(lockingMode := mode))
    }

    function SetCurfewEnabled(mac: Mac, enabled: int): Tables {
      if 1 < |mac| && mac !in doors then this
      else if 1 < |mac| then this.(doors := doors[mac := doors[mac].(curfewEnabled := enabled)])
      else this.(doors := map m | m in doors :: doors[m].(curfewEnabled := enabled))
    }

    /** updatedbtag on state and timestamp. */
    function SetPetState(tag: string, mac: Mac, state: PetValue, now: string): Tables {
      if (tag, mac) in petstate
      then this.(petstate := petstate[(tag, mac) := PetState(now, state)]) else this
    }

    function SetSend(mac: Mac, send: nat): Tables {
      if mac in counters then this.(counters := counters[mac := counters[mac].(send := send)]) else this
    }

    /** The name of the pet with this tag, or else the tag itself. */
    function Animal(tag: Option<string>): Option<string> {
      if tag.Some? && tag.value in pets then Some(pets[tag.value]) else tag
    }

    /** The same for a reported tag: an empty slot is not looked up. */
    function TagAnimal(tag: Option<string>): Option<string> {
      if tag == Some("Empty") then tag else Animal(tag)
    }

    /** The rows of one device agree in both. */
    ghost predicate SameRows(other: Tables, mac: Mac) {
      && (mac in devices <==> mac in other.devices)
      && (mac in devices ==> devices[mac] == other.devices[mac])
      && (mac in doors <==> mac in other.doors)
      && (mac in doors ==> doors[mac] == other.doors[mac])
      && (mac in feeders <==> mac in other.feeders)
      && (mac in feeders ==> feeders[mac] == other.feeders[mac])
      && (mac in counters <==> mac in other.counters)
      && (mac in counters ==> counters[mac] == other.counters[mac])
      && (forall tag :: (tag, mac) in petstate <==> (tag, mac) in other.petstate)
      && (forall tag :: (tag, mac) in petstate ==> petstate[(tag, mac)] == other.petstate[(tag, mac)])
    }

    /** Nothing but rows of mac differs. */
    ghost predicate LocalTo(other: Tables, mac: Mac) {
      && tagmap == other.tagmap && pets == other.pets
      && forall m :: m != mac ==> SameRows(other, m)
    }
  }

  // ----- locality

  /** No table of pets or slots changes, and no pet row appears or disappears. */
  ghost predicate KeepsPets(t: Tables, u: Tables) {
    t.tagmap == u.tagmap && t.pets == u.pets && t.petstate.Keys == u.petstate.Keys
  }

  lemma LocalTwice(t: Tables, u: Tables, v: Tables, mac: Mac)
    requires t.LocalTo(u, mac) && u.LocalTo(v, mac)
    ensures t.LocalTo(v, mac)
  {
    forall m | m != mac
      ensures t.SameRows(v, m)
    {
      assert t.SameRows(u, m) && u.SameRows(v, m);
    }
  }

  lemma LocalSelf(t: Tables, mac: Mac)
    ensures t.LocalTo(t, mac)
  {
  }

  lemma BatteryRowsLocal(t: Tables, mac: Mac, battery: int)
    ensures t.LocalTo(t.SetBattery(mac, battery), mac)
    ensures KeepsPets(t, t.SetBattery(mac, battery)) && t.SetBattery(mac, battery).petstate == t.petstate
  {
  }

  lemma ModeRowsLocal(t: Tables, mac: Mac, mode: int)
    ensures t.LocalTo(t.SetCustomMode(mac, mode), mac)
  {
  }

  lemma LockRowsLocal(t: Tables, mac: Mac, mode: int)
    ensures t.LocalTo(t.SetLockingMode(mac, mode), mac)
    ensures KeepsPets(t, t.SetLockingMode(mac, mode)) && t.SetLockingMode(mac, mode).petstate == t.petstate
  {
  }

  lemma CurfewRowsLocal(t: Tables, mac: Mac, enabled: int, curfews: string)
    ensures t.LocalTo(t.SetCurfew(mac, enabled, curfews), mac)
    ensures KeepsPets(t, t.SetCurfew(mac, enabled, curfews)) && t.SetCurfew(mac, enabled, curfews).petstate == t.petstate
  {
  }

  lemma PetRowsLocal(t: Tables, tag: string, mac: Mac, state: PetValue, now: string)
    ensures t.LocalTo(t.SetPetState(tag, mac, state, now), mac) && KeepsPets(t, t.SetPetState(tag, mac, state, now))
  {
  }

  lemma BowlRowLocal(t: Tables, mac: Mac, left: int)
    ensures t.LocalTo(t.SetBowl1(mac, left), mac)
  {
  }

  lemma BowlsRowLocal(t: Tables, mac: Mac, left: int, right: int)
    requires 1 < |mac|
    ensures t.LocalTo(t.SetBowls(mac, left, right), mac)
  {
  }

  // ----- which fields of which rows change

  /** UPDATE devices: one field of one row. */
  lemma DeviceRows(t: Tables, mac: Mac, value: int, m: Mac)
    ensures var u := t.SetBattery(mac, value);
            && u == t.(devices := u.devices) && (m in u.devices <==> m in t.devices)
            && (m in t.devices ==>
                  u.devices[m] == Device(t.devices[m].product, if m == mac then value else t.devices[m].battery, t.devices[m].customMode))
    ensures var u := t.SetCustomMode(mac, value);
            && u == t.(devices := u.devices) && (m in u.devices <==> m in t.devices)
            && (m in t.devices ==>
                  u.devices[m] == Device(t.devices[m].product, t.devices[m].battery, if m == mac then value else t.devices[m].customMode))
  {
  }

  /** UPDATE doors: the lock or the curfew of one row. */
  lemma DoorRows(t: Tables, mac: Mac, value: int, curfews: string, m: Mac)
    ensures var u := t.SetLockingMode(mac, value);
            && u == t.(doors := u.doors) && (m in u.doors <==> m in t.doors)
            && (m in t.doors ==>
                  u.doors[m] == Door(if m == mac then value else t.doors[m].lockingMode, t.doors[m].curfewEnabled, t.doors[m].curfews))
    ensures var u := t.SetCurfew(mac, value, curfews);
            && u == t.(doors := u.doors) && (m in u.doors <==> m in t.doors)
            && (m in t.doors ==> u.doors[m] == if m == mac then Door(t.doors[m].lockingMode, value, curfews) else t.doors[m])
  {
  }

  /** updatedb on lockingmode: the row of a real address, or else all rows. */
  lemma DoorsRows(t: Tables, mac: Mac, value: int, m: Mac)
    ensures var u := t.SetLockingModes(mac, value);
            && u == t.(doors := u.doors) && (m in u.doors <==> m in t.doors)
            && (m in t.doors ==>
                  u.doors[m] == Door(if m == mac || |mac| <= 1 then value else t.doors[m].lockingMode,
                                     t.doors[m].curfewEnabled, t.doors[m].curfews))
  {
  }

  /** And the same for the curfew switch. */
  lemma CurfewSwitchRows(t: Tables, mac: Mac, value: int, m: Mac)
    ensures var u := t.SetCurfewEnabled(mac, value);
            && u == t.(doors := u.doors) && (m in u.doors <==> m in t.doors)
            && (m in t.doors ==>
                  u.doors[m] == Door(t.doors[m].lockingMode,
                                     if m == mac || |mac| <= 1 then value else t.doors[m].curfewEnabled, t.doors[m].curfews))
  {
  }

  /** The bowls of a feeder: the first one of one row, or both of one row or of all. */
  lemma BowlRows(t: Tables, mac: Mac, left: int, right: int, m: Mac)
    ensures var u := t.SetBowl1(mac, left);
            && u == t.(feeders := u.feeders) && (m in u.feeders <==> m in t.feeders)
            && (m in t.feeders ==>
                  u.feeders[m] == Feeder(t.feeders[m].bowlType, if m == mac then left else t.feeders[m].bowl1, t.feeders[m].bowl2))
    ensures var u := t.SetBowls(mac, left, right);
            && u == t.(feeders := u.feeders) && (m in u.feeders <==> m in t.feeders)
            && (m in t.feeders ==>
                  u.feeders[m] == if m == mac || |mac| <= 1 then Feeder(t.feeders[m].bowlType, left, right) else t.feeders[m])
  {
  }

  /** The state and timestamp of one pet at one device. */
  lemma PetRows(t: Tables, tag: string, mac: Mac, state: PetValue, now: string, row: (string, Mac))
    ensures var u := t.SetPetState(tag, mac, state, now);
            && u == t.(petstate := u.petstate) && (row in u.petstate <==> row in t.petstate)
            && (row in t.petstate ==> u.petstate[row] == if row == (tag, mac) then PetState(now, state) else t.petstate[row])
  {
  }

  /** The send counter of one device; what it retrieved stays. */
  lemma CounterRows(t: Tables, mac: Mac, send: nat, m: Mac)
    ensures var u := t.SetSend(mac, send);
            && u == t.(counters := u.counters) && (m in u.counters <==> m in t.counters)
            && (m in t.counters ==>
                  u.counters[m] == Counter(if m == mac then send else t.counters[m].send, t.counters[m].retrieve))
  {
  }

  /** A tag is reported by its pet's name exactly when it has one and is no empty slot. */
  lemma AnimalNames(t: Tables, s: string)
    ensures t.Animal(None) == None && t.TagAnimal(None) == None && t.TagAnimal(Some("Empty")) == Some("Empty")
    ensures t.Animal(Some(s)) == Some(if s in t.pets then t.pets[s] else s)
    ensures s != "Empty" ==> t.TagAnimal(Some(s)) == t.Animal(Some(s))
  {
  }

  /** The empty address, which stands for all rows, is the only reason bowls spill over. */
  lemma BowlsSpill(t: Tables, mac: Mac, other: Mac, left: int, right: int)
    requires other in t.feeders && other != mac && t.feeders[other].bowl1 != left
    ensures t.LocalTo(t.SetBowls(mac, left, right), mac) <==> 1 < |mac|
  {
    if 1 < |mac| {
      BowlsRowLocal(t, mac, left, right);
    } else {
      assert !t.SameRows(t.SetBowls(mac, left, right), other);
    }
  }

  /** The send counter after one more message: 16 bits, wrapping to 0. */
  function NextSend(send: nat): (r: nat)
    ensures send < 65536 ==> r == (send + 1) % 65536
  {
    if 65535 < send + 1 then 0 else send + 1
  }

  class Database {
    var devices: map<Mac, Device>
    var doors: map<Mac, Door>
    var feeders: map<Mac, Feeder>
    var tagmap: map<(Mac, int), string>
    var pets: map<string, string>
    var petstate: map<(string, Mac), PetState>
    var counters: map<Mac, Counter>

    constructor (t: Tables)
      ensures Rows() == t
    {
      devices, doors, feeders := t.devices, t.doors, t.feeders;
      tagmap, pets, petstate, counters := t.tagmap, t.pets, t.petstate, t.counters;
    }

    ghost function Rows(): Tables
      reads this
    {
      Tables(devices, doors, feeders, tagmap, pets, petstate, counters)
    }

    method UpdateBattery(mac: Mac, battery: int)
      modifies this`devices
      ensures Rows() == old(Rows()).SetBattery(mac, battery)
    {
      if mac in devices {
        devices := devices[mac := devices[mac].(battery := battery)];
      }
    }

    method UpdateCustomMode(mac: Mac, mode: int)
      modifies this`devices
      ensures Rows() == old(Rows()).SetCustomMode(mac, mode)
    {
      if mac in devices {
        devices := devices[mac := devices[mac].(customMode := mode)];
      }
    }

    method UpdateLockingMode(mac: Mac, mode: int)
      modifies this`doors
      ensures Rows() == old(Rows()).SetLockingMode(mac, mode)
    {
      if mac in doors {
        doors := doors[mac := doors[mac].(lockingMode := mode)];
      }
    }

    /** updatedb('doors', mac, 'lockingmode', mode) */
    method UpdateLockingModes(mac: Mac, mode: int)
      modifies this`doors
      ensures Rows() == old(Rows()).SetLockingModes(mac, mode)
    {
      if 1 < |mac| {
        UpdateLockingMode(mac, mode);
      } else {
        doors := map m | m in doors :: doors[m].(lockingMode := mode);
      }
    }

    /** updatedb('doors', mac, 'curfewenabled', enabled) */
    method UpdateCurfewEnabled(mac: Mac, enabled: int)
      modifies this`doors
      ensures Rows() == old(Rows()).SetCurfewEnabled(mac, enabled)
    {
      if 1 < |mac| {
        if mac in doors {
          doors := doors[mac := doors[mac].(curfewEnabled := enabled)];
        }
      } else {
        doors := map m | m in doors :: doors[m].(curfewEnabled := enabled);
      }
    }

    method UpdateCurfew(mac: Mac, enabled: int, curfews: string)
      modifies this`doors
      ensures Rows() == old(Rows()).SetCurfew(mac, enabled, curfews)
    {
      if mac in doors {
        doors := doors[mac := doors[mac].(curfewEnabled := enabled, curfews := curfews)];
      }
    }

    method UpdateBowl1(mac: Mac, weight: int)
      modifies this`feeders
      ensures Rows() == old(Rows()).SetBowl1(mac, weight)
    {
      if mac in feeders {
        feeders := feeders[mac := feeders[mac].(bowl1 := weight)];
      }
    }

    /** Two updatedb calls, one per bowl. */
    method UpdateBowls(mac: Mac, left: int, right: int)
      modifies this`feeders
      ensures Rows() == old(Rows()).SetBowls(mac, left, right)
    {
      if 1 < |mac| {
        if mac in feeders {
          feeders := feeders[mac := feeders[mac].(bowl1 := left)];
          feeders := feeders[mac := feeders[mac].(bowl2 := right)];
        }
      } else {
        feeders := map m | m in feeders :: feeders[m].(bowl1 := left);
        feeders := map m | m in feeders :: feeders[m].(bowl2 := right);
      }
    }

    /** Two updatedbtag calls, for the state and for the timestamp. */
    method UpdatePetState(tag: string, mac: Mac, state: PetValue, now: string)
      modifies this`petstate
      ensures Rows() == old(Rows()).SetPetState(tag, mac, state, now)
    {
      if (tag, mac) in petstate {
        petstate := petstate[(tag, mac) := petstate[(tag, mac)].(state := state)];
        petstate := petstate[(tag, mac) := petstate[(tag, mac)].(timestamp := now)];
      }
    }

    /** devicecounter(mac, "-1", "-2"): advance send and keep retrieve; raises without a row. */
    method AdvanceSend(mac: Mac) returns (send: Result<nat>)
      modifies this`counters
      ensures mac in old(counters) ==>
                send == Ok(NextSend(old(counters[mac].send))) && Rows() == old(Rows()).SetSend(mac, send.value)
      ensures mac !in old(counters) ==> send == Err(AttributeError) && Rows() == old(Rows())
    {
      if mac !in counters {
        return Err(AttributeError);
      }
      var s := counters[mac].send + 1;
      if 65535 < s {
        s := 0;
      }
      counters := counters[mac := counters[mac].(send := s)];
      send := Ok(s);
    }
  }
}
