/** The enumerations that fix the encodings. An unknown value is named by its number. */
module Constants {
  import opened Numerals
  import opened Results

  /** str(v) */
  function Str(v: int): string {
    if v < 0 then "-" + Numeral(10, -v) else Numeral(10, v)
  }

  function FeederZeroScalesName(v: int): string {
    match v
    case 1 => "ZeroLeft"
    case 2 => "ZeroRight"
    case 3 => "ZeroBoth"
    case _ => Str(v)
  }

  function FeederBowlsName(v: int): string {
    match v
    case 1 => "One"
    case 2 => "Two"
    case 4 => "Felaqua"
    case _ => Str(v)
  }

  function FeederCloseDelayName(v: int): string {
    match v
    case 0 => "Fast"
    case 4000 => "Normal"
    case 5000 => "Felaqua"
    case 20000 => "Slow"
    case _ => Str(v)
  }

  /** FeederCloseDelay[name].value, guarded by has_member. */
  function FeederCloseDelayValue(name: string): Option<nat> {
    if name == "Fast" then Some(0)
    else if name == "Normal" then Some(4000)
    else if name == "Felaqua" then Some(5000)
    else if name == "Slow" then Some(20000)
    else None
  }

  /** The single modes of FeederCustomMode; combinations have no name of their own. */
  function FeederCustomModeName(v: int): Option<string> {
    match v
    case 0 => Some("Disabled")
    case 0x1 => Some("Bit1")
    case 0x2 => Some("Bit2")
    case 0x4 => Some("Bit3")
    case 0x8 => Some("Bit4")
    case 0x10 => Some("Bit5")
    case 0x20 => Some("Bit6")
    case 0x40 => Some("NonSelective")
    case 0x80 => Some("GeniusCat")
    case 0x100 => Some("Intruder")
    case 0x200 => Some("Bit10")
    case 0x400 => Some("Bit11")
    case 0x800 => Some("Bit12")
    case 0x1000 => Some("Bit13")
    case 0x2000 => Some("Bit14")
    case 0x4000 => Some("Bit15")
    case 0x8000 => Some("Bit16")
    case _ => None
  }

  function FeederCustomModeValue(name: string): Option<nat> {
    if name == "Disabled" then Some(0)
    else if name == "Bit1" then Some(0x1)
    else if name == "Bit2" then Some(0x2)
    else if name == "Bit3" then Some(0x4)
    else if name == "Bit4" then Some(0x8)
    else if name == "Bit5" then Some(0x10)
    else if name == "Bit6" then Some(0x20)
    else if name == "NonSelective" then Some(0x40)
    else if name == "GeniusCat" then Some(0x80)
    else if name == "Intruder" then Some(0x100)
    else if name == "Bit10" then Some(0x200)
    else if name == "Bit11" then Some(0x400)
    else if name == "Bit12" then Some(0x800)
    else if name == "Bit13" then Some(0x1000)
    else if name == "Bit14" then Some(0x2000)
    else if name == "Bit15" then Some(0x4000)
    else if name == "Bit16" then Some(0x8000)
    else None
  }

  function FeederStateName(v: int): Option<string> {
    match v
    case 0 => Some("Animal_Open")
    case 1 => Some("Animal_Closed")
    case 2 => Some("Intruder_Closed")
    case 4 => Some("Manual_Open")
    case 5 => Some("Manual_Closed")
    case 6 => Some("Zero_Both")
    case 7 => Some("Zero_Left")
    case 8 => Some("Zero_Right")
    case _ => None
  }

  function PetDoorLockStateName(v: int): string {
    match v
    case 0 => "Unlocked"
    case 1 => "KeepIn"
    case 2 => "KeepOut"
    case 3 => "Locked"
    case 4 => "Curfew"
    case -1 => "CURFEW_LOCKED"
    case -2 => "CURFEW_UNLOCKED"
    case -3 => "CURFEW_UNKNOWN"
    case _ => Str(v)
  }

  /** PetDoorLockState[name].value */
  function PetDoorLockStateValue(name: string): Result<int> {
    if name == "Unlocked" then Ok(0)
    else if name == "KeepIn" then Ok(1)
    else if name == "KeepOut" then Ok(2)
    else if name == "Locked" then Ok(3)
    else if name == "Curfew" then Ok(4)
    else if name == "CURFEW_LOCKED" then Ok(-1)
    else if name == "CURFEW_UNLOCKED" then Ok(-2)
    else if name == "CURFEW_UNKNOWN" then Ok(-3)
    else Err(KeyError)
  }

  function CatFlapLockStateName(v: int): string {
    match v
    case 2 => "Normal"
    case 3 => "KeepIn"
    case 4 => "Locked"
    case 5 => "KeepOut"
    case 6 => "Unlocked"
    case _ => Str(v)
  }

  function CatFlapLockStateValue(name: string): Option<nat> {
    if name == "Normal" then Some(2)
    else if name == "KeepIn" then Some(3)
    else if name == "Locked" then Some(4)
    else if name == "KeepOut" then Some(5)
    else if name == "Unlocked" then Some(6)
    else None
  }

  function PetDoorDirectionName(v: int): Option<string> {
    match v
    case 0x40 => Some("Outside_LookedIn")
    case 0x61 => Some("Inside")
    case 0x62 => Some("Outside")
    case 0x81 => Some("Inside_Already")
    case 0xd3 => Some("Outside_UnknownPet")
    case _ => None
  }

  function CatFlapCurfewStateName(v: int): string {
    match v
    case 6 => "Off"
    case 3 => "On"
    case _ => Str(v)
  }

  function TagStateName(v: int): string {
    match v
    case 0 => "Enabled"
    case 1 => "Disabled"
    case 2 => "LockState"
    case _ => Str(v)
  }

  function TagStateValue(name: string): Option<nat> {
    if name == "Enabled" then Some(0)
    else if name == "Disabled" then Some(1)
    else if name == "LockState" then Some(2)
    else None
  }

  function CatFlapDirectionName(v: int): Option<string> {
    match v
    case 0x0000 => Some("Out")
    case 0x0101 => Some("In")
    case 0x0201 => Some("LookedIn")
    case 0x0200 => Some("LookedOut")
    case 0x0202 => Some("Status2")
    case 0x0102 => Some("Status1")
    case _ => None
  }

  // ----- every name and number once more, in both directions

  lemma FeederNames(v: int)
    ensures FeederZeroScalesName(1) == "ZeroLeft" && FeederZeroScalesName(2) == "ZeroRight" && FeederZeroScalesName(3) == "ZeroBoth"
    ensures FeederBowlsName(1) == "One" && FeederBowlsName(2) == "Two" && FeederBowlsName(4) == "Felaqua"
    ensures FeederCloseDelayName(0) == "Fast" && FeederCloseDelayName(4000) == "Normal"
    ensures FeederCloseDelayName(5000) == "Felaqua" && FeederCloseDelayName(20000) == "Slow"
    ensures v !in {1, 2, 3} ==> FeederZeroScalesName(v) == Str(v)
    ensures v !in {1, 2, 4} ==> FeederBowlsName(v) == Str(v)
    ensures v !in {0, 4000, 5000, 20000} ==> FeederCloseDelayName(v) == Str(v)
  {
    hide Str;
  }

  lemma LockNumbers(v: int)
    ensures CatFlapLockStateName(2) == "Normal" && CatFlapLockStateName(3) == "KeepIn" && CatFlapLockStateName(4) == "Locked"
    ensures CatFlapLockStateName(5) == "KeepOut" && CatFlapLockStateName(6) == "Unlocked"
    ensures !(2 <= v <= 6) ==> CatFlapLockStateName(v) == Str(v)
    ensures 2 <= v <= 6 ==> CatFlapLockStateValue(CatFlapLockStateName(v)) == Some(v)
    ensures PetDoorLockStateName(0) == "Unlocked" && PetDoorLockStateName(1) == "KeepIn" && PetDoorLockStateName(2) == "KeepOut"
    ensures PetDoorLockStateName(3) == "Locked" && PetDoorLockStateName(4) == "Curfew"
    ensures !(-3 <= v <= 4) ==> PetDoorLockStateName(v) == Str(v)
    ensures -3 <= v <= 4 ==> PetDoorLockStateValue(PetDoorLockStateName(v)) == Ok(v)
  {
    hide Str;
  }

  lemma TagStateNumbers(v: int)
    ensures TagStateName(0) == "Enabled" && TagStateName(1) == "Disabled" && TagStateName(2) == "LockState"
    ensures !(0 <= v <= 2) ==> TagStateName(v) == Str(v)
    ensures 0 <= v <= 2 ==> TagStateValue(TagStateName(v)) == Some(v)
  {
    hide Str;
  }

  lemma CurfewStateNames(v: int)
    ensures CatFlapCurfewStateName(3) == "On" && CatFlapCurfewStateName(6) == "Off"
    ensures v !in {3, 6} ==> CatFlapCurfewStateName(v) == Str(v)
  {
    hide Str;
  }

  /** A number is named by its decimals behind its sign, so different numbers have different names. */
  lemma NumberNames(v: int)
    ensures v < 0 ==> Str(v) == "-" + Numeral(10, -v)
    ensures 0 <= v ==> Str(v) == Numeral(10, v) && Value(10, Str(v)) == v
  {
    if 0 <= v {
      ValueOfNumeral(10, v);
    }
  }

  /** The custom modes are named by their bit. */
  lemma ModeNumbers(v: int)
    ensures FeederCustomModeName(0) == Some("Disabled") && FeederCustomModeName(0x40) == Some("NonSelective")
    ensures FeederCustomModeName(0x80) == Some("GeniusCat") && FeederCustomModeName(0x100) == Some("Intruder")
    ensures FeederCustomModeName(v).Some? ==> FeederCustomModeValue(FeederCustomModeName(v).value) == Some(v)
  {
  }
}
