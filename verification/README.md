# Sure Petcare local hub: a verified model

The repository emulates the cloud side of Sure Petcare hubs, feeders, cat flaps and pet
doors on a local network. This project models its three protocols in Dafny and proves what
they keep.

* **The wire codec** of `docker/source/pethubpacket.py`. `generatemessage` fills textual
  templates with `str.replace`; `decodehubmqtt`, `parsemultiframe`, `parseframe` and
  `parsedoorframe` read bytes back. Text is `string`, bytes are numbers below 256, and
  everything between them (numerals in base 2, 10 and 16, zero and space padding, hex text,
  little-endian numbers, splitting, replacing) is modelled character by character, since
  several of the interesting facts come from there.
* **The lock and acknowledgement protocols** of `docker/source/pethubpacket.py` and
  `docker/source/pethubmqtt.py`: commands are generated from the stored mode, decoded
  again, and published as switches; every reported frame is acknowledged by its counter.
* **The radio hub** of `WemosPetHub`: the IEEE 802.15.4-2006 frame writer and reader
  (section 7.2.1) over the chip's memory, and the handshake of `handle_rx` above it.

Code that updates state is modelled by classes and methods: the database, the payload
buffer, the message bridge, the radio chip and the device table. Each such method is proved
to compute a function of its inputs and of the old state, and the results below are about
these functions, over all inputs and whole runs.

| file | contents |
|---|---|
| Results, Arithmetic, Numerals, Bytes, Texts | exceptions as results, digits, hex text, splitting and replacing |
| Timestamps, Chips, Constants | the packed time, the three chip codes, the enums |
| Database | the tables as maps, and the statements that change them |
| Frames, Doors | decoding of feeder and flap frames, and of pet door registers |
| Reports | frames built from their values, what they store, and which are too short |
| Templates, Commands, Generators | templates, arguments, and the methods of `generatemessage` |
| RoundTrips, FlapRoundTrips | what is generated is decoded |
| Wire | every command byte by byte, and the times of curfews |
| TagLaws | exactly which tag messages are sent undisturbed and read back |
| Locks, DoorCommands, Acks, Counters | lock runs and bisimulation, the door's clock and curfew, acknowledgements, counters over runs |
| MacFrames, Radio | radio frames, and the handshake with the devices |

Python exceptions and error boxes are values of `Results.Error`. The clock, the time zone
and the leftover contents of uninitialised C buffers are parameters.

## Where the code is not what one would expect

These are stated as theorems; the conditions are exact unless said otherwise.

* A scale target is written in four bytes and read in three: weights above 83886 g come
  back wrong (`RoundTrips.WeightBound`).
* `hex()` drops leading zeros, so an FDX-B chip whose number ends in a byte below 0x10 is
  printed one digit short or more (`Chips.FdxLength`), and the padding of `"{0:48b}"` makes
  chips of country 0 unreadable (`Chips.FdxRoundTrip`).
* The door code keeps only odd chip numbers; others lose their trailing zero bits or are
  rejected (`Chips.DoorExact`, `Chips.DoorRoundTrip`).
* A door message's length is printed in hex and read in decimal (`Locks.LengthReread`).
* A KeepIn or KeepOut request that repeats the current state unlocks both sides
  (`Locks.RequestExact`).
* The framing loop drops a last frame of fewer than two bytes (`Frames.UnframingInverts`).
* `updatedb` with an address of at most one character changes every row
  (`Databases.BowlsSpill`).
* A cat flap replaces the slots of a tag message inside the chip's text too, and takes a
  chip with a byte AA for a curfew (`TagLaws.FlapTagOutcome`, `TagLaws.TagTextExact`).
* A tag message is read back only for the arguments of `TagLaws.FeederTagExact` and
  `TagLaws.FlapTagExact`, and upper-case chips come back in lower case.
* The door's clock loses minutes from 128 on, and its curfew every text that is not printed
  in two digits (`DoorCommands.TimeReadBack`, `DoorCommands.CurfewReadBack`).
* A dump that is cut between the two time registers loses the time
  (`Doors.SplittingInvariance`).
* `sendframe` counts a short source address it never writes (`MacFrames.DeclaredLength`),
  and 256 interrupts between two polls are lost (`MacFrames.PollRule`).
* A feeder command whose argument is rejected still uses up a counter value
  (`Generators.GenerateFeeder`).

## Model

| member | source | states |
|---|---|---|
| Timestamps.StampRoundTrip | docker/source/pethubpacket.py:105-121 | every field tuple in range (year 0..63, month 0..15, day and hour 0..31, minute and second 0..63) is packed into four bytes, those bytes print as its decimal text, and that text packs into the same bytes |
| Timestamps.BytesRoundTrip | docker/source/pethubpacket.py:105-121 | every four bytes decode to text which encodes back to exactly these bytes |
| Timestamps.OrderIsomorphism | docker/source/pethubpacket.py:112-121 | calendar order of two timestamps is the order of their packed little-endian numbers, and equal bytes mean equal fields |
| Timestamps.YearBound | docker/source/pethubpacket.py:117-121 | with the other fields in range a year is encodable if and only if it is below 64, that is up to 2063 |
| Timestamps.BitsPacked | docker/source/pethubpacket.py:112-115 | the six binary fields laid side by side are the 32-bit binary numeral of the arithmetic packing 6/4/5/5/6/6 |
| Timestamps.ToTextFields | docker/source/pethubpacket.py:105-110 | slicing the zero-filled binary string gives the arithmetic fields of the little-endian number |
| Timestamps.UnpackPacked | docker/source/pethubpacket.py:105-115 | unpacking a packed tuple gives the tuple |
| Timestamps.PackUnpacked | docker/source/pethubpacket.py:105-115 | every 32-bit number unpacks to a tuple in range which packs back to it |
| Timestamps.TextLayout | docker/source/pethubpacket.py:105-110 | where each field stands in the text of four bytes: 20yy-mm-dd hh:mm:ss |
| Timestamps.PackedSum | docker/source/pethubpacket.py:112-115 | the packed number by the weights of its fields |
| Chips.FdxRoundTrip | docker/source/pethubpacket.py:127-162 | a canonical FDX-B chip survives chiptohex and bytestotag if and only if it names a country (at least 1) and the low byte of its number is at least 0x10 |
| Chips.FdxLength | docker/source/pethubpacket.py:129-135 | the printed chip has fourteen digits if and only if that low byte is at least 0x10, because hex() drops leading zeros; it never has more |
| Chips.FdxBytesRoundTrip | docker/source/pethubpacket.py:127-152 | seven bytes of type 1 are printed again from the chip they decode to if and only if they name a country and start with a byte of at least 0x10 |
| Chips.FdxDecodes | docker/source/pethubpacket.py:144-153 | what bytes of type 1 decode to: Empty for zero, an exception without a country (int of blanks), otherwise the chip |
| Chips.HdxRoundTrip | docker/source/pethubpacket.py:137-156 | every ten printed hexadecimal digits survive the round trip |
| Chips.HdxExact | docker/source/pethubpacket.py:137-156 | ten characters without a dot survive it if and only if they are lower-case hexadecimal digits |
| Chips.HdxBytesRoundTrip | docker/source/pethubpacket.py:137-156 | seven bytes of type 3 decode to the hex of the first five, and are printed again if and only if the sixth byte is 0 |
| Chips.TagKinds | docker/source/pethubpacket.py:144-162 | whatever bytestotag returns is printed hexadecimal, Empty, or a chip with a dot |
| Chips.ShortTag | docker/source/pethubpacket.py:161-162 | bytes of any length but seven never decode to an FDX-B chip |
| Chips.DoorRoundTrip | docker/source/pethubpacket.py:164-178 | for a nonzero number the door hex is 01 and digits that are accepted if and only if the number of trailing zero bits modulo 8 is below 4, and then decode to the chip with the number shifted right by its trailing zeros |
| Chips.DoorZero | docker/source/pethubpacket.py:164-178 | number 0 decodes to Null for country 0 and raises for any other |
| Chips.DoorExact | docker/source/pethubpacket.py:164-178 | a chip survives the bit-reversed door code if and only if its number is odd |
| Chips.HexDigits | docker/source/pethubpacket.py:134-135 | six bytes print as all twelve digits if and only if the first is at least 0x10, and then as their plain hex |
| Chips.TagBits | docker/source/pethubpacket.py:150-151 | the space-padded 48-character binary text of a tag with a country is the padded country followed by all 38 number bits |
| Chips.ReadTagBits | docker/source/pethubpacket.py:150-151 | reading that text gives the chip, or raises when the country is 0 and only padding is left |
| Chips.DoorValue | docker/source/pethubpacket.py:164-168 | the reversed bits are the number the door prints, from the last 1 of the chip on |
| Chips.NibbleCount | docker/source/pethubpacket.py:168 | how many hexadecimal digits a number of a given bit length prints as |
| Chips.DoorDecode | docker/source/pethubpacket.py:172-178 | what the door decoder makes of the digits of a number, given its bits: rejected when the digit count is odd, otherwise re-reversed |
| Chips.ReadDoorBits | docker/source/pethubpacket.py:176-177 | country and odd part are read back, with the trailing zeros blanked out |
| Chips.FdxWire | docker/source/pethubpacket.py:129-135 | the bytes of an FDX-B chip are country times 2 to the 38 plus number, least significant first, and type 1 |
| Chips.ChipLayout | docker/source/pethubpacket.py:150-151 | a chip is written ccc.nnnnnnnnnnnn |
| Frames.ParseFrame | docker/source/pethubpacket.py:263-500 | the imperative decoder returns Decode of the old rows and leaves exactly Effect of the old rows, exceptions included: updates made before an exception stay |
| Frames.ReadCurfews | docker/source/pethubpacket.py:389-401 | the loop that deletes nine bytes from the entries each time ends, and returns the entries that are on, in order, or the exception of a short entry |
| Frames.StoreFeed | docker/source/pethubpacket.py:443-463 | a feed stores what a known pet ate when the lid closes, and both bowls on states 1 and 5, as FeedRows spells out |
| Frames.ParseMultiFrame | docker/source/pethubpacket.py:246-259 | the loop that deletes from the payload returns the decodings of the unframed frames in order, threads the rows through all of them, stops at the first exception, and leaves the unframed rest |
| Frames.UnframingInverts | docker/source/pethubpacket.py:246-259 | for any list of frames of up to 255 bytes the loop recovers exactly these frames if and only if there is none or the last has at least two bytes |
| Frames.UnframingConsumes | docker/source/pethubpacket.py:246-259 | on arbitrary bytes the frames and the rest are consecutive pieces of the payload behind length bytes, without gap or overlap; at most two bytes are left and only the last frame can be short |
| Frames.FrameLocality | docker/source/pethubpacket.py:263-500 | decoding a frame of a device with a real MAC address changes no row of another device, no slot and no pet |
| Frames.PayloadLocality | docker/source/pethubpacket.py:246-259 | nor does decoding a whole payload |
| Frames.FeedLocality | docker/source/pethubpacket.py:423-463 | nor does a feed, in particular |
| Frames.CountersStay | docker/source/pethubpacket.py:263-500 | no payload changes a message counter |
| Reports.FeedDecodes | docker/source/pethubpacket.py:423-463 | a feed frame built from chip, action 0 to 2 or 4 to 8, seconds and four signed weights decodes to the action's name, the pet (Manual for actions 4 to 7), these seconds, these weights in their order, and the bowls of the feeder |
| Reports.FeedRows | docker/source/pethubpacket.py:443-463 | of any feed report: both bowls of the feeder become the weights left in them if and only if the state is 1 or 5; a pet's row becomes left minus left and right minus right if and only if the state is 1 and the tag is a known pet; an undecodable frame and every other row change nothing |
| Reports.SignedRoundTrip | docker/source/pethubpacket.py:190-201 | four bytes in two's complement are read back for every 32-bit number |
| Reports.BatteryDecodes | docker/source/pethubpacket.py:333-342 | a battery frame built from three signed numbers and a time decodes to them, and stores ten times the first |
| Reports.DrinkingDecodes | docker/source/pethubpacket.py:471-496 | a drinking frame decodes to its action, seconds, two weights and chip, if it has one, and stores the second weight as the bowl |
| Reports.MovementDecodes | docker/source/pethubpacket.py:402-422 | a movement frame decodes to the pet's name, the direction of its two bytes and its two numbers, and changes no row |
| Reports.CurfewLockDecodes | docker/source/pethubpacket.py:348-352 | the lock state during a curfew is byte 29: 3, 4, 5 and 6 are KeepIn, Locked, KeepOut and Unlocked, with the pet door's numbers; any other raises |
| Reports.SlotDecodes | docker/source/pethubpacket.py:354-388 | a tag frame with type byte 7 is an empty slot; any other type byte but 1 and 3 makes it unknown; no row changes |
| Reports.RegisterReported | docker/source/pethubpacket.py:294-332 | the registers that no command writes decode by number: 5, 17 and 18 to their value, 19 to all bytes, others to three; only register 14 is stored |
| Reports.PlainDecodes | docker/source/pethubpacket.py:276-293 | the frames that are reported as they are, types 00, 01, 07, 0b, 10, 16 and the unknown ones, with the bytes each shows |
| Reports.RoundNearest | docker/source/pethubpacket.py:300-305 | grams are the nearest to the hundredths, even when two are equally near |
| Reports.TooShort | docker/source/pethubpacket.py:263-500 | a frame raises IndexError if and only if it ends before a byte that is looked at, type by type; curfew entries exactly when five to eight bytes are left of the last one |
| Reports.CurfewEnd | docker/source/pethubpacket.py:389-401 | curfew entries raise if and only if their length leaves 5 to 8 modulo 9 |
| Frames.LockNumbers | docker/source/pethubpacket.py:359-361 | a lock byte of the flap has a pet door state if and only if it is 3 to 6, and 6, 3, 5 and 4 have the numbers 0, 1, 2 and 3; any other raises |
| Frames.TagStateIsLock | docker/source/pethubpacket.py:355 | exactly tag state byte 2 is named LockState, which makes slot 0 the lock of the flap |
| Databases.BowlsSpill | docker/source/pethubpacket.py:1282-1289 | storing bowls under an address of at most one character changes other feeders: the update is local if and only if the address is longer |
| Databases.Database.UpdateBowls | docker/source/pethubpacket.py:1282-1289 | both updates together: the whole new state, including the form without a WHERE clause |
| Databases.Database.UpdatePetState | docker/source/pethubpacket.py:1292-1296 | state and timestamp of exactly one pet at one device |
| Databases.Database.UpdateBattery | docker/source/pethubpacket.py:337-339 | the battery of one device, if it has a row, and nothing else |
| Databases.Database.UpdateCustomMode | docker/source/pethubpacket.py:320 | the custom mode of one device and nothing else |
| Databases.Database.UpdateLockingMode | docker/source/pethubpacket.py:361 | the locking mode of one door and nothing else |
| Databases.Database.UpdateLockingModes | docker/source/pethubpacket.py:1282-1289 | updatedb on the locking mode: one door, or every door for an address of at most one character |
| Databases.Database.UpdateCurfewEnabled | docker/source/pethubpacket.py:1282-1289 | updatedb on the curfew switch, in both forms |
| Databases.Database.UpdateCurfew | docker/source/pethubpacket.py:627 | the curfew columns of one door and nothing else |
| Databases.Database.UpdateBowl1 | docker/source/pethubpacket.py:488-490 | the first bowl of one feeder and nothing else |
| Databases.Database.AdvanceSend | docker/source/pethubpacket.py:1253-1280 | the send counter advances modulo 65536 and retrieve stays; without a row it raises and changes nothing |
| Databases.NextSend | docker/source/pethubpacket.py:1261-1264 | advancing is adding one modulo 65536 |
| Databases.DeviceRows | docker/source/pethubpacket.py:337-339 | the statements on devices change one column of one row |
| Databases.DoorRows | docker/source/pethubpacket.py:627 | the UPDATE statements on doors change the lock, or both curfew columns, of one row |
| Databases.DoorsRows | docker/source/pethubpacket.py:1282-1289 | updatedb on the locking mode changes that column of one row, or of all rows for an address of at most one character |
| Databases.CurfewSwitchRows | docker/source/pethubpacket.py:1282-1289 | and so does updatedb on the curfew switch |
| Databases.BowlRows | docker/source/pethubpacket.py:1282-1289 | a first bowl or both bowls of one feeder, or both of all |
| Databases.PetRows | docker/source/pethubpacket.py:1292-1296 | the state and time of one pet at one device |
| Databases.CounterRows | docker/source/pethubpacket.py:1253-1280 | the send counter of one device, without what it retrieved |
| Databases.AnimalNames | docker/source/pethubpacket.py:366-373 | a tag is reported by the name of its pet if it has one; an empty slot is never looked up |
| Constants.FeederNames | docker/source/pethubconst.py:93-107 | scales, bowls and delays by number, and every other number by its decimals |
| Constants.LockNumbers | docker/source/pethubconst.py:109-128 | lock states by number, in both directions |
| Constants.TagStateNumbers | docker/source/pethubconst.py:166-169 | tag states by number, in both directions |
| Constants.CurfewStateNames | docker/source/pethubconst.py:143-145 | curfew states by number |
| Constants.NumberNames | docker/source/pethubconst.py:46-51 | the name made up for a number is its decimals, and reads back |
| Constants.ModeNumbers | docker/source/pethubconst.py:202-219 | custom modes by bit, in both directions |
| Templates.ReplaceFillsSlot | docker/source/pethubpacket.py:1000-1001 | str.replace on the text of a template fills exactly the slot it names, whatever other slots are filled already, and changes nothing when the template has no such slot |
| Templates.SubstitutionFillsSlots | docker/source/pethubpacket.py:1000-1043 | a chain of replacements of distinct slots, lower-case except for what the last one writes, never disturbs another slot: the result is the template with all slots filled |
| Templates.FillOpenSlot | docker/source/pethubpacket.py:1000-1001 | replacing an open slot fills it |
| Templates.AbsentPattern | docker/source/pethubpacket.py:1013-1036 | the test whether a slot is in the text fails when the template has none |
| Templates.FilledHex | docker/source/pethubpacket.py:786-787 | without its spaces a filled template is read by fromhex as the bytes its slots stand for, in either case of the digits |
| Templates.ReplaceAround | docker/source/pethubpacket.py:1118-1130 | text of any content between two parts of a template is replaced for itself, and the parts are filled as ever: nothing is matched across the edges |
| Templates.ContainsAround | docker/source/pethubpacket.py:1133 | a pattern neither part can show is found if and only if it is in that text |
| Generators.GenerateFeeder | docker/source/pethubpacket.py:937-1052 | the feeder branch returns the declaratively filled template for every operation and argument; every operation but Ack advances the counter, even when its argument is then rejected, and Ack leaves it alone |
| Generators.FillFeeder | docker/source/pethubpacket.py:996-1050 | replacing slot after slot, guarded by tests on the text itself, gives the template with all slots filled, or the error the argument deserves |
| Generators.FillTag | docker/source/pethubpacket.py:1036-1047 | the three slots of a feeder tag, with all rejections; the chip is replaced last, so any text in it is harmless |
| Generators.FillStandard | docker/source/pethubpacket.py:998-1001 | counter and time are filled first, everything else stays open |
| Generators.FillAck | docker/source/pethubpacket.py:988-994 | the Ack template gets type, counter and time from its argument, with all its exceptions |
| Generators.GenerateCatFlap | docker/source/pethubpacket.py:1092-1179 | the cat flap branch, for every operation, state and chip: the text is the template filled from the stored mode with what the later replacements leave of the chip; the counter advances exactly for messages, errors change nothing, and each exception comes in its order |
| Generators.FillCatFlap | docker/source/pethubpacket.py:1099-1171 | operation by operation the text before counter and time, with all rejections; a tag in which the curfew slot is found ends in the exception of parsing it as curfews |
| Generators.FillCatFlapTag | docker/source/pethubpacket.py:1111-1130 | the four slots of a cat flap tag in the order they are replaced, with the defaults for unknown names; the chip's text is replaced along with the slots after it, whatever it is |
| Generators.TagReplace | docker/source/pethubpacket.py:1118-1130 | one replacement in a message that holds a chip fills its slot and changes the chip's text just as replacing in that text alone would |
| Generators.TagContains | docker/source/pethubpacket.py:1133 | the curfew slot is found in a tag message if and only if it is found in the chip's text |
| Generators.CatFlapStamped | docker/source/pethubpacket.py:1174-1178 | counter and time fill their slots in any cat flap message, and the chip's text suffers both replacements |
| Commands.EnabledCurfews | docker/source/pethubpacket.py:1134-1149 | the first curfew loop over the parts of the state: each is parsed, converted and encoded before the next; the text spells the enabled entries in order, or the first exception is raised |
| Commands.CurfewText | docker/source/pethubpacket.py:1133-1154 | splitting the state and both loops: all enabled entries, and disabled ones up to four, or the first exception |
| Commands.TagIsNoCurfew | docker/source/pethubpacket.py:1137-1141 | the arguments of a tag, read as curfews, always raise: a tag index is no time of day |
| Commands.ParsedCurfews | docker/source/pethubpacket.py:1137-1149 | when all parts can be parsed, the bytes are those of the pairs they stand for |
| RoundTrips.FeederRoundTrip | docker/source/pethubpacket.py:937-1052 | for every operation, 16-bit counter and time in range a feeder message is generated if and only if its argument is one the device knows (one of seven query names; One or Two, Left, Right or Both, or the hexadecimal number 1, 2 or 3 for it; a weight of up to 42949672 g; a named delay or mode; three parts of a tag that can be parsed), and every message decodes to its type, counter, time and the meaning of its argument, spelled out name by name; weights as WeightBound says, tags as FeederTagExact says |
| RoundTrips.WeightBound | docker/source/pethubpacket.py:1012-1017 | a target weight of w grams is read back as w if and only if w is at most 83886 |
| RoundTrips.ArgumentsAccepted | docker/source/pethubpacket.py:1003-1047 | which arguments the feeder branch accepts, operation by operation, in terms of what they mean |
| RoundTrips.ChosenAccepted | docker/source/pethubpacket.py:1004-1010 | validation accepts exactly the texts that denote one of the choices |
| RoundTrips.ChoicesKnown | docker/source/pethubpacket.py:937-973 | which text stands for which bytes: the seven queries, bowl counts 1 and 2, scales 1, 2 and 3, by name or number |
| RoundTrips.WeightAccepted | docker/source/pethubpacket.py:1013-1019 | a target weight is accepted if and only if it is digits for at most 42949672 |
| RoundTrips.ThreeBytes | docker/source/pethubpacket.py:296-305 | the three-byte read of a four-byte value is its low 24 bits in two's complement |
| RoundTrips.ChosenBytes | docker/source/pethubpacket.py:1004-1010 | an argument that passes validation stands for bytes: its table entry, or the single byte it spells |
| RoundTrips.SpacedByte | docker/source/pethubpacket.py:1007-1008 | a table entry that is spelled like a number is one byte |
| RoundTrips.MessagePayload | docker/source/pethubpacket.py:786-787 | splitting a generated message into words and joining all after the third gives back the bytes its filled slots are read as |
| RoundTrips.HeaderDecodes | docker/source/pethubpacket.py:267-274 | type, counter and time are read back from any frame built from them |
| RoundTrips.SettingDecodes | docker/source/pethubpacket.py:294-332 | the configuration registers that generatemessage writes, 0a, 0b, 0c, 0d, 12 and 14, decode by their number and signed three-byte value |
| RoundTrips.RegisterDecodes | docker/source/pethubpacket.py:296-332 | of the four value bytes written only three are read |
| RoundTrips.TagDecodes | docker/source/pethubpacket.py:354-388 | a tag frame of each chip type, 1, 3 and 7, decodes to its chip, lock, index and state unless index 0 and state LockState make it the lock of the flap |
| RoundTrips.ZeroScaleDecodes | docker/source/pethubpacket.py:344-347 | the zero-scale body has the length that tells it from a curfew lock state, and decodes to its scale |
| FlapRoundTrips.CatFlapRoundTrip | docker/source/pethubpacket.py:1054-1179 | the same for cat flap messages: queries, time, locks, KeepIn and KeepOut from any stored mode, curfews parsed from the state, any number of them, and tags as FlapTagExact says |
| FlapRoundTrips.FlapChoicesKnown | docker/source/pethubpacket.py:1065-1072 | which of the six query names stands for which bytes; no number does |
| Wire.FeederWire | docker/source/pethubpacket.py:974-1052 | every accepted feeder command carries type, 00, counter, time and the body that its operation and argument have, byte by byte: queries, weights in hundredths, bowls, delays, the seventeen modes, scales and tags |
| Wire.CatFlapWire | docker/source/pethubpacket.py:1072-1179 | and every accepted cat flap command, byte by byte: queries, the lock byte by side, state and stored mode, tags with their defaults, and curfews |
| Wire.AckWire | docker/source/pethubpacket.py:988-995 | an acknowledgement carries counter, time, the acknowledged type and two zeros |
| Wire.CurfewLayout | docker/source/pethubpacket.py:1132-1154 | the curfews of a command: nine bytes each, start, end and 03 in the order given, then the fixed filler up to four |
| Wire.CurfewStateParses | docker/source/pethubpacket.py:1133-1141 | any list of hh:mm-hh:mm separated by commas is parsed as its start and end moments, in order |
| Wire.ClockParses | docker/source/pethubpacket.py:1140-1141 | two digits, a colon and two digits are a time of day if and only if they are below 24 and 60 |
| Wire.NoCurfew | docker/source/pethubpacket.py:1133-1137 | a state of at most one character stands for no curfew |
| FlapRoundTrips.CurfewRoundTrip | docker/source/pethubpacket.py:1132-1154 | any list of start and end pairs in range decodes to exactly these pairs in order, and the fillers vanish; four is not a limit |
| FlapRoundTrips.FillersVanish | docker/source/pethubpacket.py:389-401 | disabled entries decode to nothing |
| FlapRoundTrips.CurfewsAccepted | docker/source/pethubpacket.py:1137-1149 | with local times that convert to the years 2000 to 2063 curfews are accepted if and only if each part can be parsed |
| FlapRoundTrips.HexTextStays | docker/source/pethubpacket.py:1124-1130 | hexadecimal digits of either case are never taken for lock, state, counter or time |
| FlapRoundTrips.AckRoundTrip | docker/source/pethubpacket.py:988-995 | an acknowledgement built from a frame's type and counter decodes to Ack of that type with that counter |
| FlapRoundTrips.LockDecodes | docker/source/pethubpacket.py:1085-1088 | the four lock commands of the flap decode to the four pet door states of the same name |
| TagLaws.TagTextExact | docker/source/pethubpacket.py:1111-1178 | a tag message of the cat flap is its template with the slots filled as meant if and only if none of KK, SS, AA, ZZ ZZ and TT TT TT TT occurs in the text of the chip |
| TagLaws.HexUndisturbed | docker/source/pethubpacket.py:1122-1133 | for a chip of hexadecimal digits in either case that means: it has no byte AA |
| TagLaws.FlapTagOutcome | docker/source/pethubpacket.py:1111-1178 | a tag message for a readable chip raises if and only if the chip has a byte AA, and otherwise decodes to its index, lock, state and chip, in lower case |
| TagLaws.ChipExamples | docker/source/pethubpacket.py:1133-1140 | chip AA00000000 raises and chip 0113C870F2 does not |
| TagLaws.FeederTagExact | docker/source/pethubpacket.py:1035-1047 | a feeder's tag message reads back as its own state, index and chip, in lower case, if and only if the index is below 256, the chip is ten hexadecimal digits or an FDX-B chip within its bounds, and it is not index 0 with LockState |
| TagLaws.FlapTagExact | docker/source/pethubpacket.py:1111-1130 | and so does a cat flap's, with its lock, under the same condition on those that are sent |
| TagLaws.ChipIntact | docker/source/pethubpacket.py:1122-1133 | the chip's text survives the four replacements and shows no curfew slot if and only if none of the five patterns is in it |
| Doors.ParseDoorFrame | docker/source/pethubpacket.py:565-678 | the imperative decoder returns DecodeDoor and leaves exactly DoorEffect, for every offset, length and value, exceptions included |
| Doors.StoreMovement | docker/source/pethubpacket.py:633-659 | a movement finds the pet by slot and tag and stores inside for 0x61 and 0x81, outside otherwise; unknown slots and pets change nothing |
| Doors.SplittingInvariance | docker/source/pethubpacket.py:571-609 | a dump of registers below 91, cut into any chunks, decodes to the same values as the whole if and only if no cut falls between registers 34 and 35; the final rows are the same in every case |
| Doors.ChunksDecode | docker/source/pethubpacket.py:571-609 | chunk by chunk: everything but the time as in the whole, the time unless it is cut, and the rows of the whole |
| Doors.WindowDecodes | docker/source/pethubpacket.py:565-609 | decoding one window reads exactly the registers inside it |
| Doors.WindowsJoin | docker/source/pethubpacket.py:575-609 | the reports of two adjacent windows merge to the report of the joined window, apart from a time that is cut |
| Doors.LaterCut | docker/source/pethubpacket.py:587 | no cut past register 34 can separate hours from minutes |
| Doors.PetLocation | docker/source/pethubpacket.py:628-663 | over any run of movement messages a pet's stored state is inside exactly if its last nonzero movement was 0x61 or 0x81, and as before if there was none |
| Doors.AlignedSlot | docker/source/pethubpacket.py:628-632 | movement registers belong to consecutive slots, three registers each, centred on the aligned ones |
| Doors.DumpDecodes | docker/source/pethubpacket.py:575-618 | a dump of the low registers reports 33 as battery, 34 and 35 as hour and minute without its top bit, 36, 40, 59 and 60, and stores 21075 + 225 times register 33 and the lock |
| Doors.LowStored | docker/source/pethubpacket.py:575-597 | what is stored of the battery and lock registers for any window and however short the value is |
| Doors.CoveredRegisters | docker/source/pethubpacket.py:565-618 | a message of the low registers raises if and only if a register it covers is missing from its value |
| Doors.RegisterKinds | docker/source/pethubpacket.py:610-672 | what a message is about by its first register: chips from 91 to 308, the curfew at 519, movements from 525 to 617, an unknown pet at 621 |
| Doors.MovementDecodes | docker/source/pethubpacket.py:628-663 | the third byte of a movement message is the movement of the pet in slot (offset - 524) / 3: its direction by name, and inside for 0x61 and 0x81 |
| Doors.ChipRegister | docker/source/pethubpacket.py:610-618 | a provisioned chip stands behind two bytes and belongs to pet (offset - 88) / 7 |
| Doors.UnknownPetDecodes | docker/source/pethubpacket.py:664-672 | register 621 reports an unknown pet and changes no row |
| Doors.DoorLocality | docker/source/pethubpacket.py:565-678 | a message of one door changes no row of another device, no slot and no pet |
| Locks.Bisimulation | docker/source/pethubpacket.py:897-912 | from equal stored modes, whatever they are, a pet door and a cat flap store equal modes after every run of KeepIn and KeepOut requests, through two different encodings |
| Locks.DoorStepMode | docker/source/pethubpacket.py:897-912 | a request generated for a pet door, answered by the door and decoded stores the next mode and changes nothing else |
| Locks.FlapStepMode | docker/source/pethubpacket.py:1156-1178 | a request generated for a cat flap and decoded again stores the same next mode, and the advanced counter |
| Locks.DoorRunModes | docker/source/pethubpacket.py:592-597 | over whole runs the stored mode of a pet door is the abstract one |
| Locks.FlapRunModes | docker/source/pethubpacket.py:354-361 | over whole runs the stored mode of a cat flap is the abstract one |
| Locks.RequestExact | docker/source/pethubpacket.py:897-912 | a request in modes 0 to 3 sets its own bit and no other if and only if it changes that bit or nothing is locked; a repeated request unlocks both sides |
| Locks.OtherModesUnlock | docker/source/pethubpacket.py:911-912 | from every other mode, such as curfew, each request unlocks |
| Locks.BitsAreLastRequests | docker/source/pethubpacket.py:897-912 | over runs in which each request changes its bit, both bits are the last requests of their sides |
| Locks.AgreementExact | docker/source/pethubpacket.py:897-912 | and they agree after every prefix only over such runs |
| Locks.SwitchesAreLastRequests | docker/source/pethubmqtt.py:163-178 | over such runs the switches derived from the mode are the last requests, and Curfew is OFF |
| Locks.Bridge.FollowRequests | docker/source/pethubmqtt.py:163-187 | over any run of switch requests, each generated, answered by the door and handled, everything that is published is the switches of the successive modes in order, and the stored mode is the last |
| Locks.PublishedAreLastRequests | docker/source/pethubmqtt.py:163-181 | over a run in which each request changes its bit, after every prefix the last three publications are the last request of each side and Curfew OFF |
| Locks.Bridge.FollowRequest | docker/source/pethubmqtt.py:163-187 | one request through all three steps: the next mode is stored and its switches are published |
| Locks.LockAnswered | docker/source/pethubpacket.py:885-888 | the door's report of a lock command is the status message of its value |
| Locks.GenerateLock | docker/source/pethubpacket.py:862-935 | the lock messages of the pet door carry the register value of the chosen state; Keep without a door row raises |
| Locks.LockFields | docker/source/pethubpacket.py:797-808 | command and report of a lock value both decode to register 36, length 1 and that value |
| Locks.LockStored | docker/source/pethubpacket.py:592-597 | decoding that register stores its value and reports nothing else |
| Locks.LockEffect | docker/source/pethubpacket.py:354-361 | a frame that reports the lock state of a flap stores exactly that number |
| Locks.LengthReread | docker/source/pethubpacket.py:777-778 | printing a length in hex and reading it in decimal gives the length back if and only if it is at most 9 |
| Locks.Bridge.OnPetDoorMessage | docker/source/pethubmqtt.py:135-197 | reflected commands do nothing; a reported lock publishes its three switches and is stored by updatedb, a reported curfew likewise; a device without an entry raises after what was published and decoded before; first words that are no time raise |
| Locks.LockNames | docker/source/pethubconst.py:109-117 | exactly mode 4 has Curfew in its name, and 1, 2 and 3 are KeepIn, KeepOut and Locked |
| Locks.LockTexts | docker/source/pethubpacket.py:866-917 | the texts of the lock commands, of the curfew command and of its switch |
| Locks.HandledLock | docker/source/pethubmqtt.py:163-187 | a reported lock of any value publishes its three switches by topic and text, shows the mode's name and is stored; without an entry among the states it raises |
| Locks.HandledCurfew | docker/source/pethubmqtt.py:189-194 | a reported curfew is shown and its switch stored if the device has shown one before, and raises otherwise |
| Locks.HandledOther | docker/source/pethubmqtt.py:135-197 | any other report changes nothing and raises only without an entry among the states |
| Locks.Kinds | docker/source/pethubpacket.py:746-820 | which kinds of messages have registers, and which decode to no report at all |
| DoorCommands.GenerateTime | docker/source/pethubpacket.py:881-896 | the message that sets the clock carries the two bytes of hour and minute |
| DoorCommands.TimeReadBack | docker/source/pethubpacket.py:587-591 | the minute of the time that is set is read without its top bit, so the time is read back if and only if its minute is below 128 |
| DoorCommands.GenerateCurfewState | docker/source/pethubpacket.py:918-935 | the curfew message carries the switch by stored value, name or number, and the four stored numbers, with every exception in its order |
| DoorCommands.CurfewReadBack | docker/source/pethubpacket.py:619-627 | repeating the stored curfew with UPD gives back switch and text if and only if the switch is a byte and the text is four numbers below 256, each with at least two digits and no needless zero |
| DoorCommands.CurfewTexts | docker/source/pethubpacket.py:863-935 | the command for ON is 02 and for OFF 01, by name or number, with the four stored numbers in hex; anything else is rejected |
| DoorCommands.StoredRegister | docker/source/pethubpacket.py:927-928 | UPD repeats the stored switch in hexadecimal, behind its sign |
| DoorCommands.CurfewStored | docker/source/pethubpacket.py:619-627 | a curfew report is stored as its switch and the text of its four numbers |
| Acks.Bridge.OnFeederMessage | docker/source/pethubmqtt.py:217-237 | for every status message that can be decoded exactly the acknowledgements due are published, in order, and the rows are those the frames leave; and for every list of frames, sent alone in a 127 or behind length bytes in a 126, that decodes, what is published is one acknowledgement per frame of that list that is no Ack, each decoding to Ack with that frame's type and counter |
| Acks.Bridge.OnCatFlapMessage | docker/source/pethubmqtt.py:277-297 | the same for cat flaps, for every list of frames a 127 or 126 carries; the counter also advances once per acknowledgement, and without a counter row the first acknowledgement raises |
| Acks.Bridge.DecodeStatus | docker/source/pethubpacket.py:722-796 | a 127 is one frame, a 126 is unframed; messages without a time, of other kinds or without hexadecimal bytes change nothing |
| Acks.FramesCarried | docker/source/pethubpacket.py:246-259 | a 127 message whose words spell any bytes carries that one frame; a 126 message whose words spell a list of frames behind length bytes, the last of two bytes or more, carries exactly this list |
| Acks.StatusCarries | docker/source/pethubpacket.py:722-796 | every frame has such a 127 message and every such list a 126 message: time, sequence number, kind, and the bytes as spaced hex |
| Acks.FramesConsecutive | docker/source/pethubpacket.py:246-259 | whatever bytes follow a 126, its frames are consecutive pieces of them behind their length bytes, with at most two bytes left over |
| Acks.StatusAccepted | docker/source/pethubpacket.py:722-796 | a message has frames if and only if it has three words, the first a time, the third 126 or 127, and hexadecimal bytes behind them |
| Acks.ReportsAnswered | docker/source/pethubmqtt.py:217-237 | what is due for the frames that a message carries exists and answers exactly those frames |
| Acks.Bridge.AcknowledgeFlap | docker/source/pethubmqtt.py:285-297 | the loop over the decoded frames: acknowledgements, counter, and the exception without a counter row |
| Acks.AcksAnswer | docker/source/pethubmqtt.py:225-237 | for every payload that decodes, acknowledgements exist, one per frame that is no Ack, in order, and decoding each gives Ack with that frame's own type and counter |
| Acks.ExchangesEnd | docker/source/pethubmqtt.py:217-230 | every acknowledgement published for any payload that decodes is ignored when it is reflected, decodes to a single Ack, and that asks for no acknowledgement: exchanges end |
| Acks.AcksCounted | docker/source/pethubmqtt.py:225-237 | there are as many acknowledgements as frames that are none |
| Acks.DecodedHeader | docker/source/pethubpacket.py:274 | a decoded frame's type is two hex digits and its counter a decimal number below 65536 |
| Acks.MessageWords | docker/source/pethubpacket.py:823-824 | a generated message starts with its time, 1000 and 127 |
| Counters.Generate | docker/source/pethubpacket.py:827-1179 | one call moves the counter of its device by the rule of its family, touches nothing else, and a command that is sent carries the advanced counter |
| Counters.GenerateAll | docker/source/pethubpacket.py:1253-1280 | any list of calls is a run in the sense of the run results, and its end state is the stored counter |
| Counters.SendCounted | docker/source/pethubpacket.py:1253-1280 | over every run the counter is the start plus the number of increments modulo 65536, stays below 65536 and always fits two bytes |
| Counters.CountersRepeat | docker/source/pethubpacket.py:998-1001 | two commands of a run, whatever their arguments, carry the same counter if and only if the increments after the first up to the second are a multiple of 65536 |
| Counters.CountersDistinct | docker/source/pethubpacket.py:1174-1178 | in a run of up to 65536 calls no two commands carry the same counter, acknowledgements in between or not |
| Counters.HeaderCarries | docker/source/pethubpacket.py:1000 | in the text of any message from a template the sixth and seventh word are the counter it was given |
| Counters.CounterTextInjective | docker/source/pethubpacket.py:1000 | two counters below 65536 print alike only if they are equal |
| Counters.AcksAdvance | docker/source/pethubmqtt.py:285-297 | acknowledging k frames of a cat flap adds k to its counter modulo 65536 |
| MacFrames.FrameRoundTrip | WemosPetHub/src/mrf24j.cpp:178-224 | for every control word without a short source address, address, payload of up to 114 bytes and total length of up to 127, what sendframe writes is read by interrupt_handler as the same control word, destination, source and payload, with two check bytes behind it |
| MacFrames.FrameReadBack | WemosPetHub/src/mrf24j.cpp:330-376 | for every mode the receiver cuts the same bytes by mode: source and data together are what was written, then what the declared length takes from stale memory, then the check sequence |
| MacFrames.ShortSourceMisread | WemosPetHub/src/mrf24j.cpp:211-215 | with a short source address, which is counted but never written, the receiver takes the first two payload bytes for it and two stale bytes for payload |
| MacFrames.DeclaredLength | WemosPetHub/src/mrf24j.cpp:182-193 | a frame has the length it declares if and only if its source mode is not short |
| MacFrames.Mrf24j.SendFrame | WemosPetHub/src/mrf24j.cpp:178-224 | memory afterwards is the frame over the old memory: control word, the old sequence number, and the network, low byte first; byte 0 of memory is the offset of the payload in the frame, unless the source mode is short, which makes it two too large; the sequence number advances modulo 256 |
| MacFrames.SentParts | WemosPetHub/src/mrf24j.cpp:190-219 | where control word, sequence number, network and payload stand in the memory of a sent frame |
| MacFrames.DeliveredParts | WemosPetHub/src/mrf24j.cpp:190-219 | and in the receive FIFO they are delivered to |
| MacFrames.Mrf24j.SendAll | WemosPetHub/src/mrf24j.cpp:198-199 | over any list of frames that are sent, the delivered sequence numbers count up modulo 256, each with its control word, length and network |
| MacFrames.HeaderBits | WemosPetHub/src/mrf24j.cpp:182-189 | bits 10, 11, 14 and 15 of the control word give the header length |
| MacFrames.StatusBits | WemosPetHub/src/mrf24j.cpp:330-380 | bit 3 of the interrupt status announces a frame and bit 0 the end of a transmission |
| MacFrames.Mrf24j.InterruptHandler | WemosPetHub/src/mrf24j.cpp:330-385 | by the interrupt status: all fields of rx_info for a frame, with what the copying loops leave of the old addresses and data, the outcome of a transmission, and both flags counted modulo 256; everything else is unchanged |
| MacFrames.Mrf24j.ReceiveFrame | WemosPetHub/src/mrf24j.cpp:333-373 | a received frame is copied out of the FIFO field by field |
| MacFrames.Mrf24j.Write | WemosPetHub/src/mrf24j.cpp:207-219 | a loop of write_long overwrites exactly its addresses |
| MacFrames.Mrf24j.ReadInto | WemosPetHub/src/mrf24j.cpp:345-366 | a loop of read_long copies exactly its part of the FIFO |
| MacFrames.Mrf24j.CheckFlags | WemosPetHub/src/mrf24j.cpp:391-401 | each handler runs if and only if its flag is not 0, and both flags are then cleared |
| MacFrames.Mrf24j.constructor | WemosPetHub/src/mrf24j.cpp:36-57 | sequence numbers start at 0 |
| MacFrames.PollRule | WemosPetHub/src/mrf24j.cpp:391-401 | over every history of arrivals and polls, a poll hands over the last frame since the previous poll if and only if their number is not a multiple of 256 |
| Radio.OnlineRule | WemosPetHub/src/main.cpp:214-431 | over every run from start-up a device is online if and only if it is known and the last frame from it among 07, 08, 13 and 02 exists and is not 07; so an unknown address is never online |
| Radio.PublishedOnline | WemosPetHub/src/main.cpp:352-379 | a 01 frame is published if and only if its sender is online by that rule |
| Radio.OthersInvisible | WemosPetHub/src/main.cpp:90-138 | after any run the rows of a device are those it would have if only its own frames had been received |
| Radio.StepLocal | WemosPetHub/src/main.cpp:90-138 | one frame changes no row but those of its sender, and no address |
| Radio.UpperHexInjective | WemosPetHub/src/main.cpp:77-88 | different addresses have different text |
| Radio.AnswersNumbered | WemosPetHub/src/main.cpp:303-410 | the k-th answer to a 13, 08, 02 or online 01 frame, counted from 0 over the whole run, carries k modulo 256 in byte 1 |
| Radio.AnswersEcho | WemosPetHub/src/main.cpp:303-410 | byte 2 repeats the device's counter for 13 and online 01; for 08 and 02 it is the last synchronised value plus the number of such frames since, modulo 256, or 0 for an unknown device |
| Radio.SequenceRule | WemosPetHub/src/main.cpp:120-138 | the stored sequence number of a device over any run, by its last synchronisation (13, 0A, online 01) and the 08 and 02 frames since |
| Radio.AnswerArrives | WemosPetHub/src/main.cpp:426-428 | every answer that is filled fits the frame and buffer limits and is read by the device unharmed, from the hub's address and, except for beacons, to the device's own |
| Radio.ControlBits | WemosPetHub/include/mrf24j.h:156-173 | type, acknowledgement, compression and address modes are where the control field has them, and no other bit is set |
| Radio.RadioHub.HandleRx | WemosPetHub/src/main.cpp:214-431 | handle_rx leaves the table, the packet number and the publications of Step, and returns its answer, branch by branch; AnswerByKind and PublishedByKind say what these are |
| Radio.RadioHub.HandleAll | WemosPetHub/src/main.cpp:214-431 | over any run from start-up: what is kept, the answer to every frame by its kind and whether its sender is online, and as publications, in order, exactly the payloads of the 02 frames, of the 01 frames whose sender is online, and of unrecognised ones, under the sender's address |
| Radio.AnswerByKind | WemosPetHub/src/main.cpp:256-413 | control word, length and bytes of every answer, by the kind of the frame and whether its sender is online, after any run: beacon, association, code 14 for 13, code 09 when more is to come and otherwise 0a for 08 and 02 or 02 for 01; 0a is not answered |
| Radio.PublishedByKind | WemosPetHub/src/main.cpp:376-424 | a frame is published if and only if it is an 02, an 01 from an online sender, or unrecognised |
| Radio.UpperHexDigits | WemosPetHub/src/main.cpp:77-88 | addresses and payloads are printed in two upper-case digits a byte |
| Radio.RadioHub.GetDeviceState | WemosPetHub/src/main.cpp:90-104 | the state of the last row with this address, or offline |
| Radio.RadioHub.SetDeviceState | WemosPetHub/src/main.cpp:106-118 | sets the state in all rows with this address and nowhere else |
| Radio.RadioHub.GetDeviceSeq | WemosPetHub/src/main.cpp:120-129 | returns the number before counting it up modulo 256, in all rows with this address |
| Radio.RadioHub.SetDeviceSeq | WemosPetHub/src/main.cpp:131-138 | sets the number in all rows with this address and nowhere else |
| Radio.RadioHub.CopyPayload | WemosPetHub/src/main.cpp:236-241 | the buffer is the payload followed by what it held before |
| Radio.RadioHub.constructor | WemosPetHub/src/main.cpp:487-498 | all devices start offline with sequence 0, and packet numbers with 0 |
| Radio.StepReads | WemosPetHub/src/main.cpp:214-431 | one frame as each address sees it: state and sequence number afterwards |
| Bytes.HexRoundTrip | docker/source/pethubpacket.py:207-208 | fromhex of printed bytes gives the bytes |
| Bytes.HexBytes | docker/source/pethubpacket.py:207-208 | printed hexadecimal text of even length is the text of some bytes |
| Bytes.LittleRoundTrip | docker/source/pethubpacket.py:183-201 | reading k little-endian bytes gives the number modulo 256^k, and the number itself when it fits |
| Bytes.LittleBytes | docker/source/pethubpacket.py:183-201 | every byte string is the encoding of its value |
| Bytes.Hex2Value | docker/source/pethubpacket.py:211-212 | a byte prints as two digits that have its value |
| Bytes.ConcatSplit | docker/source/pethubpacket.py:786-787 | splitting at white space and joining drops exactly the spaces |
| Bytes.FromHexLower | docker/source/pethubpacket.py:787 | fromhex reads digits of either case alike |
| Numerals.PaddedNumeral | docker/source/pethubpacket.py:96-100 | a zero-filled numeral has exactly its width as long as the number fits |
| Numerals.FixedSlice | docker/source/pethubpacket.py:96-97 | a slice of a fixed-width numeral is the numeral of those digits of the number |
| Numerals.NumeralFits | docker/source/pethubpacket.py:99-100 | a numeral has at most w digits if and only if the number is below b^w |
| Numerals.NumeralAppend | docker/source/pethubpacket.py:132 | the numeral of a number built from two parts is the numeral of the high part and the padded low part |
| Numerals.ParsePadded | docker/source/pethubpacket.py:150-151 | int skips spaces on the left |
| Numerals.ParseBlank | docker/source/pethubpacket.py:150-151 | int of nothing but spaces raises |
| Texts.ReplaceOnce | docker/source/pethubpacket.py:1000-1001 | replacing a pattern between texts without its first character replaces just that occurrence |
| Texts.ReplaceWords | docker/source/pethubpacket.py:1124-1130 | a pattern without spaces is replaced on either side of a space and never across it |
| Texts.ReplaceBefore | docker/source/pethubpacket.py:1174-1178 | text behind that lacks the last character of a pattern is left alone |
| Texts.ReplaceCounts | docker/source/pethubpacket.py:1124-1130 | replacing never makes a character that is not written more frequent, and makes those of a pattern that occurs rarer |
| Texts.SplitAppend | docker/source/pethubpacket.py:119 | splitting at a separator splits both sides |

## Left out

- Counters.CountersDistinct: speaks of commands whose clock is one word, as the hexadecimal time always is.
- Acks.Bridge.OnCatFlapMessage: ends with the acknowledgement loop, because what follows in the source uses a device name left over from the start-up loop.
- MacFrames.Mrf24j.InterruptHandler: requires that an arrived frame has at most 127 bytes and a payload that fits the 116 bytes of `rx_info`; the source does not check this, and what it overwrites otherwise is not modelled.
- Radio.RadioHub.HandleRx: the answer to an unknown payload is an uninitialised buffer and has no contents here; so has the uninitialised text in front of a published payload.
- Locks.GenerateLock: of the other pet door messages only those for time and curfew are modelled; custom mode, lock state 39 and the dumps write or ask for registers that the decoder does not report.
- Locks.Bridge.OnPetDoorMessage: messages of kinds that no door sends (hub reports, 126 and 127 frames) are rejected; of what is published only the switches are kept, not battery, movements and status.
- Acks.Bridge.DecodeStatus: hub reports and 132 messages are rejected; 132 messages of feeders are not decoded.
- Timestamps.Moment: a first word past the year 9999 raises ValueError here, while Python has other exceptions for numbers that are far larger.
- Doors.DoorTime: `converttime` clears the top bit of the minutes in place, but in a slice copied for each call; here it is a function of the two registers.
- Signs, underscores, base prefixes and digits of other alphabets in arguments of `int` and `isdigit` are rejected here, while Python accepts some of them.
- The hub and Felaqua branches of `generatemessage`, hub frames, feeder 132 frames and the messages 3, 8 and 10 only add tables of the same kind.
- The choice of the branch by product type is the choice of the method that is called.
- Enum members the library makes up for unknown values are modelled by their decimal name; combinations of custom modes have none, because that name depends on the library version.
- The conversion of a local time of day to UTC is a function that is passed in; the date is read once per message. A tag index of 256 or more is generated as Python does, and never reads back.
- SQLite is a set of maps, so each key has at most one row. Duplicate rows are not modelled.
- Weights are integers in hundredths and battery voltages in ten-thousandths. Rounding of binary floating point is not modelled.
- The acknowledgements of one message share one time, although the source reads the clock for each.
- Discovery messages, Home Assistant status, logging, configuration, the remaining handlers of the bridge, and every script besides the ones named above are plumbing.
- Radio registers, start-up, WiFi, JSON, LED and serial output of the radio hub, and messages that arrive there over MQTT.
