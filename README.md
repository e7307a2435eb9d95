# INDIGO drivers: imager agent, CCD simulator, Deep Sky Dad focuser, DSI and ToupTek cameras

This project is a Dafny model of the logic inside five drivers of the
INDIGO astronomy property bus. Each driver publishes properties. A
property holds items and a state: Idle, Ok, Busy or Alert. A
change-property handler answers client requests, and timer callbacks
carry the device's state machine forward.

- **Imager agent** (`agent_imager.dfy`): the agent is a device and a client at once.
  - It keeps the list of cameras on the bus as a one-of-many switch. Item 0 is "None"; there are at most 32 items.
  - Selecting a camera drives a connection handshake.
  - It caches up to 512 properties that devices define.
  - It serves enumerate requests and change requests.
- **CCD simulator** (`ccd_simulator.dfy`):
  - a filter wheel that steps cyclically through five slots;
  - a camera whose temperature moves one degree per tick toward the target, with cooler power 100/50/0;
  - exposure and abort handlers;
  - a guider that sends one pulse at a time.
- **Deep Sky Dad focuser** (`dsd_codec.dfy`, `dsd_focuser.dfy`):
  - the serial protocol: `[CMDnnnnnn]` commands, `(n)` and `(OK)` replies, and the setters' argument guards;
  - the step-mode and coils-mode switch mappings;
  - absolute and relative moves, abort, and the motion poll;
  - parsing of the network port name;
  - the device-count clamp.
- **Meade DSI camera** (`dsi_hotplug.dfy`, `dsi_camera.dfy`):
  - a 32-slot hot-plug table;
  - frame snapping;
  - an exposure that runs on one or two timers;
  - the readout.
- **ToupTek camera** (`touptek_modes.dfy`, `touptek_devices.dfy`):
  - the mode list the attach builds from the capability flags, and how an exposure reads a mode name back;
  - which mode is selected on connect;
  - the exposure's frame counter, abort, the temperature rule and guide pulses;
  - the camera handle shared by the camera device and the guider device;
  - the hot-plug table diff.

`bus.dfy` holds the bus vocabulary: states, permissions, Option, and one-of-many selection. `decimal.dfy` models the C conversions the protocol uses: `%d`/`%0wd` formatting, `sscanf("%d")` and `atoi`.

Handlers whose C code updates fields step by step are classes with those fields. Each method has `modifies` clauses and ensures that state the new field values. Most handlers are also specified by a pure function of the old state, and the properties are proved about that function. Hardware and SDK outcomes are method or function parameters:
- a getter's decoded value, or `None` on failure;
- a setter's reply;
- whether a lock, open, stop or send succeeded;
- the identifiers a USB scan reports, in order;
- whether each readout poll found the data ready.

The framework's copy of request values into a property is abstracted the same way: the handler receives the values the copy leaves, such as the switch vector after a list selection or the requested slot.

## Model

| member | source | states |
|---|---|---|
| Bus.SelectOnly | indigo_drivers/focuser_dsd/indigo_focuser_dsd.c:606-631 | The framework's set-switch on a one-of-many property: exactly the given item is on and exactly one item is selected. |
| Decimal.FormatInt | indigo_drivers/focuser_dsd/indigo_focuser_dsd.c:221 | `%0wd` formatting: at least w characters; a non-negative value prints as digits denoting it; a negative one prints as '-' followed by digits denoting its magnitude. |
| Decimal.AsInt32 | indigo_drivers/focuser_dsd/indigo_focuser_dsd.c:221 | A 32-bit unsigned argument printed by `%d` is read as a signed int congruent to it modulo 2^32. |
| Decimal.ValueOfDigits | indigo_drivers/focuser_dsd/indigo_focuser_dsd.c:207 | The digits `%d` prints for n denote n. |
| Decimal.ScanDigits | indigo_drivers/focuser_dsd/indigo_focuser_dsd.c:207 | Scanning printed digits followed by a non-digit, by `sscanf` or by `atoi`, gives back the number. |
| Decimal.ScanUnsignedText | indigo_drivers/focuser_dsd/indigo_focuser_dsd.c:207 | A digit string followed by a non-digit scans to its value. |
| Decimal.ScanNegativeText | indigo_drivers/focuser_dsd/indigo_focuser_dsd.c:207 | A minus sign and a digit string followed by a non-digit scan to the negated value. |
| Decimal.ScanFormatted | indigo_drivers/focuser_dsd/indigo_focuser_dsd.c:207 | Scanning what `%0wd` printed gives back the printed number, for negative values too. |
| DsdCodec.GetCommand | indigo_drivers/focuser_dsd/indigo_focuser_dsd.c:255-374 | Every getter sends a bracketed `[G...]` query. |
| DsdCodec.SetCommand | indigo_drivers/focuser_dsd/indigo_focuser_dsd.c:284-370 | A setter sends nothing exactly when its guard refuses the argument: coils mode > 2, move or hold current > 100, or speed > 3. Otherwise it sends a bracketed command. |
| DsdCodec.SetCommandRoundTrip | indigo_drivers/focuser_dsd/indigo_focuser_dsd.c:217-221 | The command a setter formats carries its argument: reading it back gives v modulo 2^32, and exactly v below 2^31. |
| DsdCodec.PaddedField | indigo_drivers/focuser_dsd/indigo_focuser_dsd.c:236-238 | Sync position, settle buffer and coils timeout below one million are sent as exactly six zero-padded digits, as in `[SPOS000123]`. |
| DsdCodec.GotoCommand | indigo_drivers/focuser_dsd/indigo_focuser_dsd.c:260-264 | A goto sends `[STRG` + argument + `]`. |
| DsdCodec.GotoRoundTrip | indigo_drivers/focuser_dsd/indigo_focuser_dsd.c:264 | The goto command carries its target, modulo 2^32. |
| DsdCodec.ReverseCommand | indigo_drivers/focuser_dsd/indigo_focuser_dsd.c:241-245 | Reverse is `[SREV1]` when enabled and `[SREV0]` otherwise. |
| DsdCodec.Encode | indigo_drivers/focuser_dsd/indigo_focuser_dsd.c:231-276 | Every command that can go out is one bracketed text. |
| DsdCodec.SetSucceeded | indigo_drivers/focuser_dsd/indigo_focuser_dsd.c:217-228 | A setter succeeds if and only if the command went out and the reply is exactly "(OK)". |
| DsdCodec.GetValue | indigo_drivers/focuser_dsd/indigo_focuser_dsd.c:202-214 | A getter yields a value only for an answered reply that opens with '('. |
| DsdCodec.GetValueParses | indigo_drivers/focuser_dsd/indigo_focuser_dsd.c:206-210 | A getter succeeds if and only if the reply is '(' followed by a `%d` number, and then yields that number modulo 2^32. |
| DsdCodec.GetValueRoundTrip | indigo_drivers/focuser_dsd/indigo_focuser_dsd.c:207 | The reply "(n)" yields n. |
| DsdCodec.GetValueRejectsOk | indigo_drivers/focuser_dsd/indigo_focuser_dsd.c:207-208 | A getter fails on the "(OK)" acknowledgement. |
| DsdCodec.GotoSucceeded | indigo_drivers/focuser_dsd/indigo_focuser_dsd.c:266-275 | A goto succeeds if and only if the target reply arrived and is not "!101)", and the move command went out. |
| DsdCodec.StepModeOfItem | indigo_drivers/focuser_dsd/indigo_focuser_dsd.c:980-990 | Step-mode item i stands for the divisor 2^i (FULL 1, HALF 2, FOURTH 4, EIGTH 8). |
| DsdCodec.StepItemOfMode | indigo_drivers/focuser_dsd/indigo_focuser_dsd.c:606-631 | A reported step mode maps to the item standing for it; there is no item exactly when the value is not 1, 2, 4 or 8. |
| DsdCodec.StepModeRoundTrip | indigo_drivers/focuser_dsd/indigo_focuser_dsd.c:606-631 | switch → mode → switch selects the same item. |
| DsdCodec.CoilsModeOfItem | indigo_drivers/focuser_dsd/indigo_focuser_dsd.c:1066-1074 | A coils-mode item stands for a mode of at most 2. |
| DsdCodec.CoilsItemOfMode | indigo_drivers/focuser_dsd/indigo_focuser_dsd.c:633-655 | A reported coils mode maps to its item; there is none exactly when the mode is outside 0..2. |
| DsdCodec.CoilsModeRoundTrip | indigo_drivers/focuser_dsd/indigo_focuser_dsd.c:633-655 | switch → mode → switch selects the same coils item. |
| DsdCodec.FirstSelected | indigo_drivers/focuser_dsd/indigo_focuser_dsd.c:980-990 | The handler's if-else chain picks the first selected item, and picks none exactly when no item is selected. |
| DsdCodec.RefreshSwitch | indigo_drivers/focuser_dsd/indigo_focuser_dsd.c:606-655 | A failed query or an unrecognised value leaves the switch as it was. A known value selects its item alone. |
| DsdCodec.Clamp | indigo_drivers/focuser_dsd/indigo_focuser_dsd.c:927-932 | A target is kept inside [min, max]. One already inside is kept, and one beyond a limit becomes that limit. |
| DsdCodec.RelativeTarget | indigo_drivers/focuser_dsd/indigo_focuser_dsd.c:921-932 | The relative target is current − steps inward or current + steps outward, clamped into the limits. |
| DsdCodec.FirstColon | indigo_drivers/focuser_dsd/indigo_focuser_dsd.c:685 | `strchr` finds the first colon, or none when there is no colon. |
| DsdCodec.ConnectTarget | indigo_drivers/focuser_dsd/indigo_focuser_dsd.c:678-694 | Intended reading of the port name: a name without the "dsd://" prefix is a serial path. |
| DsdCodec.ConnectDefaultPort | indigo_drivers/focuser_dsd/indigo_focuser_dsd.c:686-687 | "dsd://host" connects to host on port 8080. |
| DsdCodec.ConnectHostPort | indigo_drivers/focuser_dsd/indigo_focuser_dsd.c:688-693 | "dsd://host:port" connects to host on port. |
| DsdCodec.PrefixTestAsWritten | indigo_drivers/focuser_dsd/indigo_focuser_dsd.c:679 | The written prefix test compares 8 characters against a 6-character prefix, so it passes exactly for the bare "dsd://". |
| DsdCodec.ConnectTargetAsWritten | indigo_drivers/focuser_dsd/indigo_focuser_dsd.c:679-694 | As written: a name failing the 8-character prefix test is opened as that serial path; one passing it is opened as TCP to a host read from the bytes beyond the name. |
| DsdCodec.AsWrittenSerial | indigo_drivers/focuser_dsd/indigo_focuser_dsd.c:679-684 | As written, every name other than the bare prefix is opened as a serial path. |
| DsdCodec.NetworkNameGoesToSerial | indigo_drivers/focuser_dsd/indigo_focuser_dsd.c:679-684 | As written, "dsd://host:9999" is opened as a serial path; as intended, it is TCP to host, port 9999. |
| DsdCodec.DeviceCount | indigo_drivers/focuser_dsd/indigo_focuser_dsd.c:1166-1170 | The device count is 1 without the environment setting; otherwise it is the setting clamped into [1, 8], so a setting below 1 gives 1. |
| DsdFocuser.GotoCommands | indigo_drivers/focuser_dsd/indigo_focuser_dsd.c:260-276 | A goto sends the target, and sends the start of motion exactly when the target was not refused. |
| DsdFocuser.Reread | indigo_drivers/focuser_dsd/indigo_focuser_dsd.c:862-866 | A position query updates the position on success and keeps the old one on failure. |
| DsdFocuser.AbsoluteMove | indigo_drivers/focuser_dsd/indigo_focuser_dsd.c:840-874 | A target outside [0, 1000000] gives Alert with no command. A target equal to the current position gives Ok with no command. Otherwise the target is recorded. With goto-on-set, the focuser sends the goto and starts the poll: Busy if the target was accepted and the move command was written, Alert otherwise. Without it, the focuser syncs and reads back: Ok if both succeeded, Alert otherwise. No command aims outside the limits. |
| DsdFocuser.RelativeMove | indigo_drivers/focuser_dsd/indigo_focuser_dsd.c:907-942 | A step count outside [0, max] gives Alert with no command. Otherwise the focuser re-reads its position and goes to the clamped target with the poll started: Busy if the target was accepted and the move command was written, Alert otherwise. |
| DsdFocuser.AbortMotion | indigo_drivers/focuser_dsd/indigo_focuser_dsd.c:943-967 | Position and steps go Ok and the poll is cancelled. Stop and a position query are sent. Abort is Ok if and only if both succeeded. |
| DsdFocuser.Poll | indigo_drivers/focuser_dsd/indigo_focuser_dsd.c:394-422 | The poll ends, with position and steps Ok, if and only if the focuser is not moving or has reached the target. Otherwise it reschedules, and a failed query alerts both properties. |
| DsdFocuser.StepModeRequest | indigo_drivers/focuser_dsd/indigo_focuser_dsd.c:976-997 | The first selected item's mode is sent. The state is Ok if and only if the reply was "(OK)". The switch is refreshed from the device. |
| DsdFocuser.CoilsModeRequest | indigo_drivers/focuser_dsd/indigo_focuser_dsd.c:1062-1081 | As for the step mode, but a mode the guard refuses is not sent and gives Alert. A selected item is always sent. |
| DsdFocuser.StepModeRequestRoundTrip | indigo_drivers/focuser_dsd/indigo_focuser_dsd.c:976-997 | A selected step mode that is sent and read back selects the same item alone. |
| DsdFocuser.CoilsModeRequestRoundTrip | indigo_drivers/focuser_dsd/indigo_focuser_dsd.c:1062-1081 | The same round trip for the coils mode. |
| DsdFocuser.Focuser.constructor | indigo_drivers/focuser_dsd/indigo_focuser_dsd.c:531-604 | Attach: limits set, switches clear, nothing moving, every property Ok. |
| DsdFocuser.BoardVersion | indigo_drivers/focuser_dsd/indigo_focuser_dsd.c:719-731 | The firmware's board text sets the version: 1 if it names AF1, else 2 if it names AF2, else 3 if it names AF3. A failed query or a board naming none keeps the old version. |
| DsdFocuser.Af3Board | indigo_drivers/focuser_dsd/indigo_focuser_dsd.c:723-730 | A board reporting "DSD AF3" is version 3. |
| DsdFocuser.ConnectCommands | indigo_drivers/focuser_dsd/indigo_focuser_dsd.c:716-795 | A connect past the first position query sends, in order: the firmware query, a second position query, the limit and speed queries, the maximum move, the reverse switch, both mode queries, the currents and timings, and the temperature query exactly for version 2 and above. Every command is well formed and aims inside the limits. |
| DsdFocuser.Focuser.Connect | indigo_drivers/focuser_dsd/indigo_focuser_dsd.c:664-802 | An already connected focuser changes nothing and sends nothing. Without the lock or an open port, the connection alerts and nothing is sent. A focuser that does not answer the position query stays disconnected, with Alert. Otherwise it connects Ok with ConnectCommands sent, the version from BoardVersion, the position from the second read (the first if that fails), both mode switches refreshed, the poll started, and the temperature timer started for version 2 and above. |
| DsdFocuser.Focuser.Configure | indigo_drivers/focuser_dsd/indigo_focuser_dsd.c:716-800 | The state a successful connect records: version, displayed position, mode switches, Ok connection, poll and temperature timers. |
| DsdFocuser.Focuser.RecordVersion | indigo_drivers/focuser_dsd/indigo_focuser_dsd.c:719-796 | The version becomes BoardVersion of the firmware reply, and the temperature timer starts exactly for version 2 and above. |
| DsdFocuser.Focuser.RefreshModes | indigo_drivers/focuser_dsd/indigo_focuser_dsd.c:753-757 | Both mode switches take RefreshSwitch of the device's mode replies, keeping their item counts. |
| DsdFocuser.Focuser.Disconnect | indigo_drivers/focuser_dsd/indigo_focuser_dsd.c:805-828 | Disconnecting a connected focuser cancels the poll, and the temperature timer for version 2 and above, and the connection is Ok. A disconnected focuser changes nothing. |
| DsdFocuser.Focuser.ChangePosition | indigo_drivers/focuser_dsd/indigo_focuser_dsd.c:840-874 | The new motion state and the commands are those of AbsoluteMove, with the move command's outcome as an input, and the validity invariant is kept. |
| DsdFocuser.Focuser.StartGoto | indigo_drivers/focuser_dsd/indigo_focuser_dsd.c:851-857 | The goto is sent and the poll started; the position is Busy if and only if the goto succeeded, Alert otherwise. |
| DsdFocuser.Focuser.SyncTo | indigo_drivers/focuser_dsd/indigo_focuser_dsd.c:858-870 | The counter is set to the target and the position re-read: the new position is shown when read, and the state is Ok if and only if the sync was acknowledged and the read succeeded. |
| DsdFocuser.Focuser.ChangeSteps | indigo_drivers/focuser_dsd/indigo_focuser_dsd.c:907-942 | The new motion state and the commands are those of RelativeMove, with the move command's outcome as an input. |
| DsdFocuser.Focuser.StepGoto | indigo_drivers/focuser_dsd/indigo_focuser_dsd.c:913-939 | The position is re-read (kept on failure) and shown, the target is the clamped relative target and lies within the limits, the poll starts, and the steps are Busy if and only if the goto succeeded, Alert otherwise. |
| DsdFocuser.Focuser.Abort | indigo_drivers/focuser_dsd/indigo_focuser_dsd.c:943-967 | The new motion state and the commands are those of AbortMotion, and the abort switch is cleared. |
| DsdFocuser.Focuser.TimerTick | indigo_drivers/focuser_dsd/indigo_focuser_dsd.c:394-422 | The new motion state and the commands are those of Poll. |
| DsdFocuser.Focuser.ChangeStepMode | indigo_drivers/focuser_dsd/indigo_focuser_dsd.c:976-997 | A disconnected focuser changes nothing. A connected one takes StepModeRequest's switch, state and commands. |
| DsdFocuser.Focuser.ChangeCoilsMode | indigo_drivers/focuser_dsd/indigo_focuser_dsd.c:1062-1081 | The same for CoilsModeRequest. |
| CcdSimulator.NextSlot | indigo_drivers/ccd_simulator/indigo_ccd_simulator.c:339 | A tick moves to the next slot, wrapping from the last slot to 1, so the slot stays in [1, max]. |
| CcdSimulator.Advance | indigo_drivers/ccd_simulator/indigo_ccd_simulator.c:338-345 | Any number of ticks keeps the slot in [1, max]. |
| CcdSimulator.AdvanceWithinTurn | indigo_drivers/ccd_simulator/indigo_ccd_simulator.c:339 | Within one turn, k ticks move k slots on, wrapping past the last slot at most once. |
| CcdSimulator.Distance | indigo_drivers/ccd_simulator/indigo_ccd_simulator.c:341-345 | The number of ticks to reach a slot is between 1 and max, and is a whole turn exactly when the target is the current slot. |
| CcdSimulator.ReachesTarget | indigo_drivers/ccd_simulator/indigo_ccd_simulator.c:338-345 | The cyclic step reaches any target in [1, max] within max ticks, and passes it at no earlier tick. |
| CcdSimulator.SlotRequest | indigo_drivers/ccd_simulator/indigo_ccd_simulator.c:376-386 | A slot outside [1, max] gives Alert with no motion. The current slot gives Ok. Any other slot gives Busy, records the target, shows the current slot and starts the tick timer. |
| CcdSimulator.Wheel.constructor | indigo_drivers/ccd_simulator/indigo_ccd_simulator.c:357-358 | Attach: five slots, with current = target = shown = 1. |
| CcdSimulator.Wheel.ChangeSlot | indigo_drivers/ccd_simulator/indigo_ccd_simulator.c:374-388 | The new state, value, target and timer are those of SlotRequest, and the wheel invariant is kept. |
| CcdSimulator.Wheel.Tick | indigo_drivers/ccd_simulator/indigo_ccd_simulator.c:338-347 | One slot on. The wheel is Ok with no further tick if and only if the target is reached. |
| CcdSimulator.TemperatureTick | indigo_drivers/ccd_simulator/indigo_ccd_simulator.c:102-132 | The temperature moves exactly 1 toward the target, or stays when equal. The state is Busy or Idle while moving and Ok or Idle when equal, by cooler. With the cooler on, power is 100 more than 10 above the target and 50 more than 5 above it. Below the target a positive power drops to 0. Otherwise power is unchanged. |
| CcdSimulator.TemperatureSettles | indigo_drivers/ccd_simulator/indigo_ccd_simulator.c:102-132 | After as many ticks as the distance, the temperature equals the target, and the next tick reports Ok (cooler on) or Idle. |
| CcdSimulator.CoolerSwitch | indigo_drivers/ccd_simulator/indigo_ccd_simulator.c:210-226 | Cooler on: read-write, Busy, target = shown value. Cooler off: read-only, Idle, power 0, target and value reset to 25. |
| CcdSimulator.Camera.constructor | indigo_drivers/ccd_simulator/indigo_ccd_simulator.c:164-170 | Attach: cooler off, 25 degrees everywhere, read-only, no timers, abort Idle. |
| CcdSimulator.Camera.ChangeConnection | indigo_drivers/ccd_simulator/indigo_ccd_simulator.c:182-189 | Connecting starts the temperature timer; disconnecting cancels it. |
| CcdSimulator.Camera.TemperatureTimer | indigo_drivers/ccd_simulator/indigo_ccd_simulator.c:102-132 | The thermal state becomes TemperatureTick of the old one, and the timer is rearmed. |
| CcdSimulator.Camera.ChangeCooler | indigo_drivers/ccd_simulator/indigo_ccd_simulator.c:210-226 | The temperature property takes CoolerSwitch's permission, state, power, target and value. |
| CcdSimulator.Camera.ChangeTemperature | indigo_drivers/ccd_simulator/indigo_ccd_simulator.c:227-234 | The target is recorded, the display shows the current temperature, and the state is Busy. |
| CcdSimulator.Camera.StartExposure | indigo_drivers/ccd_simulator/indigo_ccd_simulator.c:190-203 | The exposure goes Busy with its timer set. The image property (or, for local upload, the image file property) goes Busy. |
| CcdSimulator.Camera.ExposureTimer | indigo_drivers/ccd_simulator/indigo_ccd_simulator.c:68-79 | A Busy exposure ends Ok with 0 remaining; otherwise nothing changes. |
| CcdSimulator.Camera.AbortExposure | indigo_drivers/ccd_simulator/indigo_ccd_simulator.c:204-209 | Intended abort: the timer of an exposure in progress is cancelled, and no other timer is touched. |
| CcdSimulator.Camera.AbortExposureAsWritten | indigo_drivers/ccd_simulator/indigo_ccd_simulator.c:204-209 | As written, the timer is cancelled only when the abort property itself is Busy. |
| CcdSimulator.AbortLeavesExposureRunning | indigo_drivers/ccd_simulator/indigo_ccd_simulator.c:207 | After attach and an exposure request, the written abort leaves the exposure timer pending, while the intended abort cancels it. |
| CcdSimulator.GuideState | indigo_drivers/ccd_simulator/indigo_ccd_simulator.c:290-301 | A guide axis goes Busy if and only if either duration is positive; otherwise it is Ok. |
| CcdSimulator.PulseLength | indigo_drivers/ccd_simulator/indigo_ccd_simulator.c:291-300 | A timer is set exactly when the axis goes Busy. Its length is the first positive duration (north before south, east before west). |
| CcdSimulator.Guider.constructor | indigo_drivers/ccd_simulator/indigo_ccd_simulator.c:264-275 | Attach: all durations 0 and no pulse pending. |
| CcdSimulator.Guider.GuideDec | indigo_drivers/ccd_simulator/indigo_ccd_simulator.c:285-303 | A pending pulse is cancelled. The declination durations are taken, and the state and timer follow GuideState and PulseLength. |
| CcdSimulator.Guider.GuideRa | indigo_drivers/ccd_simulator/indigo_ccd_simulator.c:304-322 | The same over east and west. |
| CcdSimulator.Guider.Timer | indigo_drivers/ccd_simulator/indigo_ccd_simulator.c:248-262 | The guide timer zeroes every duration. Each axis that had a non-zero duration goes Ok; the others keep their state. |
| DsiHotplug.SlotTable.constructor | indigo_drivers/ccd_dsi/indigo_ccd_dsi.c:564 | Every slot starts empty. |
| DsiHotplug.SlotTable.FindAvailableSlot | indigo_drivers/ccd_dsi/indigo_ccd_dsi.c:596-601 | The lowest empty slot, or −1 exactly when all 32 slots are occupied. |
| DsiHotplug.SlotTable.FindDeviceSlot | indigo_drivers/ccd_dsi/indigo_ccd_dsi.c:604-611 | A slot holding the identifier, or −1 exactly when no slot holds it. |
| DsiHotplug.SlotTable.FindPluggedSid | indigo_drivers/ccd_dsi/indigo_ccd_dsi.c:567-593 | The first scanned identifier no slot holds. There is none exactly when every scanned identifier is already held. |
| DsiHotplug.SlotTable.FindUnpluggedSlot | indigo_drivers/ccd_dsi/indigo_ccd_dsi.c:614-636 | The lowest occupied slot whose identifier is missing from the scan, or −1 exactly when there is none. |
| DsiHotplug.SlotTable.Plug | indigo_drivers/ccd_dsi/indigo_ccd_dsi.c:639-689 | With no free slot, or no new identifier, the table is unchanged. Otherwise exactly the lowest free slot takes the first new identifier. No identifier is ever held twice. |
| DsiHotplug.SlotTable.Unplug | indigo_drivers/ccd_dsi/indigo_ccd_dsi.c:692-719 | Every slot whose identifier is missing from the scan is emptied, and every other slot is unchanged. |
| DsiHotplug.SlotTable.RemoveAll | indigo_drivers/ccd_dsi/indigo_ccd_dsi.c:790-801 | Every slot is emptied. |
| DsiCamera.SnapFrame | indigo_drivers/ccd_dsi/indigo_ccd_dsi.c:520-535 | Width is rounded down to a multiple of 8 and height to a multiple of 2 (value and target). A dimension under 64 binned pixels is raised to 64 × bin. The bit depth becomes 8 below 12 and 16 otherwise. |
| DsiCamera.SnapFrameIdempotent | indigo_drivers/ccd_dsi/indigo_ccd_dsi.c:520-535 | Snapping a snapped frame again changes nothing. |
| DsiCamera.WaitForDataAsWritten | indigo_drivers/ccd_dsi/indigo_ccd_dsi.c:233-242 | As written, the ready-wait always counts down to zero cycles. |
| DsiCamera.WaitForData | indigo_drivers/ccd_dsi/indigo_ccd_dsi.c:233-242 | Intended wait: it ends at the first ready poll with the cycles left, or with none left exactly when no poll within 4000 cycles was ready. |
| DsiCamera.ReadPixelsAsWritten | indigo_drivers/ccd_dsi/indigo_ccd_dsi.c:220-267 | As written, the readout fails for every exposure. |
| DsiCamera.ReadPixels | indigo_drivers/ccd_dsi/indigo_ccd_dsi.c:220-267 | Intended readout: it succeeds if and only if the data became ready within the wait and every row was read. |
| DsiCamera.ReadyAtOnce | indigo_drivers/ccd_dsi/indigo_ccd_dsi.c:244-247 | For a camera ready at its first poll, the written readout fails and the intended one succeeds. |
| DsiCamera.ExposureTimer | indigo_drivers/ccd_dsi/indigo_ccd_dsi.c:380-385 | An exposure over 4 s gets the early timer at length − 4. Any other exposure gets the readout timer at its length. |
| DsiCamera.Camera.constructor | indigo_drivers/ccd_dsi/indigo_ccd_dsi.c:345-357 | Attach: disconnected, no timer, exposure Idle. |
| DsiCamera.Camera.ChangeFrame | indigo_drivers/ccd_dsi/indigo_ccd_dsi.c:520-537 | The frame becomes SnapFrame of the request, and the property is Ok. |
| DsiCamera.Camera.ChangeExposure | indigo_drivers/ccd_dsi/indigo_ccd_dsi.c:360-392 | A request is ignored while the exposure is Busy, and a disconnected camera keeps its temperature checks, abort flag and image properties. Otherwise: a connected camera that accepts it goes Busy with ExposureTimer's timer, and its image property (or, for local upload, its image file property) goes Busy while the other keeps its state; a refusal gives Alert and leaves both image properties and the temperature checks alone. Temperature checks stop at once for short exposures only. |
| DsiCamera.Camera.ClearRegisterTimer | indigo_drivers/ccd_dsi/indigo_ccd_dsi.c:323-331 | With the exposure still Busy, the early timer stops temperature checks and chains a 4 s readout. Otherwise no timer is left. |
| DsiCamera.Camera.ReadoutTimer | indigo_drivers/ccd_dsi/indigo_ccd_dsi.c:303-319 | Intended readout timer (with ReadPixels): a Busy exposure ends Ok if and only if the readout succeeds, and Alert otherwise. Temperature checks resume in every connected case. |
| DsiCamera.Camera.ReadoutTimerAsWritten | indigo_drivers/ccd_dsi/indigo_ccd_dsi.c:303-319 | As written (with ReadPixelsAsWritten), every Busy exposure of a connected camera ends Alert with 0 remaining. |
| DsiCamera.Camera.Abort | indigo_drivers/ccd_dsi/indigo_ccd_dsi.c:513-518 | An exposure in progress raises the abort flag, and temperature checks resume in any case; nothing else changes. No code reads the flag, so the pending timer stays and the exposure is not stopped. |
| DsiCamera.Camera.AbortedExposureCompletes | indigo_drivers/ccd_dsi/indigo_ccd_dsi.c:268-280 | An exposure aborted while Busy, whose data is ready at once, still ends Ok with 0 remaining when its readout timer fires: the abort has no effect on it. |
| TouptekModes.Bits | indigo_drivers/ccd_touptek/indigo_ccd_touptek.c:276-292 | A mode transfers 8, 16 or 24 bits per pixel. |
| TouptekModes.KindsOf | indigo_drivers/ccd_touptek/indigo_ccd_touptek.c:132-149 | RAW8 is offered if and only if the flag is set. RAW16 is offered if and only if any 10- to 16-bit raw flag is set. RGB is offered if and only if the camera is not mono. There are no repeats. |
| TouptekModes.ModesAt | indigo_drivers/ccd_touptek/indigo_ccd_touptek.c:132-149 | Resolution i adds exactly one item per offered kind. |
| TouptekModes.ModesAtItems | indigo_drivers/ccd_touptek/indigo_ccd_touptek.c:132-149 | Item k of resolution i is the name of the k-th offered kind at i: `RAW8_i`, `RAW16_i` or `RGB_i`, in that order. |
| TouptekModes.ModesAtParts | indigo_drivers/ccd_touptek/indigo_ccd_touptek.c:132-149 | The items of a resolution are the three conditional appends, one after another. |
| TouptekModes.DecodeMode | indigo_drivers/ccd_touptek/indigo_ccd_touptek.c:265-293 | A name is read exactly when it opens with "RGB", "RAW8" or "RAW1", and it then gives 8, 16 or 24 bits. |
| TouptekModes.DecodeModeName | indigo_drivers/ccd_touptek/indigo_ccd_touptek.c:265-293 | Every name the attach builds decodes to its own bit depth and resolution index. |
| TouptekModes.ModeNameInjective | indigo_drivers/ccd_touptek/indigo_ccd_touptek.c:133-145 | Different modes have different names. |
| TouptekModes.ModeListLength | indigo_drivers/ccd_touptek/indigo_ccd_touptek.c:125-150 | The count equals the number of items added: resolutions × offered kinds. |
| TouptekModes.ModesAtMember | indigo_drivers/ccd_touptek/indigo_ccd_touptek.c:132-149 | A name is among resolution j's items if and only if its kind is offered and its index is j. |
| TouptekModes.ModeListMember | indigo_drivers/ccd_touptek/indigo_ccd_touptek.c:125-150 | A mode is listed if and only if its kind is offered and its resolution index is below the preview count. |
| TouptekModes.ModeListHas | indigo_drivers/ccd_touptek/indigo_ccd_touptek.c:125-150 | Every offered mode at one of the first n resolutions is among the first n resolutions' items. |
| TouptekModes.ModeListItems | indigo_drivers/ccd_touptek/indigo_ccd_touptek.c:125-150 | Every listed item is the name of an offered mode. |
| TouptekModes.ModeListDistinct | indigo_drivers/ccd_touptek/indigo_ccd_touptek.c:125-150 | No two items share a name. |
| TouptekModes.AddModes | indigo_drivers/ccd_touptek/indigo_ccd_touptek.c:132-149 | One pass of the attach loop appends exactly ModesAt(i). |
| TouptekModes.BuildModes | indigo_drivers/ccd_touptek/indigo_ccd_touptek.c:122-153 | The items are ModeList with item 0 alone selected. Sensor width and height are the maxima over the resolutions. |
| TouptekModes.DepthRangeOf | indigo_drivers/ccd_touptek/indigo_ccd_touptek.c:154-162 | The bit-depth range is [8, 8], [16, 16] or [8, 16] according to the raw flags, and [0, 0] with none. |
| TouptekModes.ConnectKind | indigo_drivers/ccd_touptek/indigo_ccd_touptek.c:213-229 | The connect looks for RGB if and only if the camera is colour and not in raw mode, and for RAW16 if and only if it is raw with a non-zero bit depth. |
| TouptekModes.ConnectModeName | indigo_drivers/ccd_touptek/indigo_ccd_touptek.c:224-228 | The name the connect prints is the attach's name for that mode. |
| TouptekModes.SelectMode | indigo_drivers/ccd_touptek/indigo_ccd_touptek.c:230-234 | An absent name leaves the switch unchanged. Otherwise the last item with the name is selected alone. |
| TouptekModes.ConnectSelectsMode | indigo_drivers/ccd_touptek/indigo_ccd_touptek.c:213-234 | No later item carries the name the connect looks for, so the last-match selection lands on the attach's item for that mode. That item decodes back to the reported bit depth and resolution. |
| TouptekModes.LastSettingOfOne | indigo_drivers/ccd_touptek/indigo_ccd_touptek.c:265-295 | With one item selected, the exposure's setting is that item's decoding. |
| TouptekModes.NoneSelectedBelow | indigo_drivers/ccd_touptek/indigo_ccd_touptek.c:265-295 | Items before the selected one contribute nothing. |
| TouptekModes.ExposureSetting | indigo_drivers/ccd_touptek/indigo_ccd_touptek.c:264-295 | The bits and resolution the exposure sets up are those of the last selected, readable item; bits are 0 when there is none. |
| TouptekDevices.Exposure.constructor | indigo_drivers/ccd_touptek/indigo_ccd_touptek.c:110-113 | No frames remaining and the exposure Idle. |
| TouptekDevices.Exposure.Start | indigo_drivers/ccd_touptek/indigo_ccd_touptek.c:256-301 | A request while Busy is ignored. Otherwise one frame remains and the exposure is Busy. |
| TouptekDevices.Exposure.Pull | indigo_drivers/ccd_touptek/indigo_ccd_touptek.c:61-87 | An image with frames remaining takes one and gives Ok, so remaining never goes negative. Timeout, disconnect and error give Alert. Other events change nothing. |
| TouptekDevices.Exposure.Abort | indigo_drivers/ccd_touptek/indigo_ccd_touptek.c:302-315 | A set abort switch is cleared, remaining becomes 0, and abort is Ok or Alert as the stop fared. |
| TouptekDevices.TemperatureState | indigo_drivers/ccd_touptek/indigo_ccd_touptek.c:94-103 | Intended rule of the temperature poll: Busy if and only if the property is read-write, the reading is more than 1 from the target, and the cooler is not visibly off; otherwise Ok. |
| TouptekDevices.TemperaturePoll | indigo_drivers/ccd_touptek/indigo_ccd_touptek.c:89-106 | The poll changes the state only when the camera is connected, the check flag is set and a reading arrived, and then sets it by TemperatureState; otherwise the state is kept. |
| TouptekDevices.TemperaturePollNeverUpdates | indigo_drivers/ccd_touptek/indigo_ccd_touptek.c:92 | With the check flag clear, as the driver leaves it, a camera 10 degrees above target stays Idle; with it set, the same reading gives Busy. |
| TouptekDevices.GuidePulse | indigo_drivers/ccd_touptek/indigo_ccd_touptek.c:409-430 | A positive first duration pulses in the base direction, else a positive second one in the next direction, else no pulse. |
| TouptekDevices.GuideState | indigo_drivers/ccd_touptek/indigo_ccd_touptek.c:417 | Alert if and only if a pulse was due and failed; otherwise Ok. |
| TouptekDevices.GuideDirections | indigo_drivers/ccd_touptek/indigo_ccd_touptek.c:413-427 | Declination pulses use directions 0/1 (N/S) and right-ascension pulses use 2/3 (E/W). |
| TouptekDevices.SharedCamera.constructor | indigo_drivers/ccd_touptek/indigo_ccd_touptek.c:479-489 | No handle, nothing connected, no lock. |
| TouptekDevices.SharedCamera.Connect | indigo_drivers/ccd_touptek/indigo_ccd_touptek.c:194-239 | The handle is opened only if not yet open and the lock was taken. The side is connected if and only if the handle is open, and its connection gives Alert otherwise. |
| TouptekDevices.SharedCamera.Disconnect | indigo_drivers/ccd_touptek/indigo_ccd_touptek.c:240-255 | Intended release: the side disconnects, and the handle closes and the lock is released exactly when the sibling is not connected. |
| TouptekDevices.DisconnectAsWritten | indigo_drivers/ccd_touptek/indigo_ccd_touptek.c:246-252 | As written, close is reached only with no handle open. A camera without a guide port never clears its handle. The guider side never unlocks an open handle. |
| TouptekDevices.CameraTable.constructor | indigo_drivers/ccd_touptek/indigo_ccd_touptek.c:544-545 | Every slot starts empty. |
| TouptekDevices.CameraTable.MarkAllAbsent | indigo_drivers/ccd_touptek/indigo_ccd_touptek.c:452-456 | Every device in the table is marked absent, and nothing else changes. |
| TouptekDevices.CameraTable.FindCamera | indigo_drivers/ccd_touptek/indigo_ccd_touptek.c:461-469 | Intended lookup: the slot holding the identifier, or −1 exactly when no slot holds it. |
| TouptekDevices.CameraTable.FindFree | indigo_drivers/ccd_touptek/indigo_ccd_touptek.c:490-495 | Intended probe: the lowest empty slot, or −1 exactly when the table is full. |
| TouptekDevices.CameraTable.Discover | indigo_drivers/ccd_touptek/indigo_ccd_touptek.c:459-513 | A held camera is marked present and nothing else changes. A new one takes the lowest free slot, present and with a guider if it has a guide port. With no free slot nothing changes. |
| TouptekDevices.CameraTable.RemoveAbsent | indigo_drivers/ccd_touptek/indigo_ccd_touptek.c:515-529 | Every absent device is emptied, and present ones are kept. |
| TouptekDevices.ScanStep | indigo_drivers/ccd_touptek/indigo_ccd_touptek.c:458-513 | Looking at one more enumerated camera keeps every earlier entry (marked present exactly when some camera seen so far matches it), fills free slots only with new cameras seen so far, and leaves a seen camera out only when every free slot is filled. |
| TouptekDevices.ScanResult | indigo_drivers/ccd_touptek/indigo_ccd_touptek.c:515-529 | Once every camera is seen and absent entries are removed, the table holds what the hot-plug callback promises. |
| TouptekDevices.CameraTable.Hotplug | indigo_drivers/ccd_touptek/indigo_ccd_touptek.c:451-530 | Afterwards every device in the table was enumerated. Old devices stay if and only if enumerated. New slots hold enumerated cameras that were new. An enumerated camera is missing only when every slot that was empty has been filled. No identifier is held twice. |
| TouptekDevices.SameIdAsWritten | indigo_drivers/ccd_touptek/indigo_ccd_touptek.c:464 | As written, two identifiers compare equal exactly when their first four bytes agree; equal identifiers always do. |
| TouptekDevices.SameIdAsWrittenConfuses | indigo_drivers/ccd_touptek/indigo_ccd_touptek.c:464 | As written, identifiers "abcd1" and "abcd2" compare equal. |
| TouptekDevices.FullCompareDistinguishes | indigo_drivers/ccd_touptek/indigo_ccd_touptek.c:464 | Comparing the whole identifier holds exactly for equal identifiers. |
| TouptekDevices.FreeSlotAsWritten | indigo_drivers/ccd_touptek/indigo_ccd_touptek.c:490-495 | As written, the probe can only return the slot numbered like the enumerated camera, and only when that slot is empty. |
| TouptekDevices.FreeSlotAsWrittenMisses | indigo_drivers/ccd_touptek/indigo_ccd_touptek.c:491 | The first camera enumerated finds no slot when slot 0 is taken, although slot 1 is free. |
| ImagerAgent.FindFrom | indigo_drivers/agent_imager/indigo_agent_imager.c:153-157 | The first index from `from` on with the name, or none exactly when no such index exists. |
| ImagerAgent.FirstSelectedFrom | indigo_drivers/agent_imager/indigo_agent_imager.c:127-134 | The first selected index from `from` on, or none exactly when nothing there is selected. |
| ImagerAgent.SelectedDevice | indigo_drivers/agent_imager/indigo_agent_imager.c:136-145 | The device the list selects is a selected item after "None", and there is none exactly when no such item is selected. |
| ImagerAgent.Added | indigo_drivers/agent_imager/indigo_agent_imager.c:151-165 | A listed device is not added again. Otherwise one unselected item is appended while count < 32. Existing items are unchanged and count never exceeds 32. |
| ImagerAgent.Removed | indigo_drivers/agent_imager/indigo_agent_imager.c:332-346 | The first match after "None" is removed and later items shift down in order, so count drops by 1. With no match, nothing changes. |
| ImagerAgent.AddedDistinct | indigo_drivers/agent_imager/indigo_agent_imager.c:153-157 | Adding never creates a duplicate. |
| ImagerAgent.RemovedDistinct | indigo_drivers/agent_imager/indigo_agent_imager.c:332-346 | Removal keeps names distinct, unlists the device and keeps every other device listed. |
| ImagerAgent.AddedThenRemoved | indigo_drivers/agent_imager/indigo_agent_imager.c:151-165 | Adding a new device and then removing it gives the list back. |
| ImagerAgent.AddedIdempotent | indigo_drivers/agent_imager/indigo_agent_imager.c:151-157 | Discovering a device twice lists it once. |
| ImagerAgent.SelectOneConnects | indigo_drivers/agent_imager/indigo_agent_imager.c:135-143 | Selecting exactly one camera connects that camera. |
| ImagerAgent.ConnectOutcome | indigo_drivers/agent_imager/indigo_agent_imager.c:171-187 | While the list is Busy: a remote Alert gives Alert, and "connected" with Ok gives Ok plus an enumerate request. When the list is Ok, "disconnected" gives Alert. Nothing else changes the state. |
| ImagerAgent.HandshakeCompletes | indigo_drivers/agent_imager/indigo_agent_imager.c:171-187 | A selection followed by "connected" ends Ok, and a later "disconnected" ends Alert. |
| ImagerAgent.Enumerate | indigo_drivers/agent_imager/indigo_agent_imager.c:228-240 | The agent's own client gets nothing. Any other client gets exactly the matching agent properties, none twice. |
| ImagerAgent.Agent.constructor | indigo_drivers/agent_imager/indigo_agent_imager.c:197-226 | The list is ["None" selected] and Ok. The batch is one frame without delay. Start and abort are off, and the cache is empty. |
| ImagerAgent.Agent.FindDevice | indigo_drivers/agent_imager/indigo_agent_imager.c:153-157 | The index FindFrom gives from 1 on, or −1; never 0. |
| ImagerAgent.Agent.FindSelected | indigo_drivers/agent_imager/indigo_agent_imager.c:127-134 | The index FirstSelectedFrom gives from 1 on, or −1; never 0. |
| ImagerAgent.Agent.AddDevice | indigo_drivers/agent_imager/indigo_agent_imager.c:151-165 | The list becomes Added(old list), and the invariants are kept. |
| ImagerAgent.Agent.ShiftDown | indigo_drivers/agent_imager/indigo_agent_imager.c:335-338 | Items before i are kept, and each later item moves down one place. |
| ImagerAgent.Agent.DeleteDevice | indigo_drivers/agent_imager/indigo_agent_imager.c:332-346 | The list becomes Removed(old list), and the invariants are kept. |
| ImagerAgent.Agent.SelectDevice | indigo_drivers/agent_imager/indigo_agent_imager.c:123-149 | The previously selected device is asked to disconnect. The request's selection is committed. The list is Busy with a connect request if and only if some camera is selected, and Ok otherwise. |
| ImagerAgent.Agent.ApplySelection | indigo_drivers/agent_imager/indigo_agent_imager.c:135 | Every item keeps its name and takes the requested selection. |
| ImagerAgent.Agent.IsSelectedDevice | indigo_drivers/agent_imager/indigo_agent_imager.c:169-170 | True if and only if the reporting device is a selected item after "None". |
| ImagerAgent.Agent.ConnectDevice | indigo_drivers/agent_imager/indigo_agent_imager.c:167-191 | For the selected reporting device, the list takes ConnectOutcome's state. Any other report changes nothing. |
| ImagerAgent.Agent.CacheFind | indigo_drivers/agent_imager/indigo_agent_imager.c:295-300 | The slot holding the property, or −1 exactly when it is not cached. |
| ImagerAgent.Agent.CacheFree | indigo_drivers/agent_imager/indigo_agent_imager.c:302-307 | The lowest empty slot, or −1 exactly when all 512 are used. |
| ImagerAgent.Agent.CacheDefine | indigo_drivers/agent_imager/indigo_agent_imager.c:293-308 | A cached property is not stored again. A new one fills the first empty slot, and is dropped when the cache is full. Every property stays cached at most once. |
| ImagerAgent.Agent.CacheDelete | indigo_drivers/agent_imager/indigo_agent_imager.c:354-360 | The property's slot is cleared, and every other slot is unchanged. |
| ImagerAgent.Agent.ClearCache | indigo_drivers/agent_imager/indigo_agent_imager.c:279-288 | Client attach empties every slot. |
| ImagerAgent.Agent.CacheLookup | indigo_drivers/agent_imager/indigo_agent_imager.c:75-78 | The cached property of that device and name, or none exactly when it is not cached. |
| ImagerAgent.Agent.GetProperty | indigo_drivers/agent_imager/indigo_agent_imager.c:70-82 | Intended lookup: a cached property with the name belonging to a selected device, or none exactly when there is no such property. |
| ImagerAgent.Agent.GetPropertyAsWritten | indigo_drivers/agent_imager/indigo_agent_imager.c:70-82 | As written, the lookup always comes back empty. |
| ImagerAgent.Agent.GetPropertyMisses | indigo_drivers/agent_imager/indigo_agent_imager.c:76 | With a selected device's property cached, the written lookup misses it and the intended one finds it. |
| ImagerAgent.Agent.DefineProperty | indigo_drivers/agent_imager/indigo_agent_imager.c:290-319 | A notification from the agent's own device changes nothing. Otherwise a property already cached leaves the cache as it was; a new one fills the first empty slot, every other slot kept, or is dropped when all 512 are used. An INFO property with the CCD interface lists its device. |
| ImagerAgent.Agent.DeleteProperty | indigo_drivers/agent_imager/indigo_agent_imager.c:348-362 | A notification from the agent's own device changes nothing. Otherwise the property leaves the cache and every other slot is kept, and a whole-device or INFO deletion unlists the device. |
| ImagerAgent.Agent.UpdateProperty | indigo_drivers/agent_imager/indigo_agent_imager.c:321-330 | Only a non-Busy CONNECTION update from another device reaches the handshake. |
| ImagerAgent.Agent.ChangeProperty | indigo_drivers/agent_imager/indigo_agent_imager.c:242-266 | Requests from the agent's own client change nothing. A list request selects. A batch request is taken with Ok. Start and abort reset their switch and report Ok. |

## Left out

- Serial, TCP, USB and vendor SDK I/O is not modelled: the `dsd_command` exchange loop, libusb hot-plug registration, `Toupcam_*` calls and the commented-out camera calls. Their outcomes are parameters, and the DSI USB scan is an input sequence.
- Floating point is left out. This covers simulator image synthesis, DSD temperature compensation, pixel-size conversion and ToupTek temperature scaling. Positions, slots, frame sizes and temperatures are integers.
- Concurrency is left out: mutexes, the deferred plug/unplug threads, `indigo_async`, and the real-time waits of the agent's `set_simple_property`.
- Image and configuration plumbing is left out: FITS, image processing, BLOB buffers, config save and the driver entry's `last_action` bookkeeping.
- Framework calls are abstracted. `indigo_property_copy_values` is represented by the values it leaves, passed in. `indigo_update_property` and timers are represented by flags. The header constants (item names, the CCD interface bit, `TOUPCAM_MAX` = 16) are taken as given, and `indigo_agent_imager.h` is not part of this model.
- ImagerAgent.Agent.DefineProperty: whether the INFO property declares the CCD interface (the `atoi` of its interface item and the mask) is an input.
- ImagerAgent.Agent.SelectDevice: the selection vector after the framework's copy is an input; the copy itself is not modelled.
- ImagerAgent.Agent.GetPropertyAsWritten: since the first negated `strcpy` is false, `&&` stops there and only the device name is copied: every cached property's device is overwritten with each selected item's name in turn. That overwrite is not modelled; the model leaves the cache as it was and captures only that nothing is found.
- ImagerAgent.Agent.ShiftDown: the C shifts the list with an overlapping `memcpy` (indigo_drivers/agent_imager/indigo_agent_imager.c:337), which is undefined behaviour; the model shifts the items as `memmove` would.
- The agent's property identity is pointer identity in C; the model identifies a property by its device and name.
- DsdFocuser.Focuser.Connect: whether the lock was taken and the port opened are inputs (the port name is read by DsdCodec.ConnectTarget), the board text is the decoded firmware reply, and the values of the limit, speed, current, timing and temperature queries, the property definitions and the visibility of the temperature properties are not modelled. A port that fails to open returns without releasing the lock, which the model does not track.
- DsdFocuser.Poll: `dsd_is_moving` writes a 32-bit value through a `bool *` (indigo_drivers/focuser_dsd/indigo_focuser_dsd.c:374, 395); the model reads the flag as the whole value being non-zero.
- DsdFocuser.Poll and DsdFocuser.StepModeRequest, DsdFocuser.CoilsModeRequest: C reads uninitialised variables here. These are `moving` when the moving query fails, and `mode` when no switch item is selected. The model makes their value a parameter (unsetMoving, unsetMode) instead of fixing one.
- DsdFocuser: the reverse, speed, limits, current-control and timings handlers, and temperature compensation, are not modelled. DsdCodec gives their commands and guards.
- DsiCamera.Camera: the connection branch is not modelled; `connected` is a field the handlers read. The uninitialised `res` of the camera calls is left out with them. Whether the camera accepted the exposure is an input.
- DsiHotplug.SlotTable.Unplug: freeing devices is not modelled. The driver frees only the last unplugged device's private data; the model only empties the slots.
- DsiHotplug: the identifier compare is modelled as full equality of identifiers; `strncmp` over `DSI_ID_LEN` is not modelled.
- TouptekDevices.CameraTable.Discover: with the table full, the driver still attaches a guider for the camera it could not store; the model drops the camera.
- TouptekDevices.SharedCamera.Connect: the success state of the connection is left to the generic camera layer and is not modelled; only the alert is.
- TouptekDevices.Exposure: the image pull, the pause and the exposure-time setting are SDK calls and are not modelled.
- TouptekDevices.TemperatureState: the reading's scaling is floating point and is left out; values are integers.
- CcdSimulator.Camera.StartExposure: image synthesis is not modelled; the exposure callback only completes the exposure.
- CcdSimulator.Camera: in C the imager camera, the wheel, the guider camera and the guider share one private-data block (indigo_drivers/ccd_simulator/indigo_ccd_simulator.c:433-458), so both cameras share the current and target temperature, the exposure timer and the guider timer. The model gives each camera its own fields and does not capture one camera's exposure or cooling affecting the other's.
- CcdSimulator.Wheel.ChangeSlot: a slot request made while the wheel is still moving starts a second tick timer without cancelling the first (indigo_drivers/ccd_simulator/indigo_ccd_simulator.c:385). Two tick chains then run, so the wheel advances two slots per tick period; one chain stops at the target and reports Ok while the other moves past it and goes round again. The model keeps one pending-timer flag, so it merges the chains, and CcdSimulator.ReachesTarget describes a single chain only.
- CcdSimulator.TemperatureSettles: holds only because temperatures are integers here. In C they are doubles, and a fractional target such as −10.5 makes the one-degree step oscillate between −10 and −11, so the state stays Busy (indigo_drivers/ccd_simulator/indigo_ccd_simulator.c:103-126, 230).

## Findings

| source | as written | input that shows it | evidently intended | confidence | as-written member | corrected member |
|---|---|---|---|---|---|---|
| indigo_drivers/focuser_dsd/indigo_focuser_dsd.c:679-684 | `strncmp(name, "dsd://", 8)` compares 8 characters against a 6-character prefix, and the host is read from `name + 8` | the port name "dsd://host:9999" is opened as a serial path (DsdCodec.NetworkNameGoesToSerial) | any "dsd://" name opens TCP to the host after the prefix, on the given port or 8080 | not executed | DsdCodec.ConnectTargetAsWritten | DsdCodec.ConnectTarget |
| indigo_drivers/ccd_dsi/indigo_ccd_dsi.c:233-247 | the `break` on data-ready is commented out, so the wait always ends with zero cycles and the readout reports failure | a camera ready at its first poll (DsiCamera.ReadyAtOnce) | the wait ends at the first ready poll, and the readout succeeds | not executed | DsiCamera.ReadPixelsAsWritten | DsiCamera.ReadPixels |
| indigo_drivers/ccd_touptek/indigo_ccd_touptek.c:464 | `memcmp(..., sizeof(64))` compares only the first four bytes of the identifiers | two cameras "abcd1" and "abcd2" are taken for one (TouptekDevices.SameIdAsWrittenConfuses) | the whole identifier is compared | not executed | TouptekDevices.SameIdAsWritten | TouptekDevices.CameraTable.FindCamera |
| indigo_drivers/ccd_touptek/indigo_ccd_touptek.c:491 | the free-slot loop probes `devices[j]`, the enumerated camera's index, instead of `devices[i]` | slot 0 taken and the first camera new: no slot is found although 15 are free (TouptekDevices.FreeSlotAsWrittenMisses) | the loop takes the first empty slot | not executed | TouptekDevices.FreeSlotAsWritten | TouptekDevices.CameraTable.FindFree |
| indigo_drivers/ccd_touptek/indigo_ccd_touptek.c:246-252 | camera and guider share one private-data block, so the sibling-handle test reads this very handle; a camera without a guide port never clears its handle | a camera without a guide port, connected and then disconnected, keeps its handle and lock | the handle is closed and the lock released when the sibling is absent or not connected | not executed | TouptekDevices.DisconnectAsWritten | TouptekDevices.SharedCamera.Disconnect |
| indigo_drivers/agent_imager/indigo_agent_imager.c:76 | `!strcpy(...)` is used as a name comparison; `strcpy` returns its non-null destination, so the test always fails | any selected device with the property cached (ImagerAgent.Agent.GetPropertyMisses) | the cached property of a selected device with that name is returned | not executed | ImagerAgent.Agent.GetPropertyAsWritten | ImagerAgent.Agent.GetProperty |
| indigo_drivers/ccd_touptek/indigo_ccd_touptek.c:92 | `can_check_temperature` is zeroed by the private-data `memset` (line 481) and never set, so the poll never reads the temperature or updates its state | a connected read-write camera 10 degrees above target with the cooler on stays Idle (TouptekDevices.TemperaturePollNeverUpdates) | the poll sets the temperature state by its rule | not executed | TouptekDevices.TemperaturePoll | TouptekDevices.TemperatureState |
| indigo_drivers/ccd_simulator/indigo_ccd_simulator.c:207 | the abort handler tests the abort property's own state, which no handler sets Busy | an exposure started and then aborted keeps its timer pending (CcdSimulator.AbortLeavesExposureRunning) | the abort cancels the timer of an exposure in progress | not executed | CcdSimulator.Camera.AbortExposureAsWritten | CcdSimulator.Camera.AbortExposure |
