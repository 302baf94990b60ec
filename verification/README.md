# fg-haptic in Dafny

fg-haptic connects FlightGear to SDL force-feedback devices. It enumerates
the haptic devices and announces them to the simulator as properties under
`/haptic/device[i]/...`. It reads back the configuration the user chose,
uploads force effects, and then turns a stream of telemetry into
constant-force levels and stick-shaker pulses. The repository has three
generations of the bridge, and this project models all three:

- **fg-haptic.c** is the current bridge:
  - a telnet channel pushes and pulls the configuration (`send_devices`, `read_devices`);
  - a generic-protocol channel streams `reconf|pilot xyz|stick xyz|trigger` lines (`read_fg`);
  - the main loop composes forces, fires the shaker on a rising trigger and services reconfiguration requests.
- **haptic.c** is the oldest bridge. It polls every parameter with `get` commands on one socket, and rebuilds effects when a polled value changes.
- **test-haptic.c** is a keyboard test harness. It shares the enumeration of fg-haptic.c, uploads a spring and a shaker, and drives them from `getchar()`.

How the model is built:

- Everything is a pure function over immutable datatypes.
- SDL calls are not performed. Each operation returns the trace of `HwCall`s it would issue; `Hardware.HwOp` names each call.
  - The identifier `SDL_HapticNewEffect` hands back is an `Uploader` parameter. It is a function of device index and effect slot.
  - What `SDL_HapticOpen`/`SDL_HapticName`/`SDL_HapticQuery` report is a `Devices.Probe` per index.
- Protocol traffic is structured values:
  - outgoing lines are `Protocol.Command`s;
  - the simulator's replies are a sequence of optional strings, where `None` is a read that timed out.
- `sscanf` is modelled by `Scanning.ScanFormat`:
  - it walks the format directive by directive;
  - the conversion of one number (`strtol`/`strtod`) is a `Scanning.Scanner` parameter;
  - haptic.c's `atof` is a `string -> real` parameter.
- Numbers are unbounded `int` and exact `real`. Two conversions of the C code are written out: the `signed char` a scanned mapping is stored in (`ConfigPull.SChar`), and the toward-zero truncation of a scanned float stored in the `unsigned short` shaker direction and period (`ConfigPull.Trunc`; the 16-bit range of that field is not modelled). The `(signed short)` of a level and the `(int)` of a gain are not; see the lines for `Force.Level` and `PollingLoop.StartCalls` under "## Left out".

Modules, in dependency order:

- `Optional`, `Scanning`, `LineClient`, `Protocol`, `Hardware`: shared vocabulary, `sscanf`, and the CR-LF line client.
- `Devices`, `Telemetry`, `ConfigPush`, `ConfigPull`, `ConfigRoundTrip`, `Effects`, `Force`, `ControlLoop`: fg-haptic.c.
- `PollingBridge`, `PollingLoop`: haptic.c.
- `KeyboardTest`: test-haptic.c.

## Model

| member | source | states |
|---|---|---|
| Scanning.ScanFormat | fg-haptic.c:383-388 | `sscanf` yields at most one value per conversion of the format, each of the kind its directive asks for, in order |
| Scanning.SingleConversions | fg-haptic.c:246-286 | a one-conversion `%d`/`%f` scan succeeds exactly when the number converter accepts the text, and then yields that number |
| Scanning.MismatchStops | fg-haptic.c:383-388 | a literal separator that does not match the input ends the scan with no values converted |
| LineClient.CStr | fg-haptic.c:685-703 | the C string of a buffer is its longest NUL-free prefix, ending just before the first NUL |
| LineClient.CStrWithoutNul | fg-haptic.c:685-703 | a buffer without a NUL is its own C string |
| LineClient.Frame | fg-haptic.c:685-703 | `fgfswrite` sends the C string of the message, cut to MAXMSG-3 characters, followed by CR LF; the frame never exceeds MAXMSG-1 |
| LineClient.TrimTerminators | fg-haptic.c:705-740 | stripping trailing CR/LF leaves a prefix that does not end in a terminator; everything removed was a terminator |
| LineClient.Receive | fg-haptic.c:705-740 | `fgfsread` yields nothing on a timeout or an empty read, and anything it yields is a non-empty, NUL-free prefix of the chunk. When the chunk holds no NUL: it yields nothing exactly when the chunk is all CRs and LFs, and otherwise the chunk without its trailing CRs and LFs, which does not end in CR or LF |
| LineClient.Drain | fg-haptic.c:744-750 | `fgfsflush` consumes reads until the first one that yields nothing, and consumes that one too |
| LineClient.FramedLineRoundTrip | haptic.c:533-590 | a line written by `fgfswrite` and received in one chunk by `fgfsread` comes back unchanged |
| LineClient.TerminatedLineRoundTrip | fg-haptic.c:705-740 | a NUL-free line followed by any run of CR/LF is received as exactly that line |
| LineClient.TrimAppended | fg-haptic.c:730-736 | trimming recovers a text from the text plus any run of terminators |
| LineClient.BlankLineEndsDrain | haptic.c:595-601 | a blank CR LF line reads as nothing, so a flush stops right after it |
| Protocol.LastSet | fg-haptic.c:184-230 | what a peer that stores every `set` holds for a path is the value of some `set` of it that was sent, and nothing if none was sent |
| Protocol.LastSetAppend | fg-haptic.c:184-230 | the later of two command runs wins for every path it sets; other paths keep what the earlier run set |
| Hardware.Reload | fg-haptic.c:362-368 | `reload_effect` does nothing for a device that is not open; otherwise it updates the effect in place, then runs it exactly when asked |
| Hardware.CallsOn | fg-haptic.c:502-557 | the calls of a trace made on one device come from that trace and are all on that device |
| Hardware.CallsOnComplete | fg-haptic.c:502-557 | every call of the trace made on that device is among them, so together with `Hardware.CallsOn` a call is among them exactly when it is in the trace and on that device |
| Devices.AddSuffix | fg-haptic.c:141-149 | the duplicate suffix is a space and the digit `'1' + i`. It is appended to a short name; a long name is overwritten at its last two places, keeping its first NAMELEN-2 characters |
| Devices.Disambiguate | fg-haptic.c:139-151 | a name that no earlier device has is kept; a repeated one ends in the suffix of its own index; the name never exceeds NAMELEN and keeps its first NAMELEN-2 characters |
| Devices.CopyName | fg-haptic.c:136-137 | `strncpy` into the name buffer keeps a prefix of the SDL name of at most NAMELEN characters |
| Devices.Enumerate | fg-haptic.c:109-182 | device `i` is initialised from its probe and the names of the devices before it, one device per SDL index |
| Devices.EnumerationFacts | fg-haptic.c:127-177 | every enumerated device is well formed, numbered `i + 1` and open iff SDL opened it, and starts with zero effect ids and zero telemetry. An opened device maps each of its axes to itself and the rest to 0, with gains 1.0, 0.1, 1.0 and 1.0, period 100, autocenter 0 and direction 0. A failed one is a blank device with its number |
| Devices.InitDeviceFacts | fg-haptic.c:127-177 | one iteration of the enumeration loop yields an initialised device: numbered `i + 1`, open iff SDL opened it, with zero ids and telemetry and, when open, the default mappings and gains |
| Devices.OpenedName | fg-haptic.c:135-151 | an opened device's name is its copied SDL name, disambiguated against the names of the devices before it |
| Devices.EarlierNames | fg-haptic.c:139-151 | a name is among the earlier names exactly when some device before `i` has it |
| Devices.SuffixKeepsStem | fg-haptic.c:141-149 | adding the duplicate suffix keeps the first NAMELEN-2 characters of the name |
| Devices.EnumeratedNames | fg-haptic.c:135-151 | an opened device keeps its copied SDL name unless an earlier device has that name, in which case its name ends in its own suffix |
| Devices.SuffixMayCollide | fg-haptic.c:139-151 | devices named "B 3", "B", "B" end up with the first and third both named "B 3": the suffix is checked against earlier names only and not against the names it creates |
| Devices.CollidingSteps | fg-haptic.c:139-151 | in the colliding example, "B 3" and the first "B" keep their names, and the second "B" becomes "B 3" |
| Devices.Names | fg-haptic.c:140-141 | the names the new name is compared against: device `k`'s name at position `k`, one per device |
| Devices.NamesOfPrefix | fg-haptic.c:140-141 | the names of a longer prefix extend those of the shorter one |
| Telemetry.Separated | fg-haptic.c:383 | the `|`-separated format has one conversion per requested kind, in order |
| Telemetry.Numbers | fg-haptic.c:383-386 | a sample flattens to the eight numbers of the telemetry line, of kinds `%d`, six `%f`, `%d` |
| Telemetry.SampleOf | fg-haptic.c:383-386 | eight numbers of the right kinds rebuild the sample they flatten to |
| Telemetry.SampleKinds | fg-haptic.c:383-386 | the first and last telemetry fields are integers, the six between are reals |
| Telemetry.Decode | fg-haptic.c:383-391 | a line decodes exactly when `sscanf` converts all eight fields, and then to the sample those fields spell |
| Telemetry.ReadFg | fg-haptic.c:371-399 | a timed-out read or an incomplete line changes nothing. A complete line replaces device 0's telemetry, if there is a device 0, and raises the reconfiguration request iff its first field is 1; no other device changes and a raised request is never lowered |
| Telemetry.ReadFgAsWritten | fg-haptic.c:383-396 | as written, a complete line is copied into device 0 even when there is no device, a write past the array; in every other case the read is `ReadFg` |
| Telemetry.ReadFgOnlyParams | fg-haptic.c:371-399 | a telemetry read changes no device's state except its telemetry |
| Telemetry.ScanOneBack | fg-haptic.c:383 | a rendered number followed by a separator or the end scans back to itself and consumes exactly its own text |
| Telemetry.ScanLast | fg-haptic.c:383 | the last number of a line, followed by the end or a separator, scans back as itself alone |
| Telemetry.ScanStep | fg-haptic.c:383 | a number followed by a separator scans back as itself, and the scan continues after the separator with the rest of the format |
| Telemetry.ScanSeparator | fg-haptic.c:383 | the `|` of the format consumes the `|` of the input and nothing else |
| Telemetry.ScanJoined | fg-haptic.c:383 | numbers rendered and joined with `|` scan back to the same numbers |
| Telemetry.DecodeEncode | fg-haptic.c:383-391 | encoding a sample as a telemetry line and decoding it gives the sample back |
| Telemetry.TelemetryRoundTrip | fg-haptic.c:371-399 | a sample sent as a line with any terminators lands in device 0 and nowhere else, and its reconf field raises the request |
| Telemetry.NoDeviceLine | fg-haptic.c:383-396 | with no device, a whole sample line makes the code as written write past the device array, while the corrected read only raises the request the line carries |
| ConfigPush.MappingLinesSet | fg-haptic.c:202-208 | the mapping lines set pilot and stick-force axis `a` of device `i` to its mapping for each axis from `x` to the device's axis count, and nothing else |
| ConfigPush.InfoSets | fg-haptic.c:193-198 | the identification lines set the number, name, capabilities, axes and effect counts of device `i` and nothing else |
| ConfigPush.ConstantSets | fg-haptic.c:200-211 | a device with constant force announces its mappings and both gains; one without announces none of them |
| ConfigPush.ShakerSets | fg-haptic.c:213-220 | a device with sine announces the shaker settings and trigger 0; one without announces none of them |
| ConfigPush.BlockSets | fg-haptic.c:190-228 | the block of device `i` sets exactly `SentValue` for every property of device `i` and nothing for any other path |
| ConfigPush.BlocksSet | fg-haptic.c:189-229 | after the blocks of devices `k` onward, every property of such a device holds what its own block sent |
| ConfigPush.SendDevicesSets | fg-haptic.c:184-230 | `send_devices` starts by clearing `/haptic/reconfigure`. Afterwards a storing peer holds 0 there, and for each device exactly the values its block announced |
| ConfigPush.ShakerLinesEndWithTrigger | fg-haptic.c:213-220 | the trigger is reset iff the device has sine, and then as the last of the four consecutive shaker lines |
| ConfigPush.TriggerSentIffSine | fg-haptic.c:213-220 | `send_devices` resets a device's shaker trigger to 0 exactly when the device has sine |
| ConfigPush.BlockParts | fg-haptic.c:190-228 | for any path, the last `set` in a device's block comes from the last of its five line groups that sets that path: autocenter, gain, shaker, constant force, identification |
| ConfigPush.BlocksInOrder | fg-haptic.c:189-229 | every line after the reconfigure reset is a `set` of a device property, grouped by device in ascending order |
| ConfigPush.BlockShape | fg-haptic.c:190-228 | every line of a device's block sets a property of that device |
| ConfigPush.MappingShape | fg-haptic.c:202-208 | every mapping line sets a property of its own device |
| ConfigPull.SChar | fg-haptic.c:257-261 | storing an int in a `signed char` mapping keeps it when in range and always gives a value in [-128, 127] |
| ConfigPull.Trunc | fg-haptic.c:272-275 | storing a float into the integer shaker fields truncates toward zero |
| ConfigPull.ConfigField | fg-haptic.c:232-290 | exactly the configuration properties have a field in the device record |
| ConfigPull.Parsed | fg-haptic.c:244-278 | only a configuration property can be parsed into a field |
| ConfigPull.Store | fg-haptic.c:244-278 | storing a reply changes the one queried field, to its answer, and leaves every other field alone |
| ConfigPull.Queries | fg-haptic.c:243-278 | a device is asked 7 fixed properties plus two per axis |
| ConfigPull.AxisQueries | fg-haptic.c:253-262 | the axis queries alternate pilot and stick-force, axis by axis |
| ConfigPull.QueriesDistinct | fg-haptic.c:243-278 | no property is asked twice, and every one asked is a configuration field |
| ConfigPull.ReadConfig | fg-haptic.c:243-278 | each queried field holds the answer to its own reply; every field not queried is unchanged |
| ConfigPull.Poll | fg-haptic.c:281-286 | the reconfigure poll repeats while the reply reads as 1, and stops at the first reply that does not |
| ConfigPull.GetsFor | fg-haptic.c:245-277 | the `get` lines of a device, one per query in order |
| ConfigPull.ReadFrom | fg-haptic.c:240-279 | the device loop from device `k` on yields one configured device per device it visits |
| ConfigPull.ReadFromWindow | fg-haptic.c:240-279 | device `i` reads its configuration from its own window of replies: those after the ones the devices before it consumed |
| ConfigPull.ReadFromWindows | fg-haptic.c:240-279 | every device of `read_devices` is configured from its own window of replies, which starts after the replies the devices before it consumed |
| ConfigPull.ReadFromUsed | fg-haptic.c:240-279 | the devices consume exactly as many replies as they ask queries |
| ConfigPull.ReadDevices | fg-haptic.c:232-290 | `read_devices` first flushes the telnet channel. Device `i` then reads its configuration from the replies past the flush and past those the devices before it consumed, and nothing else of the device changes. The lines sent are every device's `get`s in order, then `set /haptic/reconfigure 0`, then one `get /haptic/reconfigure` per poll. The replies consumed are the flush's, one per query and one per poll |
| ConfigPull.Flush | fg-haptic.c:744-750 | `fgfsflush` over a reply stream consumes every present reply before the first missing one, and that one too |
| ConfigPull.FlushIsDrain | fg-haptic.c:705-750 | flushing the replies the raw reads produce consumes as many reads as `LineClient.Drain` does, and one more than all of them when none reads as nothing |
| ConfigPull.FlushStale | fg-haptic.c:238 | stale lines waiting ahead of an empty read are all discarded by the opening flush, together with that read |
| ConfigPull.ReadFromCommands | fg-haptic.c:240-279 | the device loop sends exactly the `get` lines of every device's query list, device after device |
| ConfigPull.AfterFlush | fg-haptic.c:238-279 | after a flush of any length, each device reads from its own window past the flush, the loop consumes one reply per query, and it sends every device's `get` lines |
| ConfigPull.ReadDevicesAsWritten | fg-haptic.c:246 | the code as written fails (hands NULL to `sscanf`) exactly when a reply it parses after the opening flush is missing, and otherwise agrees with the corrected reading |
| ConfigRoundTrip.SendDevicesPushed | fg-haptic.c:184-230 | what `send_devices` writes is a push of every device's configuration |
| ConfigRoundTrip.EchoQueries | fg-haptic.c:245-277 | a storing simulator answers each query of a device with what was last set at that path |
| ConfigRoundTrip.ConfigExtensional | fg-haptic.c:232-290 | two configurations agreeing on every field are equal |
| ConfigRoundTrip.FieldRoundTrip | fg-haptic.c:184-290 | a pushed field read back through a faithful printer and scanner gives its value again, except shaker direction and period, which `%f` cannot print from an integer |
| ConfigRoundTrip.PulledField | fg-haptic.c:184-290 | after a push, each pulled field of a well-formed device equals the device's own, for every field `%f` could print |
| ConfigRoundTrip.DeviceRoundTrip | fg-haptic.c:184-290 | push then pull restores a device's whole configuration except shaker direction and period, and all of it for a device without sine |
| ConfigRoundTrip.ReadConfigIgnoresLater | fg-haptic.c:243-278 | replies beyond a device's queries do not affect its configuration |
| ConfigRoundTrip.EchoLength | fg-haptic.c:240-279 | the echoed replies number exactly the queries asked |
| ConfigRoundTrip.EchoWindow | fg-haptic.c:240-279 | skipping the replies of the devices before `i` leaves exactly the echoes for `i` onward |
| ConfigRoundTrip.ReadEchoed | fg-haptic.c:240-279 | device `i` of a pull against an echoing simulator gets exactly the configuration pulled from its own echoed window |
| ConfigRoundTrip.PushPullRoundTrip | fg-haptic.c:184-290 | `send_devices` then `read_devices` against a storing simulator, with any stale lines waiting ahead of an empty read, consumes the stale lines, the empty read, every echo and one reconfigure reply, and restores every device up to the unprintable shaker fields |
| ConfigRoundTrip.UnsetGainCrashesPull | fg-haptic.c:222-246 | the gain of a device without the gain capability is never set, so as written its gain query hands NULL to `sscanf`; the corrected pull keeps the gain |
| Effects.Planned | fg-haptic.c:307-357 | the slots uploaded are the shaker iff sine and a positive shaker gain, and both constant slots iff constant force; all are valid slots |
| Effects.NewCalls | fg-haptic.c:321-352 | one upload per planned slot, in order, each with the effect type of its slot |
| Effects.Destroys | fg-haptic.c:298-301 | the reset destroys effect ids 0 up to the device's effect count, in order |
| Effects.Cleared | fg-haptic.c:298-301 | the reset marks the first `n` slots empty (-1) and keeps the rest |
| Effects.FirstFailure | fg-haptic.c:321-355 | the index of the first upload that fails, or the number of uploads if none does |
| Effects.Installed | fg-haptic.c:321-352 | each planned slot holds the id its upload returned; other slots keep theirs |
| Effects.FailedCallsEnd | fg-haptic.c:321-355 | when upload `f` fails, the device's calls are its destroys and its uploads up to that one: all on the device, and ending in the refused upload |
| Effects.ResetSlots | fg-haptic.c:297-300 | the reset marks absent the slots below the hardware's effect count, never more than the nine slots there are |
| Effects.Overrun | fg-haptic.c:297-300 | the reset as written runs past the nine slots exactly when the count exceeds nine, by the excess |
| Effects.ResetAsWritten | fg-haptic.c:297-300 | as written, the reset leaves the parameters alone iff the count is at most nine. Above nine it overwrites float parameters, and above fifteen it sets the shaker trigger to -1 |
| Effects.ResetOverrun | fg-haptic.c:297-300 | an open device reporting sixteen effects has all six float parameters spoiled and its trigger set to -1 by the reset as written. The corrected rebuild keeps its zero parameters |
| Effects.Rebuilt | fg-haptic.c:295-357 | each planned slot holds the id its upload returned and each other reset slot is empty (-1). Slots beyond the reset keep their ids, both levels are 0x1000 with constant force and 0 without, and nothing else of the device changes, its parameters included, whatever effect count the hardware reports |
| Effects.CreateFor | fg-haptic.c:295-357 | the per-device step fails iff an upload fails. Its trace is the reset followed by the uploads up to and including the failing one, ending in that failed upload, all on its own device. On success it is the reset and every upload, and the device is rebuilt |
| Effects.FirstFailureFails | fg-haptic.c:321-355 | the first refused upload lies among the planned ones exactly when the device has one refused |
| Effects.MadeCallsOn | fg-haptic.c:298-352 | the destroys and uploads of a device are all made on that device |
| Effects.PlannedSucceeds | fg-haptic.c:321-355 | when no upload of a device is refused, every planned upload returns a valid id |
| Effects.RebuiltIdsValid | fg-haptic.c:321-355 | when no upload is refused, every planned slot of the rebuilt device holds a valid id |
| Effects.Steps | fg-haptic.c:295-357 | the device loop takes one step per device, each the per-device step of that device |
| Effects.StepsFail | fg-haptic.c:321-355 | some step fails exactly when some device has an upload refused |
| Effects.StepsOutcomes | fg-haptic.c:295-357 | a completed step holds its rebuilt device; a failed step's trace ends in the refused upload |
| Effects.ChainAborts | fg-haptic.c:293-359 | the device loop aborts exactly when one of the remaining steps failed |
| Effects.ChainDevices | fg-haptic.c:293-359 | a completed device loop holds the device of every remaining step, in order, and every such step completed |
| Effects.ChainEnds | fg-haptic.c:293-359 | an aborted device loop ends with the last call of a failed step, so with a refused upload |
| Effects.FirstFailed | fg-haptic.c:293-359 | the first failed step from `k` on: every step before it completed, and it failed unless it is past the end |
| Effects.ChainCalls | fg-haptic.c:293-359 | a completed device loop made the calls of every remaining step, in order. An aborted one made the calls of the steps before the first failed one, then that step's calls |
| Effects.FirstFailedDevice | fg-haptic.c:321-355 | the first failed step belongs to the first device with an upload refused, and no device before it has one refused |
| Effects.CreateEffects | fg-haptic.c:293-359 | `create_effects` aborts iff some device has an upload refused. Then its trace is the calls of every device before the first such device, followed by that device's destroys and uploads up to the refused one, which ends the trace. Otherwise every device is rebuilt, in order, and the trace is every device's destroys and uploads, device after device |
| Effects.LiveSlots | fg-haptic.c:307-357 | with the reset covering the three slots, both constant slots are live iff constant force is wanted, and the shaker slot iff the shaker is |
| Effects.StaleShakerSlot | fg-haptic.c:298-308 | a sine device reporting only two effects, with zero shaker gain, keeps a stale shaker id: the reset clears only the first two slots and no upload replaces it |
| Effects.RebuiltIdempotent | fg-haptic.c:293-359 | rebuilding a rebuilt device changes nothing |
| Effects.RebuiltKeepsPlan | fg-haptic.c:295-357 | a rebuild keeps the plan, the reset count and whether an upload is refused, which decide the next rebuild |
| Effects.RebuiltIdsStable | fg-haptic.c:295-357 | a second rebuild gives every slot the same id as the first |
| Effects.StepIdempotent | fg-haptic.c:295-357 | the per-device step issues the same calls and result on a rebuilt device as on the original |
| Effects.CreateIdempotent | fg-haptic.c:577-582 | running `create_effects` again on its own successful result gives the same result, so a repeated reconfiguration is stable |
| Force.Clamp | fg-haptic.c:100 | `CLAMP` gives the upper bound above it, the lower bound below it and the value inside, always within the bounds |
| Force.Scaled | fg-haptic.c:535-537 | a force becomes a level proportional to it inside [-1, 1] and saturated at ±32760 outside |
| Force.Level | fg-haptic.c:515-541 | an axis's level lies within ±32760, so it fits a `signed short`. It is proportional to the mapped stick plus pilot force inside [-1, 1] and saturated outside |
| Force.Contribution | fg-haptic.c:519-533 | a mapping that names no telemetry axis, negative or above 2, adds nothing; one that names an axis adds that axis's value times the gain |
| Force.ContributionAsWritten | fg-haptic.c:519-533 | as written, only a negative mapping is skipped, so a mapping above 2 reads past the telemetry triple; every other mapping adds what `Contribution` adds |
| Force.MappingPastTriple | fg-haptic.c:519-533 | a mapping of 3 reads past the triple as written and adds nothing once ignored |
| Force.UnmappedAxisIsIdle | fg-haptic.c:519-533 | an axis whose two mappings name no telemetry axis gets no force |
| Force.ZeroTelemetryIsIdle | fg-haptic.c:515-537 | all-zero telemetry gives no force on any axis |
| Force.ScaledMonotone | fg-haptic.c:535-537 | a larger force never gives a smaller level |
| Force.Negated | fg-haptic.c:515-533 | negated telemetry negates every stick and pilot value and keeps the trigger |
| Force.LevelOdd | fg-haptic.c:515-537 | reversed telemetry reverses every force level |
| Force.LevelMonotoneInStick | fg-haptic.c:519-537 | with a non-negative stick gain, a stronger stick force on the mapped axis never weakens the level |
| ControlLoop.DriveDevice | fg-haptic.c:502-557 | a closed device is untouched. An open one with both constant ids valid gets both levels from the force composition and an update-and-run of CONST_X then CONST_Y. The shaker is updated and run last exactly on a rising trigger with a valid shaker id. Nothing else changes |
| ControlLoop.Triggers | fg-haptic.c:494-496 | the backed-up triggers are the devices' current ones |
| ControlLoop.DriveFrom | fg-haptic.c:502-575 | each device from `k` on is driven on its own, its calls on itself |
| ControlLoop.DriveFromKeeps | fg-haptic.c:502-557 | driving the devices changes only their two constant-force levels |
| ControlLoop.DriveFromCalls | fg-haptic.c:502-575 | the calls of device `i` in the pass are exactly its own drive's calls |
| ControlLoop.PassOf | fg-haptic.c:494-575 | one pass reads telemetry and drives every device against its previous trigger; each device ends with the telemetry just read |
| ControlLoop.ReadKeepsCreatable | fg-haptic.c:371-399 | a telemetry read keeps the device count and every device's nine slots |
| ControlLoop.PassKeepsCreatable | fg-haptic.c:494-582 | a pass leaves every device in a state `create_effects` can work on |
| ControlLoop.PulledEntries | fg-haptic.c:577-582 | the pulled entries differ from the old ones only in their configuration, so `create_effects` can work on every one of them |
| ControlLoop.ServiceRequest | fg-haptic.c:577-582 | servicing a request sends `read_devices`' commands. It stops iff an upload fails for the reconfigured devices; otherwise it clears the request and each device gets its pulled configuration, keeping everything but its effects and levels |
| ControlLoop.After | fg-haptic.c:489-583 | the pass's calls precede those of the servicing, whose outcome and commands carry over |
| ControlLoop.Tick | fg-haptic.c:489-583 | a loop iteration starts with the pass's calls. Without a request it is just the pass. It stops only when a request was raised, and when it runs on it leaves no request pending, keeps the telemetry just read and leaves every device with its nine slots |
| ControlLoop.PassCalls | fg-haptic.c:502-557 | device `i`'s share of a pass is its own drive against its previous trigger |
| ControlLoop.HeldTriggerDoesNotRefire | fg-haptic.c:552-557 | while the trigger stays held the shaker is not fired again; only the constant effects are reloaded |
| ControlLoop.RisingTriggerFires | fg-haptic.c:552-557 | a trigger rising on an open sine device with a valid shaker ends its calls with the shaker's update and run |
| ControlLoop.PressFiresOnce | fg-haptic.c:489-557 | a trigger that fired in one iteration does not fire in the next |
| ControlLoop.EnumeratedQuiet | fg-haptic.c:122-124 | right after enumeration every device but the first has zero telemetry |
| ControlLoop.TickKeepsOthersQuiet | fg-haptic.c:396 | since telemetry only ever reaches device 0, an iteration keeps the others' telemetry zero |
| ControlLoop.QuietDeviceIsIdle | fg-haptic.c:515-548 | a device other than the first holds zero force levels and issues at most the four constant calls |
| ControlLoop.ReconfLineIsServiced | fg-haptic.c:398-580 | a telemetry line whose reconf field is 1 raises the request, the same iteration clears `/haptic/reconfigure`, and it leaves no request pending |
| PollingBridge.PollName | haptic.c:133-134 | the name is the SDL name cut to NAMELEN-1 characters |
| PollingBridge.PollInit | haptic.c:125-180 | device `i` is numbered `i` (not `i + 1`) and open iff SDL opened it; it takes SDL's name, capabilities and axes. A failed one is blank; telemetry and the two effect ids start at zero |
| PollingBridge.PollEnumerate | haptic.c:107-184 | one device per SDL index, each initialised from its own probe |
| PollingBridge.PollStore | haptic.c:247-297 | a reply sets the polled field to its `atof` value; a missing reply leaves it; nothing else changes, the trigger included |
| PollingBridge.AxisPairsAt | haptic.c:249-258 | the axis polls alternate pilot and surface-force, axis by axis |
| PollingBridge.AxisPairsHas | haptic.c:249-258 | the axis polls are exactly the pilot and surface-force of the axes below the count |
| PollingBridge.ConstantBlock | haptic.c:247-266 | the constant-force polls all belong to the first group |
| PollingBridge.JoinBlocks | haptic.c:241-299 | joining duplicate-free groups of queries keeps them duplicate-free |
| PollingBridge.PollQueriesDistinct | haptic.c:241-299 | no parameter is polled twice, and every one polled has a field |
| PollingBridge.SmallBlocks | haptic.c:268-297 | the shaker, autocenter and gain polls each belong to their own group |
| PollingBridge.PollQueriesPolled | haptic.c:241-299 | a property is polled exactly when the device's capabilities ask for it |
| PollingBridge.ConstantPolled | haptic.c:247-266 | the constant-force polls are exactly the polled properties of the first group |
| PollingBridge.ReadPoll | haptic.c:247-297 | each polled field takes its reply's `atof` value, or keeps its value when the reply is missing; unpolled fields and the trigger are unchanged |
| PollingBridge.QueryLists | haptic.c:241-299 | the query list of each device is its own `Polled` list |
| ConfigPull.GetsFrom | fg-haptic.c:240-279 | the `get` lines of the devices from `k` on number exactly their queries; the same holds for haptic.c:245-298 |
| ConfigPull.GetsFromAt | fg-haptic.c:240-279 | query `m` of device `i` is the `get` line at offset `m` past the lines of the devices before it; the same holds for haptic.c:245-298 |
| ConfigPull.GetsFromCommand | fg-haptic.c:240-279 | every `get` line asks its device about a property in that device's query list; the same holds for haptic.c:245-298 |
| ConfigPull.GetsFromQueriedAt | fg-haptic.c:240-279 | the lines of the devices before `i` take up exactly the commands before device `i`'s; the same holds for haptic.c:245-298 |
| ConfigPull.OffsetOfWithin | fg-haptic.c:240-279 | a device's window lies within the replies the whole poll consumes; the same holds for haptic.c:245-298 |
| PollingBridge.WindowsFrom | haptic.c:245-298 | the device loop yields one result per device from `k` on |
| PollingBridge.WindowsFromAt | haptic.c:245-298 | device `i` is read from the replies left after the devices before it took one reply per query |
| PollingBridge.PollGets | haptic.c:245-298 | the poll writes one `get` line per query of every device |
| PollingBridge.PolledParams | haptic.c:241-299 | `read_fg` reads one parameter set per device |
| PollingBridge.PollReadFg | haptic.c:241-299 | `read_fg` gives each device the parameters read from its own window, and sends its queries at the matching positions |
| PollingBridge.PollFromWindows | haptic.c:245-298 | every device reads from its own window |
| PollingBridge.PollFromAllQueries | haptic.c:245-298 | every device's queries sit at its window's positions |
| PollingBridge.PollFromQueriedAt | haptic.c:245-298 | device `i`'s `get` lines start at its offset |
| PollingBridge.TriggerNeverRead | haptic.c:241-299 | the shaker trigger is never polled: no command asks for it and every trigger keeps its value |
| PollingBridge.PollCommandAt | haptic.c:245-298 | every command of the poll is a `get` of a polled property of one of the devices |
| PollingBridge.ZeroAxisLinesSet | haptic.c:155-159 | the axis lines announce 0 for pilot and surface-force on every axis up to the axis count, and nothing else |
| PollingBridge.InfoSets | haptic.c:145-149 | the identification lines announce name, capabilities, axes and effect counts and nothing else |
| PollingBridge.ConstantSets | haptic.c:152-162 | a constant-force device announces zero axes and gains 0.5; another announces none of them |
| PollingBridge.ShakerSets | haptic.c:164-171 | a sine device announces direction 90, period 50, gain 1 and trigger 0; another announces none of them |
| PollingBridge.AnnounceSets | haptic.c:143-175 | an opened device's announcement leaves exactly its `Announced` value at each of its own paths and nothing at any other path; a device that did not open announces nothing |
| PollingBridge.AnnounceParts | haptic.c:143-175 | for any path, the last `set` in an opened device's announcement comes from the last of its five line groups that sets that path |
| PollingBridge.AnnounceFromSets | haptic.c:125-180 | after all announcements each opened device holds its own announced values |
| PollingBridge.AnnouncedReadsBack | haptic.c:143-174 | every polled parameter is announced, and its announced text reads back as its default |
| PollingBridge.EchoPollsAt | haptic.c:245-298 | against a storing simulator, reply `m` of device `i`'s window echoes what was last set for its query `m` |
| PollingBridge.EchoLists | haptic.c:245-298 | a storing simulator answers the devices from `k` on with one reply per query |
| PollingBridge.EchoListsAt | haptic.c:245-298 | the reply to query `m` of device `i` sits at offset `m` past the replies of the devices before it, and echoes what was last set for that query |
| PollingBridge.EchoedAnnouncement | haptic.c:143-298 | reply `m` of an opened device's window is the text of what it announced for its query `m` |
| PollingBridge.QueryIndex | haptic.c:241-299 | every polled property sits at some index of its device's query list |
| PollingBridge.WindowField | haptic.c:247-297 | query `m` of a device takes the `atof` value of reply `m` of its window, or keeps its value when that reply is missing |
| PollingBridge.WindowReadsDefault | haptic.c:143-298 | a window whose reply `m` is the announced text of query `m` reads that query back as its default |
| PollingBridge.PolledReadsDefault | haptic.c:143-298 | each polled parameter of an announced device reads back as its default |
| PollingBridge.FirstPollReadsDefaults | haptic.c:107-362 | after `init_haptic`, the first `read_fg` against a storing simulator reads every polled parameter back as its announced default. Everything unpolled stays zero, the trigger included |
| PollingLoop.CreateOne | haptic.c:189-232 | the constant upload is attempted iff constant force, and the sine upload iff sine unless the constant one failed. The step fails iff an attempted upload fails, ending in that upload. On success only the two ids change, each to its upload or its old value |
| PollingLoop.CreateFrom | haptic.c:189-237 | creation from `k` on aborts iff some later device fails; otherwise each device is created on its own |
| PollingLoop.CreatePollEffects | haptic.c:187-239 | `create_effects` aborts iff some device's upload fails; otherwise each device gets its uploaded ids |
| PollingLoop.CreatedEffectsAreValid | haptic.c:187-239 | after a successful creation every supported effect has a valid id |
| PollingLoop.StartCalls | haptic.c:364-370 | start-up makes one call per supported capability among autocenter, gain, constant and sine, all on the device, in that order: it sets autocenter and gain (×100) iff supported, runs the constant effect right after them when supported, and runs the sine effect last when supported. Every run is of the constant or the sine effect |
| PollingLoop.StartRunsUploaded | haptic.c:352-370 | after a completed `create_effects`, every effect the start-up pass runs is one whose upload succeeded, under the identifier the hardware handed back for it |
| PollingLoop.ConstantRebuild | haptic.c:391-412 | a changed constant-force parameter destroys, re-uploads and runs the effect: three calls, the run on the fresh upload |
| PollingLoop.ShakerRebuild | haptic.c:415-426 | a changed shaker parameter destroys and re-uploads the shaker without running it |
| PollingLoop.Settings | haptic.c:434-435 | autocenter and gain (×100) are re-applied iff supported and changed |
| PollingLoop.DrivenIds | haptic.c:391-426 | each effect id becomes its fresh upload when rebuilt and is kept otherwise |
| PollingLoop.PollDrive | haptic.c:386-436 | driving never aborts and changes only the effect ids, each to its upload when rebuilt |
| PollingLoop.PollDriveCalls | haptic.c:386-436 | one call per action, so nothing is called iff nothing changed. A constant rebuild begins with destroy, upload, run of the fresh id. Every run is that fresh id or the fired shaker. Autocenter and gain are set iff reset, all on the device |
| PollingLoop.PollDriveParts | haptic.c:386-436 | the loop body calls the constant rebuild, the shaker rebuild, the shaker run when it fires, and the settings, in that order |
| PollingLoop.PollDriveCount | haptic.c:386-436 | the body makes three calls per constant rebuild, two per shaker rebuild and one per other action. It calls nothing iff it does nothing, and a constant rebuild begins with destroy, upload, run |
| PollingLoop.PollDriveRuns | haptic.c:386-436 | every call of the body is on its device, and every run is of the fresh constant upload or the firing shaker |
| PollingLoop.PollDriveSettings | haptic.c:434-435 | autocenter and gain (×100) are set iff they are re-applied |
| PollingLoop.SteadyParamsAreQuiet | haptic.c:386-436 | unchanged parameters issue no calls and change nothing |
| PollingLoop.FailedRebuildIsRun | haptic.c:408-409 | a failed constant re-upload is still run and its negative id stored |
| PollingLoop.DriveFrom | haptic.c:386-436 | each device from `k` on is driven on its own, keeping two ids |
| PollingLoop.DriveFromCalls | haptic.c:386-436 | device `j`'s calls in the pass are exactly its own drive's |
| PollingLoop.Fed | haptic.c:382 | each device takes its newly read parameters |
| PollingLoop.Olds | haptic.c:376-378 | the backup holds every device's parameters |
| PollingLoop.PollTick | haptic.c:374-436 | an iteration polls, then drives each device with its new parameters against its backup |
| PollingLoop.TickCalls | haptic.c:374-436 | device `j`'s calls in an iteration are exactly its drive's calls |
| PollingLoop.LoopNeverFiresShaker | haptic.c:241-431 | because the trigger is never polled, the loop never fires the shaker: every run is a constant-force rebuild's fresh id, stored in its slot |
| PollingLoop.UnchangedPollIsQuiet | haptic.c:374-436 | an iteration whose poll brings nothing new issues no calls and changes no device |
| KeyboardTest.TestInitDevice | test-haptic.c:144-186 | device `i` is numbered `i + 1`, open iff SDL opened it, with SDL's capabilities and axes, nine effect ids and zero telemetry; a failed one is blank |
| KeyboardTest.TestNames | test-haptic.c:157-158 | the names the new name is compared against: device `k`'s name at position `k`, one per device |
| KeyboardTest.TestEnumerate | test-haptic.c:126-191 | device `i` is initialised from its probe and the names of the devices before it |
| KeyboardTest.InitCalls | test-haptic.c:177 | gain is set to 100 on exactly the devices SDL opened |
| KeyboardTest.TestNamesOfPrefix | test-haptic.c:157-158 | the names of a longer prefix extend those of the shorter one |
| KeyboardTest.NameAgrees | test-haptic.c:152-168 | the same earlier names give the same name in both programs |
| KeyboardTest.InitNamesAgree | test-haptic.c:152-168 | the keyboard harness names a device exactly as fg-haptic.c does |
| KeyboardTest.NamesAgree | test-haptic.c:144-168 | both enumerations name every prefix of devices alike |
| KeyboardTest.EnumerationMatchesBridge | test-haptic.c:126-191 | the harness enumerates exactly like fg-haptic.c: same numbers, open flags, names, capabilities, axes, counts and effect ids |
| KeyboardTest.TestCreateOne | test-haptic.c:196-270 | the shaker is uploaded into its slot iff sine, then a spring into CONST_X iff constant force unless the shaker failed. Neither CONST_Y nor a constant force is ever uploaded. The step fails iff an attempted upload fails; on success only those slots change |
| KeyboardTest.TestCreateFrom | test-haptic.c:194-273 | creation aborts iff some later device fails; otherwise each device is created on its own |
| KeyboardTest.TestEnumeratedBlank | test-haptic.c:141 | every enumerated device starts with zero effect ids and zero telemetry |
| KeyboardTest.SpringSlotKept | test-haptic.c:196-270 | a device without constant force keeps its CONST_X id through creation |
| KeyboardTest.UnsupportedSpringSlotKeepsZero | test-haptic.c:141-270 | after enumeration and creation, a device without constant force holds id 0 in CONST_X, which the loop then reloads |
| KeyboardTest.KeyReadFg | test-haptic.c:306-319 | `q` quits; `1` arms the trigger, any other key leaves it. Device 0's telemetry, if there is a device 0, is zeroed and no other device changes |
| KeyboardTest.KeyReadFgAsWritten | test-haptic.c:313-318 | as written, any key but `q` zeroes device 0 even when there is no device, a write past the array; otherwise the read is `KeyReadFg` |
| KeyboardTest.NoDeviceKey | test-haptic.c:313-318 | with no device, the key `1` makes the code as written write past the array, while the corrected read only arms the trigger |
| KeyboardTest.ReadKeepsShape | test-haptic.c:306-319 | a key other than `q` keeps every device's open flag and effect ids |
| KeyboardTest.KeyDriveFrom | test-haptic.c:388-423 | the pending trigger survives the pass iff no open device is reached; otherwise it is consumed |
| KeyboardTest.KeyDriveCalls | test-haptic.c:388-423 | device `j`'s calls in the pass are those of its own turn |
| KeyboardTest.KeyDriveOwn | test-haptic.c:388-423 | an open device updates and runs CONST_X, then the shaker when the trigger is pending |
| KeyboardTest.KeyDrivePast | test-haptic.c:388-423 | after an open device the loop goes on with the trigger spent, so later devices make the calls of the rest of the loop |
| KeyboardTest.KeyCallsShaker | test-haptic.c:388-423 | a device updates its shaker exactly when it is open and either the trigger reaches it with no open device before it, or its shaker id equals its CONST_X id |
| KeyboardTest.KeyTickOf | test-haptic.c:379-423 | an iteration quits iff the key is `q`; otherwise the devices are those `read_fg` left |
| KeyboardTest.TriggerFiresOnce | test-haptic.c:379-423 | the trigger fires on the first open device only, and is then cleared. A device's shaker is updated iff it is that device, or its CONST_X id equals its shaker id |
| KeyboardTest.SpringReloadedEveryPass | test-haptic.c:389-423 | every open device has CONST_X updated and run first on every pass, with no capability check; a closed one gets no calls |

## Left out

- Sockets, connecting, `select`/`poll` timing and the command line are not modelled. Reads are values: a chunk, or a timeout. A `read()` or `write()` that fails, after which `fgfsread`/`fgfswrite` end the process (fg-haptic.c:697-700, 724-727), is not modelled either: no `ReadEvent` stands for it.
- The printed diagnostics (`printf`, `perror`) are not modelled, nor `HapticPrintSupported`.
- The contents of the SDL effect structures are not modelled: directions, lengths, magnitudes, envelopes, periods. Uploads and updates carry only the slot and effect type. The exception is the constant-force levels of fg-haptic.c (`Force.Level`).
- Force composition in haptic.c (`sqrt` of the summed vector and the direction components) and the `t`/`cos` spring ramp of test-haptic.c are not modelled. Only which calls they lead to is modelled.
- Single-precision floating point is not modelled; arithmetic is exact `real`.
- Force.Level: the level is bounded within ±32760 and stated exactly over the reals. The `(signed short)` truncation of the fraction is not modelled because the value always fits.
- PollingLoop.StartCalls: gain and autocenter are passed as the exact `real` product ×100. The `int` truncation SDL's parameter applies is not modelled.
- ConfigRoundTrip.DeviceRoundTrip: the pushed shaker direction and period are `Unspecified`, because `%f` is handed an `unsigned short`, which C leaves undefined. Their round trip is therefore not claimed.
- ConfigPull.ReadDevices: the closing `fgfsflush(client_sock)` (fg-haptic.c:288) is not modelled. The generic-protocol channel enters the model only as the one `ReadEvent` that `ControlLoop.Tick` is given per pass, so the telemetry that arrives during a reconfiguration, and that this flush discards, never reaches the model. The opening flush of the telnet channel (fg-haptic.c:238) is modelled.
- ConfigRoundTrip.PushPullRoundTrip: the round trip assumes the printing is exact (`Faithful`): what is printed for a value scans back to that very value. C's `%f` keeps six decimals, so a gain of 0.1234567 comes back as 0.123457. The same assumption underlies `ConfigRoundTrip.FieldRoundTrip`, `ConfigRoundTrip.DeviceRoundTrip`, `Telemetry.TelemetryRoundTrip` (`ReadsBack`) and haptic.c's `PollingBridge.FirstPollReadsDefaults` (`AtofReadsBack`). The rounding of six-decimal printing is not modelled.
- LineClient.Receive: one `read()` returns the whole chunk; the bound of MAXMSG-1 bytes per read is not modelled.
- `abort_execution` is modelled as the point where a failed upload stops the run. The cleanup calls it makes (destroying effects, closing devices, `quit`) are not modelled.
- Effects.CreateEffects: the id an upload returns depends only on device and slot. Re-uploads in a later reconfiguration are assumed to return the same id, which `Effects.CreateIdempotent` relies on.
- Code under `#if 0`, the commented-out calls and the `deviceHacks` of test-haptic.c are not modelled, since none of them are compiled.
- The time-based `SDL_Delay` at the end of haptic.c's `main` and the freeing of memory are not modelled.

## Findings

| source | as written | input that shows it | evidently intended | confidence | as-written member | corrected member |
|---|---|---|---|---|---|---|
| fg-haptic.c:246 | `read_devices` passes `fgfsread`'s result straight to `sscanf`. A read that times out yields NULL, which `sscanf` must not be given. `send_devices` never sets `/haptic/device[i]/gain` for a device without the gain capability, so a storing simulator has no answer for that query | one device without `SDL_HAPTIC_GAIN`, reconfigured against a simulator that only answers what was set | a missing reply should leave the field unchanged, as every other failed read does | not executed | ConfigRoundTrip.UnsetGainCrashesPull | ConfigPull.ReadDevices |
| fg-haptic.c:297-300 | the reset loop sets `effectId[x] = -1` for every `x` below `SDL_HapticNumEffects`, but the entry has nine slots. The words that follow `effectId[8]` are the entry's `params`: six floats, then the shaker trigger | an open device reporting sixteen effects (`Effects.ResetOverrun`): all six floats become NaN and the trigger -1, so a device other than the first is no longer quiet | destroy every effect the hardware holds, but mark absent only the nine slots there are | not executed | Effects.ResetAsWritten | Effects.Rebuilt |
| fg-haptic.c:519-533 | a mapping is tested only for `>= 0` before it indexes the three-float `stick` or `pilot` array. `read_devices` (fg-haptic.c:255-261) stores any scanned `%d` in the `signed char` mapping | the property `/haptic/device[0]/stick-force/x` set to 3 (`Force.MappingPastTriple`): `params.stick[3]` reads past the array | a mapping that names no axis adds nothing, as a negative one does | not executed | Force.ContributionAsWritten | Force.Contribution |
| fg-haptic.c:383-396 | `read_fg` copies a whole sample into `devices[0]` without checking that there is a device. With `SDL_NumHaptics()` at 0, `devices` is a zero-length allocation (fg-haptic.c:114-124); a null one would have stopped the program | no haptic device, and one whole telemetry line (`Telemetry.NoDeviceLine`) | with no device the sample's parameters go nowhere; the request the line carries is still taken | not executed | Telemetry.ReadFgAsWritten | Telemetry.ReadFg |
| test-haptic.c:313-318 | `read_fg` zeroes `devices[0]` on every key but `q` without checking that there is a device. The zero-length allocation is made at test-haptic.c:131-141 | no haptic device, and the key `1` (`KeyboardTest.NoDeviceKey`) | with no device only the trigger changes | not executed | KeyboardTest.KeyReadFgAsWritten | KeyboardTest.KeyReadFg |
