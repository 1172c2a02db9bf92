# GoXLR utility core, modelled in Dafny

This project models three parts of the GoXLR utility. The GoXLR is a USB
audio mixer; the utility drives it and keeps its settings in profile
files.

* **The USB request engine** (`usb/src/device/usb.rs`):
  * `perform_request` keeps a 16-bit command index. It frames a command
    with a 16-byte little-endian header and writes it. It then polls up to
    20 times for a reply. When the reply's index does not match, it
    resyncs once: a `ResetCommandIndex`, then the same command again.
  * `find_devices` and `find_device` pick GoXLR devices out of the USB
    device list.
  * The bus is a scripted device handle: the answers to writes and reads
    are given up front, and every write, read and sleep is recorded in a
    trace. `PerformRequest` is proved equal to a recursive function of the
    session (`Request`). The lemmas about that function cover:
    * the counter and its reset at `u16::MAX`;
    * the frame that goes out first;
    * the bound on writes and reads;
    * the correlation between a result and the last bus event.
* **The hardtune effect** (`profile/src/components/hardtune.rs`):
  * the bounded setters;
  * the style table that `set_style` applies;
  * the `uiIndex`, source-name and state encodings;
  * reading a preset element and writing it back, proved to be a round
    trip.
* **The profile reader** (`profile/src/profile.rs`):
  * the routing of each XML start tag to the component that parses it:
    * one-based `mute`/`scribble` digits;
    * zero-based `FaderMeter` digits;
    * `effects`, the effect roots and their preset tags;
    * sample buttons and their stacks;
    * the simple elements.
  * the open sample button that `sampleStack` tags are handed to;
  * a read error ending the load with `Ok`;
  * `load_preset`'s first-element rule;
  * the `GlobalColour` fallback of `simple_element`;
  * the scribble files of the profile archive, with a save/load round
    trip.

The XML and zip layers are not part of the model. XML arrives as a list of
events. An archive is a map from file name to bytes. The component parsers
that a tag is handed to are recorded as calls, not run.

Where the code and its description disagree, the model follows the code:
* When 20 polls all report "not ready", `perform_request` returns
  `Ok(empty)`, not a timeout error.
* A reply shorter than the 16-byte header is reported as `Pipe`.
* A second index mismatch is reported as `Other`.
* The length field is `body.len() as u16`, so a body longer than 65535
  bytes is written with a truncated length (`UsbFrame.FrameRoundTrip`
  shows both cases).
* `parse_preset` computes `id - 1` on a `u8`. The model takes the release
  build's wrap, so the digit 0 becomes 255, names no preset and gives
  `NoSuchPreset`. A debug build would panic instead.
* A `mute0` or `scribble0` tag panics in either build: a debug build on the
  `u8` subtraction `id - 1`, a release build on `unwrap()` of `None` after
  the wrap. The model records both as the `Panic` error.
* The profile reader stores preset values without the setters' range
  checks. `HardTune.ReadSkipsSetterChecks` shows an amount of 150 being
  read.

## Model

| member | source | states |
|---|---|---|
| UsbFrame.U16RoundTrip | usb/src/device/usb.rs:110-111 | reading back a little-endian u16 gives the value written |
| UsbFrame.U32RoundTrip | usb/src/device/usb.rs:109 | reading back a little-endian u32 gives the value written |
| UsbFrame.FrameDecodes | usb/src/device/usb.rs:108-112 | the header of a frame decodes to the command id, the body length mod 2^16 and the index; bytes 8-15 are zero; the body follows unchanged |
| UsbFrame.FrameRoundTrip | usb/src/device/usb.rs:108-112 | the length field equals the body length exactly when the body fits in 16 bits; id, index and body always round-trip |
| UsbTransport.DeviceHandle.WriteControl | usb/src/device/usb.rs:41-57 | a control write takes the next scripted answer and appends it to the trace |
| UsbTransport.DeviceHandle.ReadControl | usb/src/device/usb.rs:60-79 | a control read takes the next scripted answer, truncated to the buffer size, and appends exactly one event to the trace |
| UsbTransport.DeviceHandle.Sleep | usb/src/device/usb.rs:117-123 | a sleep is recorded in the trace and changes nothing else |
| Usb.Request | usb/src/device/usb.rs:98-106 | a reset request leaves the counter at 0; no request changes the product id |
| Usb.Exchange | usb/src/device/usb.rs:108-126 | an exchange of a reset sent at index 0 leaves the counter at 0; the product id is unchanged |
| Usb.Answer | usb/src/device/usb.rs:157-187 | acting on the poll result keeps a zero counter of a reset at 0 and keeps the product id |
| Usb.Resync | usb/src/device/usb.rs:170-175 | a resync of a reset ends with the counter at 0; the product id is unchanged |
| Usb.Poll | usb/src/device/usb.rs:130-156 | a poll that ends in a reply always has a full 16-byte header |
| Usb.BuildRequest | usb/src/device/usb.rs:108-112 | the request built in a 16-byte buffer is exactly the frame of id, index and body |
| Usb.GoXLRUSB.constructor | usb/src/device/usb.rs:82-95 | a device opened from a descriptor starts with counter 0 and that descriptor's product id |
| Usb.GoXLRUSB.PerformRequest | usb/src/device/usb.rs:98-188 | the result and the new driver state and bus trace are those of `Request` on the old state |
| Usb.GoXLRUSB.SendAndReceive | usb/src/device/usb.rs:107-187 | the send, sleep, poll and answer steps equal `Exchange` on the old state |
| Usb.GoXLRUSB.AwaitResponse | usb/src/device/usb.rs:128-156 | the 20-attempt loop over the handle equals `Poll` from attempt 0 |
| Usb.GoXLRUSB.ResyncAndRetry | usb/src/device/usb.rs:170-175 | the reset-then-retry equals `Resync` on the old state |
| Usb.Located | usb/src/device/usb.rs:196-212 | at most one location is found per device |
| Usb.LocatedAppend | usb/src/device/usb.rs:194-217 | filtering the device list distributes over concatenation |
| Usb.LocatedMembers | usb/src/device/usb.rs:199-209 | a location is found exactly when a device there has a readable GoXLR descriptor (GoXLR vendor id, full or mini product id) |
| Usb.FindDevices | usb/src/device/usb.rs:194-217 | a failed enumeration finds nothing; otherwise the result is the locations of the GoXLR devices, in enumeration order |
| Usb.FirstAt | usb/src/device/usb.rs:26-39 | the device chosen sits at the location and has a readable descriptor; none is chosen exactly when no such device exists |
| Usb.FirstAtIsFirst | usb/src/device/usb.rs:27-34 | the device chosen comes before every other readable device at that location |
| Usb.FindDevice | usb/src/device/usb.rs:26-39 | a failed enumeration or no readable device at the location is `DeviceNotFound`; otherwise the result is the first readable device there |
| UsbProofs.PollGrowth | usb/src/device/usb.rs:130-156 | the poll loop only appends reads and sleeps, at most one read per remaining attempt, and never writes |
| UsbProofs.PollExhaustedTrace | usb/src/device/usb.rs:130-140 | a poll that runs out leaves exactly 20 - i rounds of "not ready, sleep" |
| UsbProofs.PollLastRead | usb/src/device/usb.rs:142-159 | a poll that stops early stops on its last read: the failing one, or the reply whose header and body it returns |
| UsbProofs.PollExhaustedIff | usb/src/device/usb.rs:130-140 | the poll runs out exactly when all remaining scripted reads report "not ready" |
| UsbProofs.PollFirstReady | usb/src/device/usb.rs:130-159 | the first read that is not "not ready" decides the outcome |
| UsbProofs.LastAttemptDelivers | usb/src/device/usb.rs:130-159 | 19 "not ready" reads followed by a full reply still deliver that reply |
| UsbProofs.RequestGrowth | usb/src/device/usb.rs:98-188 | a request only appends to the bus trace, writes a bounded number of frames, and reads at most 20 times per write |
| UsbProofs.WrapGrowth | usb/src/device/usb.rs:100-106 | a command sent at `u16::MAX` (reset first, then the command) only appends to the trace, writes at most three frames for the reset and the usual bound for the command, and reads at most 20 times per write |
| UsbProofs.ExchangeGrowth | usb/src/device/usb.rs:108-187 | an exchange only appends, writes at most 1 frame (3 with a resync), and reads at most 20 times per write |
| UsbProofs.AnswerGrowth | usb/src/device/usb.rs:161-187 | answering a poll writes no frame on a retry and at most 2 frames otherwise |
| UsbProofs.ResyncGrowth | usb/src/device/usb.rs:170-175 | a resync writes at most two frames |
| UsbProofs.RequestCorrelated | usb/src/device/usb.rs:98-188 | `Ok(b)` means the last frame sent carries this command under the final index, and `b` is the body of a reply that echoed that index, or empty after 20 "not ready" polls; `Err(e)` is the error of the last bus event; a successful command leaves a non-zero counter |
| UsbProofs.ExchangeCorrelated | usb/src/device/usb.rs:108-187 | the same correlation holds for one exchange |
| UsbProofs.PollAfterFrame | usb/src/device/usb.rs:115-156 | sleeping and polling keep the frame just sent as the last one written, and end the trace with the event that decides the outcome |
| UsbProofs.AnswerCorrelated | usb/src/device/usb.rs:157-187 | acting on a poll whose last event is recorded gives a correlated outcome |
| UsbProofs.ResyncCorrelated | usb/src/device/usb.rs:170-175 | the resync's outcome is correlated with the retried command |
| UsbProofs.ExchangeSendsFirst | usb/src/device/usb.rs:108-115 | the first bus event of an exchange is the write of its frame under the current index |
| UsbProofs.ResetSendsIndexZero | usb/src/device/usb.rs:98-99 | a reset zeroes the counter and goes out with index 0 |
| UsbProofs.CommandAdvancesCounter | usb/src/device/usb.rs:100-107 | below `u16::MAX` a command goes out with the counter plus one |
| UsbProofs.CounterNeverWraps | usb/src/device/usb.rs:100-104 | at `u16::MAX` a reset goes out first; if it fails its error is the result, otherwise the command goes out with index 1 |
| UsbProofs.RequestAtMax | usb/src/device/usb.rs:100-104 | at `u16::MAX` a failed reset is the whole outcome of the command; after a successful one the command is exchanged with the counter one past the reset's |
| UsbProofs.ExchangeCounter | usb/src/device/usb.rs:107-187 | a successful exchange either wrote only its own frame and keeps the index it sent, or, when not a retry, resynced with three frames and left the counter at 0 for a reset and 1 for any other command |
| UsbProofs.ResyncCounter | usb/src/device/usb.rs:170-175 | a successful resync writes exactly the reset and the retried command, and leaves the counter at 0 for a reset and 1 otherwise |
| UsbProofs.RequestCounter | usb/src/device/usb.rs:98-187 | below `u16::MAX` a successful command leaves the counter one higher after writing only its own frame, or at 1 after a resync of three frames |
| UsbProofs.WrapCounter | usb/src/device/usb.rs:100-104 | at `u16::MAX` a successful command leaves the counter at 1 |
| UsbProofs.SuccessiveIndices | usb/src/device/usb.rs:98-114 | when a command succeeds without a resync, the next command goes out with the following index |
| Text.DigitValue | profile/src/profile.rs:618-623 | `u8::from_str` of one character succeeds exactly on a decimal digit, with that digit's value |
| Text.NatToStringValue | profile/src/profile.rs:54 | the decimal rendering of a number reads back as that number |
| Text.NatToStringInjective | profile/src/profile.rs:54 | different numbers render to different strings |
| HardTune.FirstWithUiIndex | profile/src/components/hardtune.rs:87-94 | the style found has the given `uiIndex`; none is found when no style has it |
| HardTune.UiIndexRoundTrip | profile/src/components/hardtune.rs:357-366 | every style is found again from its `uiIndex`, and exactly "0", "1" and "2" name a style |
| HardTune.SourceFromStr | profile/src/components/hardtune.rs:374-390 | a parsed source displays as the input string; anything else is an `ExpectedEnum` error |
| HardTune.SourceRoundTrip | profile/src/components/hardtune.rs:374-390 | every source parses back from its name, and only the five names parse |
| HardTune.StateRoundTrip | profile/src/components/hardtune.rs:82-85 | the state written as "1"/"0" reads back unchanged |
| HardTune.PresetForStyle | profile/src/components/hardtune.rs:406-431 | every row of the style table lies within the setters' bounds, with scale 5 and pitch amount 0 |
| HardTune.StyledProperties | profile/src/components/hardtune.rs:273-284 | `set_style` keeps the state, key source and source, stores the style and its table row, and the result is in bounds |
| HardTune.HardTuneEffect.constructor | profile/src/components/hardtune.rs:249-261 | a new effect is off, `Normal`, with all values 0 and no source |
| HardTune.HardTuneEffect.SetState | profile/src/components/hardtune.rs:266-268 | only the state changes |
| HardTune.HardTuneEffect.SetStyle | profile/src/components/hardtune.rs:273-284 | always succeeds and leaves the effect styled by the table row |
| HardTune.HardTuneEffect.SetAmount | profile/src/components/hardtune.rs:293-299 | fails exactly above 100, with the source's message, changing nothing; otherwise only the amount changes; an in-bounds effect stays in bounds |
| HardTune.HardTuneEffect.SetWindow | profile/src/components/hardtune.rs:304-310 | fails exactly above 600, changing nothing; otherwise only the window changes; an in-bounds effect stays in bounds |
| HardTune.HardTuneEffect.SetRate | profile/src/components/hardtune.rs:315-321 | fails exactly above 100, changing nothing; otherwise only the rate changes; an in-bounds effect stays in bounds |
| HardTune.HardTuneEffect.SetScale | profile/src/components/hardtune.rs:326-328 | only the scale changes, without a check |
| HardTune.HardTuneEffect.SetPitchAmt | profile/src/components/hardtune.rs:333-339 | fails exactly on a non-zero value, changing nothing; otherwise only the pitch amount changes; an in-bounds effect stays in bounds |
| HardTune.HardTuneEffect.SetSource | profile/src/components/hardtune.rs:344-346 | the source is stored, and `get_source` returns it afterwards |
| HardTune.HardTuneEffect.GetSource | profile/src/components/hardtune.rs:348-353 | the stored source, or `All` when none is stored |
| HardTune.Saturate | profile/src/components/hardtune.rs:97-124 | the float-to-integer cast never exceeds the field's maximum |
| HardTune.SaturateWhole | profile/src/components/hardtune.rs:97-124 | a whole number within range survives the cast unchanged |
| HardTune.ApplyAttribute | profile/src/components/hardtune.rs:82-128 | one attribute fails only as a numeric attribute whose value is not a float (`ExpectedFloat`) or as a `HARDTUNE_SOURCE` (`ExpectedEnum`) |
| HardTune.ApplyAll | profile/src/components/hardtune.rs:81-129 | reading a preset's attributes fails only with `ExpectedFloat` or `ExpectedEnum` |
| HardTune.StyleAttribute | profile/src/components/hardtune.rs:86-94 | `HARDTUNE_STYLE` selects the style with that `uiIndex`; any other value keeps the style |
| HardTune.ReadSkipsSetterChecks | profile/src/components/hardtune.rs:101-104 | the reader stores an amount of 150, which `set_amount` would reject |
| HardTune.PresetForId | profile/src/components/hardtune.rs:132-144 | ids 1 to 6 name the presets in order, and no other id names one |
| HardTune.PresetAttributes | profile/src/components/hardtune.rs:166-205 | the attributes written for a preset have distinct names, as the keys of the map they are collected in |
| HardTune.ReadWrittenAttribute | profile/src/components/hardtune.rs:166-196 | each attribute that `write_hardtune` writes for a preset, when read, sets exactly its own field |
| HardTune.PresetRoundTrip | profile/src/components/hardtune.rs:75-147 | reading back the attributes written for a preset rebuilds that effect exactly |
| HardTune.ReadRoot | profile/src/components/hardtune.rs:59-73 | reading the root's attributes fails only with `ExpectedEnum` (a bad source name) or `InvalidColours` (a colour the colour map rejects) |
| HardTune.ReadRootFails | profile/src/components/hardtune.rs:59-73 | the root read fails exactly when some attribute is bad: a `HARDTUNE_SOURCE` value that names no source, or another attribute the colour map rejects |
| HardTune.ReadRootStops | profile/src/components/hardtune.rs:59-73 | the first bad attribute ends the read with its own error (`ExpectedEnum` for a source name, `InvalidColours` otherwise), leaving the source set by the attributes before it; later attributes are not read |
| HardTune.RootRoundTrip | profile/src/components/hardtune.rs:59-73 | reading back the root's `HARDTUNE_SOURCE`, from any earlier source and whatever the colour map accepts, succeeds and restores the source |
| HardTune.HardtuneEffectBase.constructor | profile/src/components/hardtune.rs:50-57 | a new base has source `All` and a default effect for every preset |
| HardTune.HardtuneEffectBase.ParseHardtuneRoot | profile/src/components/hardtune.rs:59-73 | the result and the source after the call are those of `ReadRoot` on the old source: on success the last source named, on failure the error (a bad source name or a rejected colour) together with the source set before the bad attribute; the presets are untouched |
| HardTune.HardtuneEffectBase.ParseHardtunePreset | profile/src/components/hardtune.rs:75-147 | on a failed attribute nothing is stored; otherwise a new effect built from the attributes replaces the preset that `id` names (none for other ids), and no other preset changes |
| HardTune.HardtuneEffectBase.WriteHardtune | profile/src/components/hardtune.rs:149-214 | the elements written are the root with the source, then one element per preset with every field encoded |
| HardTune.PresetElements | profile/src/components/hardtune.rs:167-209 | the k-th element written is tagged `hardtuneEffect` plus the k-th key's suffix and carries that preset's attributes |
| HardTune.PresetElementsAppend | profile/src/components/hardtune.rs:167-209 | the elements for one more preset extend the list by that preset's element |
| HardTune.Written | profile/src/components/hardtune.rs:149-214 | the first element is the root with the source's attributes; element k + 1 is preset k's element with its attributes |
| Profile.DigitSuffix | profile/src/profile.rs:619-623 | the last character parses as a digit with its value, or the result is `ExpectedInt` for a non-digit |
| Profile.ParsePreset | profile/src/profile.rs:617-629 | a preset is found only when the key ends in a digit from 1 to 6; the only errors are `NoSuchPreset` and the digit parse's `ExpectedInt` |
| Profile.ParsePresetSpec | profile/src/profile.rs:618-630 | a key names preset p exactly when its last character is a digit d from 1 to 6 and p is the d-th preset |
| Profile.ParsePresetErrors | profile/src/profile.rs:618-630 | an empty key, 0 and 7-9 give `NoSuchPreset`; a non-digit gives the parse error |
| Profile.TagSuffixParses | profile/src/profile.rs:286-289 | a tag ending in a preset's suffix parses back as that preset |
| Profile.FaderFromSuffix | profile/src/profile.rs:211-276 | a fader is found only for a decimal last character; the errors are the digit parse's `ExpectedInt` and the `unwrap()` panic |
| Profile.FaderFromSuffixSpec | profile/src/profile.rs:211-242 | a one-based digit 1-4 names fader d-1; a zero-based digit 0-3 names fader d; every other digit panics |
| Profile.EffectsPreset | profile/src/profile.rs:244-260 | the preset found has that `contextTitle`; none is found when no preset has it |
| Profile.SampleButtonFor | profile/src/profile.rs:366-404 | the button found has that tag; none is found when no button has it |
| Profile.SimpleFromStr | profile/src/profile.rs:415-427 | the element found has that name; none is found when no element has it |
| Profile.Route | profile/src/profile.rs:171-435 | routing a start tag fails only with a digit parse error, a fader panic or an unknown simple element |
| Profile.RouteEffect | profile/src/profile.rs:280-364 | the effect tests, and the sample tests they fall through to, fail only in the same ways |
| Profile.RouteSample | profile/src/profile.rs:366-427 | the sample tests fail only with an unknown simple element |
| Profile.MuteTagRouting | profile/src/profile.rs:205-226 | `mute1`-`mute4` go to the mute buttons of faders A-D; other digits panic; a non-digit is a parse error |
| Profile.FaderMeterTagRouting | profile/src/profile.rs:228-242 | `FaderMeter0`-`FaderMeter3` go to faders A-D; other digits panic; a non-digit is a parse error |
| Profile.ScribbleTagRouting | profile/src/profile.rs:262-276 | `scribble1`-`scribble4` go to the scribbles of faders A-D, with the same failures as the mute tags |
| Profile.EffectsTagRouting | profile/src/profile.rs:244-260 | each preset's `effects` tag goes to that preset's effects |
| Profile.RouteReachesEffects | profile/src/profile.rs:171-276 | a tag that none of the earlier tests match reaches the effect tests |
| Profile.SkipEffectKinds | profile/src/profile.rs:280-364 | the effect tests of kinds whose tags do not match the name are passed over |
| Profile.TopTestsPass | profile/src/profile.rs:171-276 | an effect tag passes the tests before the effect tests |
| Profile.RootTagsStartApart | profile/src/profile.rs:280-364 | the root tags of different effects differ in their first two characters |
| Profile.OtherKindPasses | profile/src/profile.rs:280-364 | a tag of one effect matches neither the root nor the preset test of another |
| Profile.EffectTagReachesKind | profile/src/profile.rs:171-364 | a tag of an effect reaches that effect's own tests |
| Profile.EffectTagRouting | profile/src/profile.rs:280-364 | each effect's root tag goes to its root parser, and its preset tag goes to that preset of the effect |
| Profile.RootTagRouting | profile/src/profile.rs:280-364 | each effect's root tag goes to its root parser |
| Profile.PresetTagRouting | profile/src/profile.rs:280-364 | each effect's tag with a preset suffix goes to that preset of the effect |
| Profile.NotEffectTag | profile/src/profile.rs:280-364 | sample and simple-element tags match no effect test |
| Profile.SampleTestsReached | profile/src/profile.rs:171-404 | sample and simple-element tags reach the sample tests |
| Profile.SampleTagRouting | profile/src/profile.rs:366-404 | each sample button's tag goes to that button |
| Profile.NotSampleButtonTag | profile/src/profile.rs:366-404 | stack, bank and other tags name no sample button |
| Profile.SampleStackInSampleTests | profile/src/profile.rs:406-413 | a `sampleStack` tag goes to the open button with its last character, and is passed over when no button is open |
| Profile.SampleStackRouting | profile/src/profile.rs:406-413 | the same holds for the whole routing of a `sampleStack` tag |
| Profile.SimpleTagInSampleTests | profile/src/profile.rs:415-427 | each simple element's tag goes to that element |
| Profile.SimpleTagRouting | profile/src/profile.rs:415-427 | the same holds for the whole routing of a simple element's tag |
| Profile.UnknownSampleBankInSampleTests | profile/src/profile.rs:415-427 | a `sampleBank` tag that names no element fails `from_str` |
| Profile.UnknownSampleBankRouting | profile/src/profile.rs:415-427 | the same holds for the whole routing of such a tag |
| Profile.Step | profile/src/profile.rs:166-449 | one event adds at most one hand-off and keeps the earlier ones; only a start tag can fail, and only with a routing error; other events add nothing |
| Profile.ReadFrom | profile/src/profile.rs:166-455 | the loop keeps the hand-offs it started with, adds at most one per event, and fails only with a routing error |
| Profile.LoadSettings | profile/src/profile.rs:132-478 | succeeds exactly when reading the events does, with the hand-offs made, and otherwise fails with the first error a tag raised |
| Profile.ReadErrorStops | profile/src/profile.rs:450-453 | events after a read error are never read: the result is that of the events before it |
| Profile.SampleOpenStep | profile/src/profile.rs:366-404 | opening a sample button's element hands its attributes to it and makes it the open button |
| Profile.CloseStep | profile/src/profile.rs:438-449 | closing a sample element clears the open button; closing any other element changes nothing |
| Profile.SampleStackStep | profile/src/profile.rs:406-413 | a stack tag is handed to the open button, or changes nothing when no button is open |
| Profile.RouteEffectStack | profile/src/profile.rs:406-413 | the effect tests hand a stack only to the open button |
| Profile.RouteStack | profile/src/profile.rs:406-413 | the routing hands a stack only to the open button |
| Profile.StepKeepsConsistent | profile/src/profile.rs:366-449 | one event keeps every stack tied to the button opened last before it |
| Profile.ReadKeepsConsistent | profile/src/profile.rs:166-455 | the whole loop keeps that invariant |
| Profile.LoadedStacksFollowSampler | profile/src/profile.rs:366-449 | in a loaded profile every `sampleStack` went to the sample button opened most recently before it |
| Profile.FirstNamed | profile/src/profile.rs:498-505 | no value is found exactly when no attribute is called `name` |
| Profile.PresetKind | profile/src/profile.rs:512-533 | the effect found has exactly that root tag; none is found when no effect has it |
| Profile.PresetReadFrom | profile/src/profile.rs:480-540 | the preset loop fails only before the top element is read, and then with `PresetNameNotFound` |
| Profile.LoadPreset | profile/src/profile.rs:480-540 | the calls made, or the error, are those of reading the events into the current preset |
| Profile.AfterTopElement | profile/src/profile.rs:512-539 | after the top element nothing fails, and each recognised tag adds one call for the current preset |
| Profile.FirstElementRule | profile/src/profile.rs:497-510 | the first start element decides: with no `name` attribute the load fails; otherwise the preset is renamed to the first `name` value and each later recognised tag loads into it |
| Profile.NoTopElement | profile/src/profile.rs:492-540 | a preset file with no start element changes nothing |
| Profile.SimpleElementsOfSpec | profile/src/profile.rs:415-427 | an element is stored exactly when a tag went to it, and what is stored comes from the last such tag |
| Profile.SimpleElementFor | profile/src/profile.rs:756-776 | the element returned is one of the stored elements |
| Profile.SimpleElementFallback | profile/src/profile.rs:756-776 | once a `globalColour` tag was read every lookup succeeds: a present element answers for itself, a missing one with the global colour |
| Profile.ScribbleNamesDistinct | profile/src/profile.rs:53-54 | different scribble slots use different file names, and none is `profile.xml` |
| Profile.LoadProfile | profile/src/profile.rs:44-69 | the result is each slot's file (empty when absent) with the settings read from `profile.xml`, or a missing-file or settings error |
| Profile.SaveProfile | profile/src/profile.rs:72-94 | writes `profile.xml` first, then one file per non-empty slot, in slot order |
| Profile.AddScribbleEntry | profile/src/profile.rs:83-90 | adding a slot's file changes only what that slot reads |
| Profile.SavedArchive | profile/src/profile.rs:72-94 | the saved archive holds `profile.xml` as written and exactly the non-empty slots, each under its own name |
| Profile.SavedSlot | profile/src/profile.rs:83-91 | saving one more slot adds a non-empty scribble under its own name without disturbing `profile.xml` or the other slots, and adds nothing for an empty one |
| Profile.ProfileRoundTrip | profile/src/profile.rs:44-94 | saving a profile and loading the archive back gives the same scribbles and settings, provided the written XML reads back as the same hand-offs |

## Left out

- I/O: rusb, the zip archive and the XML reader and writer are not modelled. The bus is a scripted handle, XML is a list of events, and an archive is a map from name to bytes (`Profile.ArchiveOf`: a later entry with the same name replaces an earlier one).
- Time: `sleep` and the handle's one-second timeout are recorded as trace events only.
- `Command::command_id` and `request_data` live in files that are not part of this model. The reset's id is a constant that no property depends on. `request_data` is modelled as the `perform_request` it calls.
- The vendor and product ids are declared in a file that is not part of this model. Their upstream values are used, and only the fact that full and mini differ matters.
- `debug_assert!` on the response length is not modelled. Debug builds only.
- Floats: `parse::<c_float>()` is a parameter of the model. The round trips assume only that it reads whole numbers up to `u16::MAX` exactly (`HardTune.ReadsDecimals`), which an `f32` does. The cast to an integer (`HardTune.Saturate`) saturates, and drops the fraction. NaN is not modelled.
- `HardTune.HardTuneEffect.SetStyle`: the per-style values go through the checked setters, as in the source. The table rows always pass the setters' checks (`HardTune.PresetForStyle`), so every `Result` is `Ok`.
- The colour maps of every component, and the attributes they read and write, are not modelled. Unrecognised attributes are only logged. For the hardtune root, whether `read_colours` accepts an attribute is a parameter (`readsColour`), so its failure, `InvalidColours`, is modelled; what the colour map stores is not.
- `HardTune.PresetRoundTrip`: `write_hardtune` writes attributes in `HashMap` order, which is not specified. The model writes them in insertion order, and the round trip is proved for that order only.
- `parse_hardtune_preset` takes a `u8` id, while the `load_preset` shown passes a `Preset`. The model keeps the `u8` dispatch of the hardtune file. Profile calls carry the `Preset`.
- The component parsers (`parse_root`, `parse_mixers`, `parse_effect`, the encoders' and effects' preset parsers, `parse_sample_stack`, `parse_simple` and the others) are represented by the call they receive. Their own errors, and the `set_name` in `load_preset`, are not modelled.
- `ProfileSettings::load`: the XML version check (`exit(-1)` above version 2) and the logging are not modelled.
- Profile.LoadSettings: returns the list of hand-offs, not the populated component maps. The maps are the later hand-off per target (`Profile.SimpleElementsOf` for the simple elements).
- The XML reader may stop yielding events after an error. The model reads whatever list it is given.
- `ProfileSettings::write_to` and `write` are not modelled, including the `unwrap` on a missing simple element. `Profile.SaveProfile` takes the bytes they produce as a parameter.
- The `read_exact` I/O error in `Profile::load` is not modelled: the archive gives every file's bytes whole.
- `get_scribble`, `settings`, `settings_mut`, and the component accessors that `unwrap` are not modelled. `simple_element`/`simple_element_mut` are modelled as `Profile.SimpleElementFor`, whose precondition rules out their panic.
- Profile.SimpleElementFor: requires the element or `GlobalColour` to be present. The source panics otherwise.
- Profile.SaveProfile: requires exactly four scribble slots, which the source's fixed-size array guarantees.
- `error.rs` and the daemon that calls these functions are not part of this model.
