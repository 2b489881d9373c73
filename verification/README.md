# Verified models of aelkey's stateful kernels

Six parts of aelkey keep state between events or depend on exact arithmetic. This project models
them in Dafny and proves what they promise over whole runs. Devices, sockets and clocks are outside:
they appear as arguments, as bounded tables, or not at all.

**Touchpad** (`TouchProtocol`, `TouchSurface`, `TouchTables`, `Touchpad`, `TouchpadRuns`). The tracker
turns frames of contacts into the slot and tracking-id events of the kernel document "Multi-touch (MT)
Protocol", section "Protocol Example B". `TouchProtocol` is a receiver of such events, `TouchSurface` a
reference that only knows which fingers are down. Over every run, in whatever order Lua's `pairs` visits
the tables, a receiver of the emitted events has exactly the fingers that have touched, with their ids and
last touching positions; finger count, primary finger, BTN_TOUCH, the tool key and ABS_X/ABS_Y belong to the
fingers that are touching. This holds as long as no new finger gets an id that is in use. That happens exactly
when a finger arrives while one is down that began a multiple of 65535 fingers earlier, and then two slots share
an id; a finger that rests while another taps 65535 times gets there. Without any condition, tool keys are pressed
and released alternately, and they and BTN_TOUCH follow the finger count; and a frame in which nothing is fed ends
what a clash did: from there on the tracker is in step with the reference again.

**Haptics** (`Effects`, `EffectSlots`, `EffectSources`, `Haptics`, `HapticsRuns`). Virtual effects per source
are cached per sink under the ids that the sink's device gave them. Over every run, the cached ids are exactly
the device's ids, each under one key, and every cached effect that its source still defines feels like the
definition. Every run follows its operations, and what is promised is promised of every such run. A script's
request to play starts the last upload of the effect (or the one-shot it brings) if
and only if the device has room for one effect and knows the type. Two conditions are exact. A one-shot leaks an
id exactly if its key is in use, which takes a source with the reserved name. Direct requests play the last upload
or nothing exactly while every cached effect is still defined, and registering a source ends that exactly if an
effect of the source is cached. Runs that reach both failures are part of the project.

**Keyboard** (`HidUsages`, `HidReport`, `Tally`, `Remapper`, `RemapperProperties`, `KeyboardPipeline`,
`KeyboardRuns`). The boot-report parser and the Fn-layer remapper, alone and together. Every press that was
ever put out has been released, is held by an active key, or was lost by pressing a key that was held. A
report with nothing pressed leaves no key active, and everything has been released if no report names a
modifier that it or the report before also names in its key bytes. That condition is exact for all mappings under
which a modifier always has an output, whatever switches the Fn layer, and for no others.

**CRC-32** (`Words`, `CrcRegister`, `Crc32`, `Crc32Properties`, `Crc32Residue`). The table-driven loop
computes the bit-serial register of section 8 of RFC 1952. The register is linear and loses nothing; so any
error within 32 consecutive bits is detected, and of all errors within 33 consecutive bits only the generator
is missed. One zero byte in front of a message, or two, four, eight and so on, change its checksum unless
the seed is 0xFFFFFFFF; and a message that its own checksum follows always has the checksum 0x2144DF1C.

**Sequence matcher** (`Subsequences`, `SequenceLog`, `SequenceMatches`, `Sequence`, `SequenceRuns`). A log records
what each call did, and every run of the matcher leaves the one legal log of its operations, also while patterns are
added and cleared: inputs are ignored exactly while there is no pattern, sessions begin, match and time out exactly
when they should, and callbacks account for every session. The matcher counts the input that opens a session twice.
With patterns that stay, what that does is decided by the patterns that begin with the same button twice. Matches are
those of plain subsequence matching in every run if and only if what is left of each such pattern after its first
button contains a pattern. Progress is the longest prefix that is a subsequence of the inputs in every run if
and only if the button of each such pattern is a pattern alone or twice.

**Easing** (`Shaping`, `Bisection`, `Easing`, `EasingRuns`, `EasingJourneys`). Smoothstep and smootherstep
rise strictly from 0 to 1, with slopes of at most 1.5 and 1.875. Bisection ends for every positive threshold
and can end for no other; it is off by at most the threshold, and by at most slope times threshold in value.
Values never leave [0,1] in any run of proper calls. An update keeps the current value exactly if the value
has arrived or the threshold is 1 or more; otherwise a query at the same instant jumps, by an amount that is
stated. For starts, new starts and redirections, the answers of later queries are given in terms of the
arguments of the calls.

`Options` and `Pairs` hold an optional value and an arbitrary visiting order.

Where comments and code differ, the models follow the code: a contact without a slot goes to slot 0 although
the usage note calls the slot required (source/aelkey_touchpad.lua:34 and 131); Fn is on while its key is held,
not toggled (source/aelkey_keyboard.lua:38, 149 and 172); and a caller's reset ends a session without a timeout
callback unless in stream mode, although the notes say that the timeout always fires
(source/aelkey_sequence.lua:21 and 42).

## Model

| member | source | states |
|---|---|---|
| Crc32.Crc32Entry | source/aelkey_util.cc:14-24 | table entry `i` is the register holding `i` after eight shifts of the bit-serial register |
| Crc32.MakeCrc32Table | source/aelkey_util.cc:27-33 | all 256 entries are such registers |
| Crc32.Crc32 | source/aelkey_util.cc:37-43 | for every message and seed the byte loop returns the bit-serial checksum |
| Crc32.EntryStep | source/aelkey_util.cc:17-21 | one turn of the entry loop on a word is one clock of the register of bits |
| Crc32.TableStep | source/aelkey_util.cc:40 | one table step consumes the eight bits of a byte, least significant first |
| Crc32.ByteSplit | source/aelkey_util.cc:40 | eight message bits act on the low byte of the register alone while the rest moves down |
| Crc32.PolynomialBits | source/aelkey_util.cc:18 | the constant of the source is the reflected generator of the register |
| CrcRegister.ShiftLinear | source/aelkey_util.cc:17-21 | shifting distributes over exclusive or |
| CrcRegister.ShiftInjective | source/aelkey_util.cc:17-21 | shifting loses nothing |
| CrcRegister.FeedLinear | source/aelkey_util.cc:37-43 | two runs of the register differ by the run over the bits in which they differ |
| CrcRegister.FeedInjective | source/aelkey_util.cc:37-43 | different registers stay different whatever they consume |
| CrcRegister.WordsSeparate | source/aelkey_util.cc:37-43 | up to 32 different message bits leave different registers behind |
| Crc32Properties.ChecksumConcat | source/aelkey_util.cc:37-43 | continuing from the checksum of the first part gives the checksum of the whole |
| Crc32Properties.ChecksumOfPieces | source/aelkey_util.cc:37-48 | the same for any number of pieces |
| Crc32Properties.UndetectedIff | source/aelkey_util.cc:37-43 | an error goes unnoticed if and only if the register maps its bits to zero, whatever message and seed |
| Crc32Properties.BurstDetected | source/aelkey_util.cc:37-43 | every error within 32 consecutive bits, at any bit position, changes the checksum |
| Crc32Properties.FourByteBurstDetected | source/aelkey_util.cc:37-43 | messages that differ only within four consecutive bytes have different checksums |
| Crc32Properties.GeneratorBurstMissed | source/aelkey_util.cc:14-43 | the 33 bits of the generator, flipped anywhere in any message, go unnoticed |
| Crc32Properties.ThirtyThreeBitsIff | source/aelkey_util.cc:14-43 | an error confined to 33 consecutive bits goes unnoticed if and only if there is none or it is the generator |
| Crc32Properties.ZeroOrGenerator | source/aelkey_util.cc:14-21 | 33 bits leave a zero register as it was if and only if they are all zero or the generator |
| Crc32Properties.ThirtyThreeBitsMissed | source/aelkey_util.cc:14-43 | two five-byte messages that show it |
| Crc32Residue.LeadingZerosMissedIff | source/aelkey_util.cc:37-43 | one, two, four, eight, ... zero bytes in front of any message leave its checksum as it was if and only if the seed is 0xFFFFFFFF |
| Crc32Residue.LeadingZeroDetected | source/aelkey_util.cc:37-43 | with seed 0 a message and the same message after a zero byte never share their checksum |
| Crc32Residue.ChecksumOfChecked | source/aelkey_util.cc:37-43 | whatever message and seed, the message followed by its checksum, lowest byte first, has the checksum 0x2144DF1C |
| Touchpad.Tracker.NewTrackingId | source/aelkey_touchpad.lua:65-69 | the k-th id handed out, counting from 0, is k modulo 65535, plus 1 |
| Touchpad.Tracker.ClearMissingContacts | source/aelkey_touchpad.lua:75-83 | exactly the contacts not seen are marked and listed, in whatever order they are visited |
| Touchpad.Tracker.UpdatePrimary | source/aelkey_touchpad.lua:85-99 | the primary slot is the least slot with an active contact, if there is one |
| Touchpad.Tracker.BeginFrame | source/aelkey_touchpad.lua:102-111 | drops what is pending, marks all contacts unseen, and keeps tables, receiver and reference in step |
| Touchpad.Tracker.FeedContact | source/aelkey_touchpad.lua:113-228 | feeds the reference the same contact; stays in step unless the new finger clashes, and then two slots share an id |
| Touchpad.Tracker.UpdateSlot | source/aelkey_touchpad.lua:138-226 | the id is the slot's or the next one, the contact is stored, a touching one is queued and on the receiver at its position, any other queues nothing |
| Touchpad.Tracker.StoreContact | source/aelkey_touchpad.lua:153-189 | the contact as stored, and that it is listed as changed exactly if it is new, moved, or began or stopped touching |
| Touchpad.Tracker.QueueContact | source/aelkey_touchpad.lua:191-227 | the events of a touching contact, in order, and that they put it on the receiver under its id |
| Touchpad.Tracker.QueueEndings | source/aelkey_touchpad.lua:235-255 | the receiver loses exactly the slots of the ended contacts |
| Touchpad.Tracker.QueueToolKeys | source/aelkey_touchpad.lua:307-342 | the receiver's tool key becomes the one for the finger count, with no press of a key while one is down |
| Touchpad.Tracker.Cleanup | source/aelkey_touchpad.lua:404-416 | removes exactly the ended contacts and their slots, in whatever order |
| Touchpad.Tracker.EndFrame | source/aelkey_touchpad.lua:230-417 | the reference's fingers that were not fed are gone, and count, primary, BTN_TOUCH, tool key and axes summarize those that touch |
| Touchpad.Tracker.EmitEvents | source/aelkey_touchpad.lua:432-439 | hands over the pending events, in order, once |
| TouchpadRuns.RunFrames | source/aelkey_touchpad.lua:102-356 | for every run and every idle receiver: no tool-key fault ever, BTN_TOUCH and the tool key follow the finger count, and without a clash the receiver's slots, keys, axes and the counts are those of the reference |
| TouchpadRuns.Pause | source/aelkey_touchpad.lua:102-417 | a frame in which nothing is fed empties tables and receiver, whatever clashed before, and puts the tracker in step with an empty reference |
| TouchpadRuns.RunAfterPause | source/aelkey_touchpad.lua:102-417 | in every run with such a frame, whatever clashed before it: after it the receiver is that of the reference until ids clash again; without a clash that is the reference of the whole run |
| TouchTables.TakenIffClash | source/aelkey_touchpad.lua:65-69 | the next id is in use if and only if a finger is down that began a multiple of 65535 fingers earlier |
| TouchSurface.IdsInOrder | source/aelkey_touchpad.lua:65-69 | tracking ids go from 1 to 65535 and start again |
| TouchpadRuns.AfterTaps | source/aelkey_touchpad.lua:65-69 | one finger rests and another taps: the run clashes from the 65535th tap on and not before |
| TouchpadRuns.ClashHappens | source/aelkey_touchpad.lua:138-143 | a tracker fed that run has two slots with the same id |
| TouchTables.FeedInStep | source/aelkey_touchpad.lua:138-189 | slots and contacts stay in bijection and mirror the reference when a contact is fed |
| TouchTables.EndInStep | source/aelkey_touchpad.lua:231-255 | marking, ending and cleaning up leaves exactly the reference's fingers that were fed |
| TouchTables.FingerCount | source/aelkey_touchpad.lua:264-274 | the number of active contacts is the number of slots with a touching finger |
| TouchTables.PrimaryIsLeast | source/aelkey_touchpad.lua:276-285 | the primary slot is the least touching one and its contact carries that finger's coordinates; there are at most max_slots |
| TouchpadRuns.FrameTellsSlot | source/aelkey_touchpad.lua:113-189 | after a frame a slot has a finger exactly if the frame had a sample for it, and the finger is where the last sample says |
| TouchpadRuns.TouchingIsShown | source/aelkey_touchpad.lua:191-217 | a contact fed last as touching is on the receiver with its id and position |
| TouchpadRuns.LastContactTells | source/aelkey_touchpad.lua:113-136 | in terms of what callers pass: the last contact of a frame for a slot touches if it says so or, if it does not say, unless it is at (0, 0); then it counts and is on the receiver at its coordinates; a contact without a slot is for slot 0 |
| TouchpadRuns.BasicFrame | source/aelkey_touchpad.lua:286-301 | in basic mode a frame with one contact has one finger or none, by the same rule, and the keys and axes follow |
| TouchpadRuns.RecentDoesNotClash | source/aelkey_touchpad.lua:65-69 | no clash if fewer than 65535 ids were handed out since the oldest finger that is down began |
| TouchpadRuns.RecentRun | source/aelkey_touchpad.lua:65-69 | if that holds throughout a run, the run has no clash |
| TouchProtocol.FaultIsSticky | source/aelkey_touchpad.lua:320-342 | a stream without a tool-key fault has none at any prefix |
| Remapper.LayerPrecedence | source/aelkey_keyboard.lua:94-123 | the modifier layer decides in either Fn state; without it identity keys keep their meaning on the Fn layer, other keys give what the Fn layer has for them or nothing, and off it what the normal layer has or themselves |
| Remapper.UnmappedOnFnLayer | source/aelkey_keyboard.lua:94-123 | of the keys that no layer maps, exactly the modifiers, the locks and the level keys work on the Fn layer, as themselves |
| Remapper.OtherLayersDoNotMatter | source/aelkey_keyboard.lua:97-105 | only the layer that decides, at the key itself, has a say |
| Remapper.Keyboard.FeedEvents | source/aelkey_keyboard.lua:131-193 | the state and output after a list of events are those of the specification, event by event |
| Remapper.Keyboard.PressKey | source/aelkey_keyboard.lua:143-163 | a press stores the mapping chosen now and puts out its codes in order |
| Remapper.Keyboard.ReleaseKey | source/aelkey_keyboard.lua:165-183 | a release forgets the stored mapping and puts out its codes in reverse |
| Remapper.Keyboard.EmitReleases | source/aelkey_keyboard.lua:174-178 | the backward loop puts out every code once, last first |
| RemapperProperties.Conservation | source/aelkey_keyboard.lua:131-231 | for every run, presses are releases plus what active keys hold plus what was lost by pressing a held key |
| RemapperProperties.MappingIsRemembered | source/aelkey_keyboard.lua:151-153 | a stored mapping stays whatever happens to other keys and to the Fn layer |
| RemapperProperties.ReleaseMirrorsPress | source/aelkey_keyboard.lua:141-183 | a key's release undoes its press, code by code and in reverse, whatever happened in between |
| RemapperProperties.FnKeySwitches | source/aelkey_keyboard.lua:141-183 | a key mapped to KEY_FN alone puts nothing out and turns the Fn layer on while it is held, whatever other keys do |
| RemapperProperties.OtherKeysPress | source/aelkey_keyboard.lua:141-163 | any other key puts out a press for each of its codes, in order, and leaves the Fn layer as it is |
| RemapperProperties.OthersIgnored | source/aelkey_keyboard.lua:131-193 | repeats, other events, releases of keys that are not active and presses that give nothing change nothing |
| HidUsages.ModifierUsages | source/aelkey_keyboard.lua:263-438 | the usages that name a modifier are 0x8E, 0x91 and 0xE0 to 0xE7, and none names KEY_FN |
| HidUsages.LettersInOrder | source/aelkey_keyboard.lua:263-438 | usages 0x04 to 0x1D are the letters in the order of the alphabet |
| HidUsages.DigitsInOrder | source/aelkey_keyboard.lua:263-438 | the digits 1 to 9 and 0 follow |
| HidUsages.FunctionKeysInOrder | source/aelkey_keyboard.lua:263-438 | usages 0x3A to 0x45 are F1 to F12 |
| HidUsages.KeypadInOrder | source/aelkey_keyboard.lua:263-438 | usages 0x59 to 0x62 are the keypad's digits 1 to 9 and 0 |
| HidReport.Parser.ParseReport | source/aelkey_keyboard.lua:446-512 | the four lists of events are the differences of the named sets, each code once, in any order; a short report changes nothing |
| HidReport.Parser.DecodeKeys | source/aelkey_keyboard.lua:469-477 | the keys named by bytes three to eight, all six of them, without zero bytes and unknown usages |
| HidReport.ModsTellByte | source/aelkey_keyboard.lua:458-466 | the modifier byte can be computed back from the modifiers that it names |
| HidReport.ParseShuffled | source/aelkey_keyboard.lua:446-512 | two reports whose six key bytes are a permutation of each other leave the same keys |
| HidReport.ParseOneKey | source/aelkey_keyboard.lua:446-512 | a usage that has a key, at any one of the six places with zeros elsewhere, leaves exactly that key, and a released parser presses it once, or twice if its modifier bit is set as well |
| HidReport.DiffPresses | source/aelkey_keyboard.lua:479-505 | how often a report's events press and release each code: once for each of the two sets in which it is new or gone |
| KeyboardPipeline.DownOfDiff | source/aelkey_keyboard.lua:479-505 | which keys are down after a report's events, and when they press a key that is down |
| KeyboardPipeline.DiffPressesHeldIff | source/aelkey_keyboard.lua:479-505 | a report presses a held key if and only if it names a modifier that it or the report before names in key bytes |
| KeyboardPipeline.DiffPressesHeldModifier | source/aelkey_keyboard.lua:479-505 | if a report presses a key that is down, then a modifier that it names |
| KeyboardPipeline.RunFollows | source/aelkey_keyboard.lua:131-193 | only keys that are down are active, and nothing is lost unless a held key is pressed |
| KeyboardRuns.OnlyNamedKeysActive | source/aelkey_keyboard.lua:446-512 | at every moment only keys that the last report names are active |
| KeyboardRuns.PressesHeldIffNotSeparate | source/aelkey_keyboard.lua:446-512 | a run presses a held key if and only if some report names a modifier that it or the report before names in key bytes |
| KeyboardRuns.NothingStaysStuck | source/aelkey_keyboard.lua:131-193 | a report with nothing pressed leaves no key active; all is released but what was lost; with separate reports nothing was lost and the Fn layer is off |
| KeyboardRuns.PlainRunIsSeparate | source/aelkey_keyboard.lua:446-512 | reports whose key bytes name no modifier are separate |
| KeyboardRuns.NotSeparateLoses | source/aelkey_keyboard.lua:131-193 | where modifiers always have an output, a modifier that is down is active and reports that are not separate lose something |
| KeyboardRuns.ReleasesAllIff | source/aelkey_keyboard.lua:131-193 | where modifiers always have an output, and with any Fn switching, everything is released in the end if and only if the reports are separate |
| KeyboardRuns.UnreliableHides | source/aelkey_keyboard.lua:97-123 | under any other mappings some run is not separate and yet releases everything |
| KeyboardRuns.UnmappedReleasesAllIff | source/aelkey_keyboard.lua:131-193 | the equivalence holds without mappings |
| KeyboardRuns.DoubledModifierSticks | source/aelkey_keyboard.lua:446-512 | Left Ctrl as a bit and as a key byte of one report is pressed twice and released once |
| KeyboardRuns.RunCalls | source/aelkey_keyboard.lua:131-231 | parser and remapper together, with Fn switching: reports that are separate, as those whose key bytes name no modifier are, and end with nothing pressed release every code as often as they press it; where modifiers always have an output, only those do |
| Subsequences.GreedyIsLongest | source/aelkey_sequence.lua:145-172 | greedy progress is the longest prefix of the pattern that is a subsequence of the inputs |
| Subsequences.CompleteIffEmbeds | source/aelkey_sequence.lua:145-172 | greedy progress completes a pattern if and only if it is a subsequence |
| SequenceLog.Accounting | source/aelkey_sequence.lua:37-83 | every session that started ended once: by a timeout in stream mode, otherwise by a match, a timeout or a silent reset; one may be open |
| SequenceLog.LegalIsUnique | source/aelkey_sequence.lua:37-188 | a list of operations has at most one legal log |
| SequenceLog.LegalIsOrderly | source/aelkey_sequence.lua:37-188 | in every legal log sessions begin when none is open, and match, time out and get reset only while one is |
| SequenceLog.LegalRests | source/aelkey_sequence.lua:85-188 | after every legal log no pattern is complete, and none has begun while no session is open |
| SequenceLog.SessionTimesOut | source/aelkey_sequence.lua:73-83 | in every legal log, an open session times out at a heartbeat exactly if more than `threshold` have come since the last input; ignored inputs and changes of patterns do not count as input |
| SequenceLog.NothingTimesOut | source/aelkey_sequence.lua:73-83 | nothing times out before a session has begun |
| Sequence.Matcher.AddPattern | source/aelkey_sequence.lua:58-66 | an empty pattern is ignored, any other appended |
| Sequence.Matcher.ClearPatterns | source/aelkey_sequence.lua:68-71 | patterns and progress are gone; a session stays open |
| Sequence.Matcher.Reset | source/aelkey_sequence.lua:37-56 | ends the session, with a timeout callback in stream mode only, and forgets all progress |
| Sequence.Matcher.Tick | source/aelkey_sequence.lua:73-83 | a session times out exactly when more heartbeats than the threshold have passed since the last input |
| Sequence.Matcher.StartPatterns | source/aelkey_sequence.lua:93-106 | whether the input starts a pattern or completes one of length one, and the progress it leaves |
| Sequence.Matcher.AdvancePatterns | source/aelkey_sequence.lua:148-172 | whether the input completes some pattern, and otherwise one step of progress for each |
| Sequence.Matcher.Detect | source/aelkey_sequence.lua:85-188 | an input is ignored exactly without patterns; otherwise it begins a session exactly if none is active and it starts a pattern, and a match fires exactly if it completes a pattern, the opening input counting twice |
| SequenceRuns.RunOps | source/aelkey_sequence.lua:37-188 | every run of presses, heartbeats, resets and changes of patterns leaves the legal log of its operations, with its callbacks and its progress; sessions are accounted for, and where the patterns allow it matches and progress are those of subsequence matching |
| SequenceMatches.MatchesRightIff | source/aelkey_sequence.lua:93-172 | matches fire on exactly the inputs that make a pattern a subsequence, in every legal log of fixed patterns, if and only if the rest of each pattern that begins with a button twice contains a pattern |
| SequenceMatches.ProgressRightIff | source/aelkey_sequence.lua:93-172 | progress is the longest prefix that is a subsequence, in every such log, if and only if the button of each such pattern is a pattern alone or twice |
| SequenceMatches.LegalIsNear | source/aelkey_sequence.lua:93-172 | counting the opening input twice leaves a pattern as it is or puts one that begins with a button twice one ahead of its rest |
| SequenceMatches.UnsafeMatch | source/aelkey_sequence.lua:93-172 | where such a rest contains no pattern, pressing that rest fires a wrong match |
| SequenceMatches.UnsafeProgress | source/aelkey_sequence.lua:93-172 | where such a button is no pattern alone or twice, pressing it once makes too much progress |
| SequenceMatches.RepeatedButtonMatchesAtOnce | source/aelkey_sequence.lua:93-172 | in every legal log of one press, a pattern of that button twice matches at once, though it is no subsequence of it |
| SequenceMatches.FixedBegins | source/aelkey_sequence.lua:85-122 | while patterns stay, an input is ignored only without patterns, and begins a session exactly if none is open and it is the first button of a pattern |
| Shaping.SmoothstepIsShape | source/aelkey_filter.lua:171-173 | smoothstep rises strictly from 0 to 1, is its own mirror image, and nowhere steeper than 1.5 |
| Shaping.SmootherstepIsShape | source/aelkey_filter.lua:175-177 | the same for smootherstep, with slope 1.875 |
| Shaping.LinearIsShape | source/aelkey_filter.lua:159-161 | the same for the linear function, with slope 1 |
| Bisection.InvertEase | source/aelkey_filter.lua:180-202 | ends for every positive threshold after the least number of halvings; the answer is the end probed last of the cell where the function reaches the value |
| Bisection.EndsIffPositive | source/aelkey_filter.lua:185 | some number of halvings brings the interval down to the threshold if and only if the threshold is positive |
| Bisection.InverseIsUnique | source/aelkey_filter.lua:180-202 | for an increasing function that promise has one answer |
| Bisection.InverseIsClose | source/aelkey_filter.lua:180-202 | for an increasing function the answer is within the threshold of the true preimage |
| Bisection.ResidualIsSmall | source/aelkey_filter.lua:180-202 | for a shape and any value in [0,1], the function at the answer is within slope times threshold of the value |
| Bisection.SmoothstepResidual | source/aelkey_filter.lua:171-202 | for smoothstep and any value in [0,1] the residual is at most one and a half thresholds |
| Bisection.SmootherstepResidual | source/aelkey_filter.lua:175-202 | for smootherstep at most 1.875 thresholds |
| Bisection.InverseIsInside | source/aelkey_filter.lua:182-192 | the answer is in [0,1), and 0 if and only if the threshold is 1 or more |
| Bisection.HitGoesBelow | source/aelkey_filter.lua:190-198 | where the function takes the value at the first probe, the search goes on below it |
| Easing.Channels.Easing | source/aelkey_filter.lua:214-322 | the exact new state and answer of a query, an initialization and an update, with the error cases |
| Easing.Channels.Query | source/aelkey_filter.lua:219-242 | the value is the channel's position at the given time; unknown and incomplete channels answer nothing |
| Easing.Channels.Initialize | source/aelkey_filter.lua:245-273 | the channel starts at the time of the call with the value given; missing arguments are inherited, a target other than 0 and 1 tells the direction, and without any target the call fails |
| Easing.Channels.Update | source/aelkey_filter.lua:276-322 | restarts from the current value at the phase that inverts the way travelled |
| EasingRuns.RunCalls | source/aelkey_filter.lua:214-322 | the channels make a run of every list of calls, answer by answer; as long as starting values, functions and clock are proper, every channel and answer stays in [0,1] and no time step is negative |
| EasingRuns.RunKeepsRange | source/aelkey_filter.lua:214-322 | the same of every run, at every moment up to which its calls are proper |
| EasingRuns.PositionInRange | source/aelkey_filter.lua:233-238 | a position lies between the end points and in [0,1] |
| EasingRuns.NormInUnit | source/aelkey_filter.lua:303-307 | what is handed to the inversion lies in [0,1], on a reversal too |
| EasingRuns.NormLocates | source/aelkey_filter.lua:205-211 | normalizing inverts travelling, in either direction |
| EasingRuns.JourneyEnds | source/aelkey_filter.lua:233-238 | a channel is at `init` until its start and at `target` from its end on |
| EasingRuns.JourneyApproaches | source/aelkey_filter.lua:233-238 | a later position is never further from the target and never beyond it |
| EasingRuns.ResumedPhase | source/aelkey_filter.lua:309-318 | an update makes the channel resume at the phase it found |
| EasingRuns.PhaseFitsOldEndpoints | source/aelkey_filter.lua:303-310 | measured from the old end points that phase gives back the current value, up to slope times threshold |
| EasingRuns.UpdateKeepsValueIff | source/aelkey_filter.lua:309-321 | a query right after an update answers the current value if and only if it equals the new target or the threshold is 1 or more |
| EasingRuns.UpdateJumpSize | source/aelkey_filter.lua:309-321 | otherwise it answers a value ahead by the fraction already travelled, up to slope times threshold |
| EasingRuns.UpdateJumps | source/aelkey_filter.lua:214-322 | in every run of a start from rest, an update and a query at one instant, the value is 0 until the update and more right after it |
| EasingJourneys.StartThenQuery | source/aelkey_filter.lua:219-273 | in every run: a start answers its initial value, and later queries answer that value until the time of the call, the end from the duration on, and in between the place that the function says; the end is 0 or 1, wanted or in the wanted direction |
| EasingJourneys.RestartThenQuery | source/aelkey_filter.lua:245-273 | the same for a second start, which takes target, duration and function from the first one unless it brings its own |
| EasingJourneys.RedirectThenQuery | source/aelkey_filter.lua:276-322 | in every run: an update that names a target answers the last answered value, and later queries are on the way from there to the new end, ahead by the inverse of the part already travelled, with the threshold 0.00001 unless one was given |
| EasingJourneys.AnswersAreLinked | source/aelkey_filter.lua:214-322 | in every run: a query answers the time since the channel's last answer, any other call zero, and an update the last answered value |
| EasingJourneys.FirstCall | source/aelkey_filter.lua:219-280 | a channel answers nothing before its first start, and a first start without a target fails |
| EasingJourneys.IncompleteAnswersNothing | source/aelkey_filter.lua:225-228 | a channel first started without a duration or a function answers no query; without any duration an update fails |
| Effects.RebuiltIsKnown | source/dispatcher_haptics.cc:275-309 | a rebuilt effect is of a known type, feels the same exactly if the original was, and otherwise is a rumble of 0x4000 that keeps everything else, with length 250 if it had none; rebuilding is idempotent |
| EffectSlots.EvictSlots | source/dispatcher_haptics.cc:83-86 | removes exactly the cached ids from the device and empties the cache |
| EffectSlots.UploadEffect | source/dispatcher_haptics.cc:72-97 | one upload with at most one eviction: what changes on success, on lack of room and on rejection |
| EffectSlots.UploadSucceedsIff | source/dispatcher_haptics.cc:82-94 | on a tidy sink an upload succeeds if and only if the device can hold one effect and knows the type |
| EffectSlots.UploadKeepsOthers | source/dispatcher_haptics.cc:82-94 | while an id is free, an upload loses nothing that is cached or on the device |
| EffectSlots.EvictionEmpties | source/dispatcher_haptics.cc:83-86 | evicting a tidy sink leaves no effect on the device, so that only a device of capacity 0 is full |
| EffectSlots.StoreIsTidyIff | source/dispatcher_haptics.cc:163-184 | storing a new id keeps cached ids and device ids the same if and only if the key was not in use |
| EffectSlots.PurgeKeepsTidy | source/dispatcher_haptics.cc:57-69 | erasing a key keeps cached ids and device ids the same |
| EffectSources.TracksDefined | source/dispatcher_haptics.cc:99-118 | after an upload the sources still hold exactly the last definition of every effect |
| EffectSources.PurgeKeepsCoherent | source/dispatcher_haptics.cc:53-70 | whatever becomes of one effect, purging its key keeps every other cached effect equal to its definition |
| EffectSources.StoreKeepsCoherent | source/dispatcher_haptics.cc:163-169 | an upload stored under its own key keeps the cache coherent, across an eviction |
| Haptics.RegisterKeepsSane | source/dispatcher_haptics.cc:21-34 | registering a source keeps the invariant, and leaves every cached effect defined if and only if none of that source was cached |
| Haptics.PlayStepMeans | source/dispatcher_haptics.cc:147-184 | one request keeps the sink's invariant, succeeds exactly when it should, and then the device holds what was meant |
| Haptics.PlayIsHeard | source/dispatcher_haptics.cc:131-196 | a request is heard if and only if sink and device can play it, as one start event for an id that holds the effect |
| Haptics.DirectPlayIsLatest | source/dispatcher_haptics.cc:131-196 | with every cached effect still defined, a direct request plays the last upload or nothing |
| Haptics.AllPlayLatestIff | source/dispatcher_haptics.cc:147-170 | direct requests play the last upload or nothing if and only if every cached effect is still defined |
| Haptics.ForgottenIsPlayed | source/dispatcher_haptics.cc:147-151 | a cached effect that is no longer defined is started on request |
| Haptics.DispatcherHaptics.RegisterSource | source/dispatcher_haptics.cc:21-34 | the source is new and empty; nothing else changes |
| Haptics.DispatcherHaptics.RegisterSink | source/dispatcher_haptics.cc:42-51 | a sink starts with an empty cache; a negative descriptor is ignored |
| Haptics.DispatcherHaptics.PropagateEraseToSinks | source/dispatcher_haptics.cc:53-70 | every sink loses the key and its device the id |
| Haptics.DispatcherHaptics.UploadEffectToSink | source/dispatcher_haptics.cc:72-97 | one sink changes, as one upload says; an unknown sink gives -1 |
| Haptics.DispatcherHaptics.CreatePersistentEffect | source/dispatcher_haptics.cc:99-118 | the id, the definition, the purge, and the source that is registered if it was unknown; the invariant stays |
| Haptics.DispatcherHaptics.ErasePersistentEffect | source/dispatcher_haptics.cc:120-129 | the effect is gone from its source and from every sink, unless the source is unknown; the invariant stays |
| Haptics.DispatcherHaptics.PlayEffect | source/dispatcher_haptics.cc:131-196 | exactly what changes, the invariant, and that the last upload is played or nothing |
| Haptics.DispatcherHaptics.StopEffect | source/dispatcher_haptics.cc:198-226 | stops the cached id if there is one, and the device has that id |
| Haptics.DispatcherHaptics.HandleUpload | source/dispatcher_haptics.cc:311-341 | after both requests succeed the rebuilt effect is defined and purged everywhere; otherwise nothing changes |
| Haptics.DispatcherHaptics.HandleErase | source/dispatcher_haptics.cc:343-367 | an erasure is done even if it cannot be confirmed, and reported as failed then |
| Haptics.DispatcherHaptics.HapticsPlay | source/aelkey_haptics.cc:36-54 | a script's request plays the last upload if the source defines the effect and its own one-shot otherwise, if and only if the device can |
| HapticsRuns.RunOps | source/dispatcher_haptics.cc:21-367 | whatever the operations, the dispatcher makes a run of them, moment by moment; up to the first use of the reserved name caches are coherent, injective and without leaks and every request plays what it should |
| HapticsRuns.Do | source/dispatcher_haptics.cc:21-367 | the whole new state and the result of each of the nine operations |
| HapticsRuns.StepKeeps | source/dispatcher_haptics.cc:21-367 | one proper operation keeps the invariant, and every cached effect defined unless a source is registered over its cached effects |
| HapticsRuns.RunKeeps | source/dispatcher_haptics.cc:21-367 | both hold at every moment of every run up to which the operations are proper |
| HapticsRuns.RunPlaysAsSaid | source/dispatcher_haptics.cc:131-196 | in every such run each request plays the last upload or its own one-shot, if and only if the device can |
| HapticsRuns.UploadIsPlayed | source/dispatcher_haptics.cc:131-341 | in every run, from a successful upload to a later request: unless the effect was touched in between, a sink that can play it starts it with all its fields, or for an unknown type a rumble of 0x4000 with the uploaded length or 250 |
| HapticsRuns.CreatedIsPlayed | source/dispatcher_haptics.cc:99-196 | the same for an effect that a script created, under the id that it got |
| HapticsRuns.ErasedIsNotPlayed | source/dispatcher_haptics.cc:120-196 | in every run, after an erasure a request starts the effect that it brings, and a direct request that brings none starts nothing while nothing cached was forgotten |
| HapticsRuns.CreatedIdsDiffer | source/dispatcher_haptics.cc:99-118 | effects created without an id get increasing ids, all sources together |
| HapticsRuns.OneShotIsTidyIff | source/dispatcher_haptics.cc:171-184 | a one-shot keeps cached ids and device ids the same if and only if its key was not in use |
| HapticsRuns.ReservedNameLeaks | source/dispatcher_haptics.cc:171-184 | every run that plays an effect of a source with the reserved name and then a one-shot leaks a device effect |
| HapticsRuns.ForgottenEffectPlays | source/dispatcher_haptics.cc:21-34 | in every run that plays an effect, registers its source again and plays it again, the effect is started although it is defined no more |

## Left out

- Touchpad.Tracker.EndFrame: does not model clickpad buttons, which go through an edge table that all trackers share (source/aelkey_touchpad.lua:358-402).
- Touchpad.Tracker.FeedContact: x and y are integers, contacts carry no buttons, and a pressure is stored as it comes; a contact that stays but stops touching gets no ending event, so it stays on the receiver at its last touching position.
- Remapper.LayerPrecedence: mapping tables are values that do not change after the keyboard is made, and mapped codes are names or other codes, not nested tables.
- Sequence.Matcher.Detect: callbacks are entries in a trace and do not call back into the matcher; `window`, `interval` and `stream` are set before the first call, so the threshold is given.
- Bisection.InvertEase: needs a positive threshold, for without one the loop of the source does not end over the reals (`Bisection.EndsIffPositive`); rounding of floating-point numbers is not modelled.
- Easing.Channels.Easing: does not model the undefined number that a query of a channel without duration computes at its very start; an update that inverts a function needs a positive threshold; ease functions take no extra arguments.
- Easing.Channels.Update: needs a positive threshold where there is a function to invert, because the source does not return otherwise.
- EasingRuns.RunCalls: durations are not zero and thresholds positive; what it promises, it promises for starting values in [0,1], functions from [0,1] to [0,1] and a clock that does not run backwards.
- HapticsRuns.RunOps: promises only that the run follows its operations once a source has taken the name reserved for one-shots or a device was not empty when opened; what can happen then is stated by `HapticsRuns.OneShotIsTidyIff`.
- Haptics.DispatcherHaptics.RegisterSink: each sink has a device of its own, opened empty, and removing an effect that a device has does not fail; what the device of a replaced sink held is not followed further.
- Haptics.DispatcherHaptics.CreatePersistentEffect: the counters of ids do not overflow.
- `ease_exp` and `ease_poly`, and the low-pass and high-pass filters: transcendental functions or easy members.
- Conversion of effects to and from Lua tables, callbacks on play and stop, and the event loop that reads requests.
- The other commands of the touchpad and keyboard scripts that copy pending events, and logging.
- Mouse, edge, tracker, ticker, click and dump helpers: they would add easy members.
- evdev, hidraw, libusb, D-Bus, udev and uinput backends, and the deferred unregistration of the dispatcher, which nothing calls.
