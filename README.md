# Pioneer AV receiver state object, in Dafny

This project models `PioneerDevice`, the Home Assistant media-player entity
that drives a Pioneer AV receiver over its plain-text telnet protocol. The
model covers three parts:

- **The state mirror.** The receiver pushes newline-terminated status lines.
  `parseData` applies one line to the entity's fields:
  - power, mute, volume;
  - the selected input source;
  - two source dictionaries, name to number and number to name.
- **The outbound writer.** `telnet_command` writes a command as ASCII text
  followed by a carriage return. It writes only while the connection flag is
  up and a writer exists.
- **The command operations built on the writer.** These are power on and off,
  volume steps, the volume ramp behind "set volume level", mute, source
  selection and the source-table query.

Modules:

- `Builtins` covers the Python behaviour the code depends on:
  - slicing that clamps its bounds;
  - `dict.get`;
  - `int()` on text, including the white space it skips around a literal, a sign and `_`
    separators, raising ValueError otherwise;
  - `str()` of an integer;
  - `str.zfill`;
  - `str.encode("ASCII")`.
- `Protocol` holds the `DeviceState` value and `ParseLine`, the effect of one
  inbound line. `ParseLine` returns an error result wherever the Python code
  raises out of `parseData`. It also holds the invariant `Valid`:
  - the source list has no duplicates;
  - the source list names exactly the keys of the name map;
  - every number in one map is a key of the other map, and vice versa.
  - the selected source is none, the initial "", or a key of the name map.
- `Telnet` holds the connection as a value, `Conn`. `Send` is
  `telnet_command`, and `SendAll` is several calls to it in a row.
- `Commands` holds the command text each operation sends and the volume-ramp
  arithmetic.
- `Device` holds the class `PioneerDevice`. Its fields are the state
  fields `parseData` writes (with the key order of the name dict as
  `sourceNames`), `hasConnection`, and a writer flag with the bytes the
  writer accepted. The connection details, `reader`, `processed`,
  `_async_added` and `_stop_listen` have no field. Each method's
  postcondition ties the new fields to the `Protocol`, `Telnet` or
  `Commands` function that specifies it.

Inbound lines are taken exactly as decoded, without stripping. So a name
registered by an `RGB` line keeps its trailing `\r\n`, as `SourceExample`
shows.

Four behaviours of the code are worth stating plainly, and the model keeps
each of them:

- The two source maps are not kept exact inverses. The code only adds
  entries, so moving a name to a new number leaves the old number pointing
  at it (`AddSourceBreaksInverse`). The invariant the code keeps is the
  weaker `Linked` one.
- The volume ramp's step count is the halved difference truncated toward
  zero, not rounded.
- `parseData` lets `IndexError` (a `PWR` or `MUT` line with nothing after
  the prefix) and `ValueError` (a `VOL` line `int()` rejects) escape. The
  model returns them as `Err`.
- Selecting an unknown source raises TypeError (`None + "FN"`) and sends
  nothing.

Whether the transport accepts a write is decided outside the code, write by
write. Every sending operation therefore takes the transport's answer as a
parameter: `refused` for one write, or `refused(i)` for the `i`-th write of
a run.

## Model

| member | source | states |
|---|---|---|
| Device.PioneerDevice.constructor | media_player.py:85-104 | powered off, unmuted, volume 0, selected source "", the configured dict and its inverse, no connection or writer; the state satisfies the invariant |
| Protocol.InitialValid | media_player.py:94-95 | the configured sources (distinct names) give a state satisfying the invariant |
| Protocol.InitialLookup | media_player.py:94 | each configured name maps to its configured number |
| Protocol.InitialRightInverse | media_player.py:95 | each number of the inverse dict names a configured name that has that number |
| Protocol.InitialLaterWins | media_player.py:95 | with two names for one number, the inverse dict keeps the later one: a configured name maps back from its number exactly when no later entry carries that number |
| Protocol.NameMapKeys | media_player.py:94 | the name dict's keys are exactly the configured names |
| Protocol.NumberMapKeys | media_player.py:95 | the number dict's keys are exactly the configured numbers |
| Protocol.ParseLine | media_player.py:161-215 | a failure is IndexError or ValueError, nothing else |
| Device.PioneerDevice.ParseData | media_player.py:161-215 | on success returns "" and the new state is the one ParseLine gives; on an exception nothing changes; the connection is untouched; a valid state stays valid |
| Device.PioneerDevice.ApplyLine | media_player.py:161-210 | the field-by-field branches give exactly ParseLine's state, or leave everything unchanged on IndexError or ValueError |
| Protocol.ParseLineFails | media_player.py:177-194 | a line raises exactly when it is `PWR` or `MUT` with nothing after the prefix, or `VOL` followed by text `int()` rejects |
| Protocol.PowerLine | media_player.py:177-181 | a `PWR` line turns power off exactly when character 3 is '1' or '2', and changes nothing else |
| Protocol.MuteLine | media_player.py:185-189 | a `MUT` line unmutes exactly when character 3 is '1', and changes nothing else |
| Protocol.VolumeLine | media_player.py:193-194 | a `VOL` line with three digits sets the volume to their positional value, and changes nothing else |
| Protocol.VolumeAnyLine | media_player.py:193-194 | a `VOL` line whose `data[3:6]` `int()` accepts sets the volume to that number and changes nothing else |
| Protocol.VolumeRejectsLine | media_player.py:193-194 | a `VOL` line whose `data[3:6]` holds a character `int()` cannot read raises ValueError |
| Protocol.LetterVolumeExample | media_player.py:193-194 | `VOLxx\r\n` raises ValueError |
| Protocol.SeparatorVolumeExample | media_player.py:193-194 | `VOL` U+001C `12` raises ValueError, as `int()` does not skip U+001C |
| Protocol.ShortVolumeExample | media_player.py:193-194 | `VOL5\r\n` sets the volume to 5, as `int("5\r\n")` skips the white space |
| Protocol.VolumeExample | media_player.py:193-194 | `VOL085\r\n` sets the volume to 85 |
| Protocol.SourceLine | media_player.py:165-174 | an `FN` line selects the name mapped at characters 2-3 (clamped), none when that number is unmapped or the line ends after the prefix, and changes nothing else |
| Protocol.SourceEntryLine | media_player.py:198-204 | after an `RGB` line, name (from character 6) and number (characters 3-4) map to each other, no key is removed, other entries are kept, the source list only grows, other fields do not change |
| Protocol.SourceExample | media_player.py:198-204 | the name `RGB05 Aux\r\n` registers keeps its terminator, and `FN05` then selects it |
| Protocol.IgnoredLine | media_player.py:206-210 | `E` lines and lines with no known prefix change nothing |
| Protocol.ParseLineMaps | media_player.py:161-215 | only an `RGB` line changes the maps and the source list |
| Protocol.ParseLineIdempotent | media_player.py:161-215 | applying a line a second time changes nothing more |
| Protocol.ParseLinePreservesValid | media_player.py:161-215 | every successfully applied line keeps the invariant, including that the selected source is none, "" or a known name |
| Protocol.SourceLineKeepsValid | media_player.py:165-174 | an `FN` line always succeeds and keeps the invariant |
| Protocol.SourceLineShape | media_player.py:165-174 | an `FN` line changes only the selected source, to none or to the name the inverse dict maps characters 2-3 to |
| Protocol.SelectKeepsValid | media_player.py:170-174 | selecting none or a name the inverse dict holds keeps the invariant |
| Protocol.FlagLineKeepsValid | media_player.py:177-194 | a successful `PWR`, `MUT` or `VOL` line keeps the invariant |
| Protocol.FlagLineShape | media_player.py:177-194 | a successful `PWR`, `MUT` or `VOL` line changes at most power, mute and volume |
| Protocol.ValidIgnoresFlags | media_player.py:177-194 | the invariant does not depend on power, mute or volume |
| Protocol.InitialLinked | media_player.py:94-95 | for distinct configured names, the name dict and its inverse point at each other |
| Protocol.AddSourceTwice | media_player.py:198-204 | registering the same name and number a second time leaves the state as the first time left it |
| Protocol.AddSourcePreservesValid | media_player.py:198-204 | registering a source keeps the invariant |
| Protocol.AddSourceKeepsInverse | media_player.py:203-204 | a new entry whose name and number were unmapped or already paired keeps the maps exact inverses |
| Protocol.AddSourceBreaksInverse | media_player.py:203-204 | moving `Aux` from `05` to `06` leaves `05` still naming `Aux`, so the maps are no longer inverses |
| Telnet.Send | media_player.py:218-236 | the link stays up exactly when it was up, a writer exists, the command is ASCII and this write is not refused; the command and CR are appended exactly when it stays up; the writer is unchanged |
| Device.PioneerDevice.TelnetCommand | media_player.py:218-236 | the connection becomes what Send gives for this write's outcome; the device state is unchanged |
| Telnet.SendAllWhileUp | media_player.py:218-236 | on a link with a writer, when every command is ASCII and no write is refused, every command's frame reaches the wire in order |
| Telnet.SendAllStaysUp | media_player.py:218-236 | after a run the link is up exactly when it was up, had a writer (for a non-empty run), every command was ASCII and no write was refused; the writer is unchanged |
| Telnet.SendAllWhileDown | media_player.py:221 | once the flag is down, no command writes anything or raises it again |
| Telnet.SendAllWritesPrefix | media_player.py:218-236 | for any pattern of refused writes, the wire receives whole frames of the first k commands, whose writes were all accepted; command k, if any, found the link down or no writer, was not ASCII, or was refused; the link is up at the end exactly when all of a non-empty run went out |
| Telnet.Frame | media_player.py:228 | one byte per character of the command, then CR |
| Builtins.EncodeAscii | media_player.py:228 | encoding succeeds exactly when every character is below 128, and then gives one byte per character with the character's code |
| Telnet.SendFourWhileUp | media_player.py:218-236 | four commands on a working link put their four frames on the wire, in order, and the link stays up |
| Device.PioneerDevice.OpenConnection | media_player.py:128-135 | after connecting, a fresh writer and the raised flag carry the power, volume, mute and source queries, each with its own write outcome |
| Commands.BaselineWire | media_player.py:128-135 | when all four writes are accepted the queries put `?P` CR `?V` CR `?M` CR `?F` CR on the wire and the flag stays up; when the first is refused, nothing is written and the flag is down |
| Device.PioneerDevice.TurnOff | media_player.py:282-284 | sends `PF` |
| Device.PioneerDevice.VolumeUp | media_player.py:286-288 | sends `VU` |
| Device.PioneerDevice.VolumeDown | media_player.py:290-292 | sends `VD` |
| Device.PioneerDevice.MuteVolume | media_player.py:308-310 | sends `MO` to mute and `MF` to unmute |
| Device.PioneerDevice.TurnOn | media_player.py:312-320 | sends "", "\nPO", "", "?P" in that order |
| Commands.TurnOnWire | media_player.py:312-320 | on a link with a writer that accepts all four writes, those commands put CR, LF 'P' 'O' CR, CR, '?' 'P' CR on the wire |
| Commands.RampSteps | media_player.py:302 | the step count is half the distance to the goal, truncated: `2*steps <= |current-goal| < 2*steps+2` |
| Commands.RampCommands | media_player.py:298-306 | one command per step, all `VU` when below the goal and all `VD` otherwise, none when the distance is under 2 |
| Device.PioneerDevice.SetVolumeLevel | media_player.py:294-306 | the loop sends exactly RampCommands, in order, step x with write outcome refused(x), and changes no state field |
| Commands.RampLandsNearGoal | media_player.py:298-306 | at two units per step the ramp never passes the goal and stops less than one step short |
| Commands.RampExample | media_player.py:294-306 | from raw 50 to raw 30 the ramp is ten `VD` commands |
| Commands.RampWire | media_player.py:302-306 | on a link with a writer that accepts every step's write, the ramp writes three bytes per step |
| Commands.SelectCommand | media_player.py:322-324 | the command exists exactly for a known name and is its number followed by `FN`; an unknown name is TypeError |
| Device.PioneerDevice.SelectSource | media_player.py:322-324 | a known name sends its number and `FN`; an unknown one raises TypeError and sends nothing |
| Commands.SelectThenReport | media_player.py:165-174 | with inverse maps and a two-character number, the device's `FN` answer to a select selects that source |
| Commands.QueryCommand | media_player.py:117-118 | `?RGB` then the index, which reads back as the index under `int()`; for 0..99 exactly two digits |
| Device.PioneerDevice.QuerySource | media_player.py:117-118 | sends QueryCommand(num) |
| Builtins.ParseIntZFill | media_player.py:118 | `int(str(n).zfill(w)) == n` for every integer and width (Python's 4300-digit limit aside) |
| Builtins.ParseIntStr | media_player.py:118 | `int(str(n)) == n` for every integer (Python's 4300-digit limit aside) |
| Builtins.ParseDigits | media_player.py:194 | `int()` of a non-empty run of ASCII digits is its positional value (Python's 4300-digit limit aside) |
| Builtins.ZFillNegative | media_player.py:118 | `zfill` of a negative number's text keeps the minus sign in front and puts the zeros after it |
| Builtins.ParseInt | media_player.py:194 | `int()` of text fails only with ValueError (what it accepts is pinned by ParseDigits, ParseIntStr and ParseIntZFill, what it rejects by ParseIntRejects) |
| Builtins.ParseIntRejects | media_player.py:194 | `int()` raises ValueError on text holding any character other than skipped white space, a digit, `_` or a sign; U+001C to U+001F are not skipped |
| Builtins.ParseThreeDigits | media_player.py:194 | three ASCII digits read by `int()` give their positional value |
| Device.PioneerDevice.PowerState | media_player.py:250-255 | "on" exactly when powered, "off" exactly when not |
| Device.PioneerDevice.SourceList | media_player.py:277-280 | names every key of the name dict, each once |
| Device.PioneerDevice.Source | media_player.py:272-275 | in a valid state the reported source is none, the initial "", or a name of the source list |
| Device.PioneerDevice.IsVolumeMuted | media_player.py:262-265 | reports the mute flag of the state, the field MuteLine shows a `MUT` line sets |

## Left out

- The receive loop `readdata` is not modelled: connecting, `readuntil`, the 30-second reconnect sleep, the never-true `strip() is None` check and the `asyncio.Condition` notify are transport and concurrency. Only the step right after a successful connect is modelled, as `OpenConnection`.
- `QuerySource` models only the command `query_source` sends. Its wait on the condition for the next processed line is concurrency.
- The source discovery loop in `async_setup_platform`, with its timeouts, is not modelled.
- Home Assistant plumbing is not modelled: the platform schema, `supported_features`, `async_added_to_hass`, the state-update scheduling at the end of `parseData`, `stop_pioneer` and `async_update`.
- `volume_level` (`_volume / MAX_VOLUME`) is not modelled, and `set_volume_level`'s `int(volume * MAX_VOLUME)` is not modelled either. Both are floating point, so `SetVolumeLevel` takes the raw integer goal.
- Commands.RampSteps: computes `abs(int(d / 2))` exactly, while Python divides in floating point. That loses precision for differences beyond 2^53 and raises OverflowError once the quotient no longer fits in a float (about 2^1024). The code never gets near either: the current volume comes from at most three characters of a `VOL` line and the goal from a share of `MAX_VOLUME` (160).
- The `time.sleep(0.1)` pacing in `turn_on`, logging and `print` are not modelled.
- Which exception `writer.write` raises is not modelled. Each write's outcome is a parameter (`refused`), and every refusal drops the flag, as both `except` clauses do.
- A command with a non-ASCII character is modelled as dropping the flag, because the bare `except` in `telnet_command` catches the encode error.
- Builtins.ParseInt: accepts only ASCII digits, while Python's `int()` also accepts other Unicode decimal digits. It also has no length limit, while `int()` of text with more than 4300 digits raises ValueError (`sys.int_info.default_max_str_digits`, Python 3.11 and the 3.7-3.10 security releases). Line 194 parses at most three characters.
- Builtins.ParseIntRejects: treats a non-ASCII decimal digit as a rejected character, though Python's `int()` reads it.
- Builtins.ParseDigits: does not model the 4300-digit limit of `int()`; the code parses at most three characters.
- Builtins.ParseIntStr: does not model the 4300-digit limit, beyond which both `str(n)` and `int(s)` raise ValueError; the code formats only the source indices 0..59 (`MAX_SOURCE_NUMBERS`).
- Builtins.ParseIntZFill: does not model the 4300-digit limit, for the same reason as ParseIntStr.
- Builtins.Str: is total, while `str(n)` raises ValueError for more than 4300 digits; the code formats only indices 0..59.
- Commands.QueryCommand: claims the index reads back for every integer, which through `Str` leaves out the 4300-digit limit; `query_source` is called only with 0..59.
- The configured sources are a sequence of (name, number) pairs with distinct names, standing for the config dict in its key order.
- The aliasing between the config dict and the entity's name map is not modelled: the map is a value here.
- `name` is a fixed configuration value and is not modelled.
