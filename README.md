# 7seg-clock: a verified model of the display driver, the alarm and the input sampler

7seg-clock runs a Raspberry Pi clock on an HT16K33 4-digit seven-segment
backpack driven over I2C. Three builds of the same `main` package exist:

- `main.go`: the alarm clock. It has the display driver, a display-writer
  goroutine, an alarm coordinator, a GPIO sampler for the arm / increment /
  decrement buttons, and a blink that flashes the brightness when the alarm
  fires.
- `7seg-clock.go`: a plain clock. It has the same driver and writer, plus a
  loop that sends "HHMM" whenever it changes.
- `sevensegment.go`: an earlier build. Its driver has no dry-run branch, and
  its `main` clears the display, lights the colon and rewrites the time
  forever.

The model keeps the source's shape. The `pack` handle and the device behind it
form one class, `Ht16k33.Display`. It holds:

- `attached`: false for a dry run.
- `ram`: the 16-byte display RAM.
- `bus`: every transaction issued, in order.

Each driver operation is a method. It is proved against a function listing the
transactions it issues, and lemmas say what those transactions do to the RAM
and to the brightness. The brightness is the level of the last dimming command
on the bus (`LastDimming`).

The drivers of `main.go` (lines 201-287) and `7seg-clock.go` (lines 105-191)
are character-for-character copies, so module `Driver` models both. Module
`SevenSegment` models the unguarded copies of `sevensegment.go`.

The alarm coordinator is modelled twice:

- `Alarm.Coordinator`: a class with the variables the select loop updates.
- `OnButton` / `OnTick`: pure step functions on a `Snapshot` of those
  variables. The lemmas are stated about these.

The goroutines and channels become sequential calls. The blink goroutine
becomes a loop whose cancel point, the number of passes that find `cancel`
clear, is a parameter. The sampler is a class holding `lastSend`. Times are a
minute of the day plus the day of the month, and the sampler's clock is in
integer milliseconds.

Where the code's behaviour is easy to misread, the model follows the code:

- The sampler sends a delta of 0 too (arm held, neither direction pressed).
  `main.go:150-159` sends `v` whatever its value.
- The alarm's occurrence marker is `Format("15042")`. That is "HHMM" followed
  by the unpadded day of the month, not seconds. So the alarm fires at most
  once per alarm minute per calendar day.
- After a button press, `l` holds the alarm's "HHMM". The next tick shows the
  time again as soon as the time's "HHMM" differs from it. It does not wait
  for the minute to change.
- A button value other than 1 or -1, for example 0, still cancels the blink
  and re-sends the alarm's "HHMM".

## Model

| member | source | states |
|---|---|---|
| Segments.UnknownIsBlank | main.go:20-39 | a character missing from `digitMap` is drawn as 0x00, exactly like a space |
| Segments.LitExactlyForGlyphs | sevensegment.go:11-30 | a character's pattern lights a segment exactly when the character is in the table and is not a space |
| Segments.GlyphsDistinct | 7seg-clock.go:19-37 | two different table characters never share a pattern, and no pattern lights the decimal point |
| Segments.DigitAddress | main.go:259-264 | positions 0..3 map to the even addresses 0, 2, 6, 8, never to the colon cell 0x04; `CellPosition` inverts the mapping |
| Segments.CellPosition | 7seg-clock.go:163-168 | a RAM address shows a digit position exactly when it is one of 0, 2, 6, 8 |
| Segments.DigitAddressRoundTrip | sevensegment.go:79-84 | every digit address is the address of the position it shows |
| Segments.DigitAddressInjective | main.go:259-264 | two positions share a RAM cell exactly when they are equal |
| Ht16k33.CommandsKeepRam | main.go:216-220 | commands (setup, display, dimming) never change the display RAM |
| Ht16k33.LastDimming | main.go:234 | the brightness after a run of transactions is that of the last dimming command, always 0..15 |
| Ht16k33.LastDimmingAppend | main.go:226 | a later dimming command overrides every earlier one |
| Ht16k33.LastDimmingSkipsRamWrites | main.go:71-74 | RAM writes leave the brightness unchanged |
| Ht16k33.ApplyAllAppend | main.go:283-286 | running two batches of writes one after the other is running their concatenation |
| Ht16k33.Display.constructor | main.go:55-66 | a handle is attached or dry, with the given RAM and an empty bus log |
| Ht16k33.Display.WriteBytes | main.go:264 | `WriteBytes([addr, value])` appends one RAM write to the bus and stores `value` at `addr` |
| Ht16k33.Display.WriteRegU8 | main.go:234 | `WriteRegU8(cmd, 0)` appends one command to the bus and leaves the RAM alone |
| Driver.Write | main.go:253-272 | issues exactly `WriteOps`: one write of `digitMap[c]` at the position's address for an attached device and pos 0..3, nothing otherwise; the RAM is updated accordingly |
| Driver.WriteString | main.go:275-287 | issues exactly `WriteStringOps`: for at most four characters, one write per character from the last to the first at positions 3, 2, …; nothing for more than four |
| Driver.Clear | main.go:238-249 | issues exactly the five zero writes to 0, 2, 4, 6, 8 in increasing order when attached, nothing in a dry run |
| Driver.SetColon | main.go:201-207 | issues 0x02 to the colon cell when attached, whatever `on` is; nothing in a dry run |
| Driver.SetBrightness | main.go:229-235 | issues the command `0xE0 \| b` for b ≤ 15 and nothing above 15 |
| Driver.Begin | main.go:210-227 | issues oscillator-on, display-on and then brightness 1 |
| Driver.DrawCharacter | main.go:283-286 | one pass of the WriteString loop extends the issued writes from characters i+1.. to characters i.., and the RAM with them |
| Driver.WriteDrawsOneDigit | 7seg-clock.go:157-172 | on an attached device and pos 0..3, exactly the position's cell changes, to `digitMap[c]`; otherwise no cell changes |
| Driver.StringOpsDraw | main.go:280-286 | each character from `lo` on lands at position `i + 4 - len`; cells left of those positions keep their contents |
| Driver.WriteStringRightAligns | 7seg-clock.go:179-191 | character i of a string of length n ≤ 4 is drawn at position 4-n+i; positions 0..3-n, the colon and all other cells keep their contents |
| Driver.FullStringReplacesDigits | sevensegment.go:91-103 | a four-character string overwrites all four digits and no other cell |
| Driver.TooLongStringIsIgnored | main.go:276-278 | a string longer than four characters issues no write and leaves the RAM unchanged |
| Driver.DryStringOpsEmpty | 7seg-clock.go:173-175 | without a device, no character of a string issues a write |
| Driver.DryRunIsSilent | 7seg-clock.go:105-176 | without a device, Write (any pos), WriteString, Clear and setColon issue no transaction |
| Driver.ClearBlanksFiveCells | 7seg-clock.go:142-149 | Clear zeroes exactly addresses 0, 2, 4, 6, 8 (the colon among them); every other cell keeps its contents |
| Driver.ClearPrefixBlanks | sevensegment.go:65-71 | after the first i clearing writes, exactly the even cells below 2i are zero |
| Driver.ColonIgnoresOn | main.go:201-207 | as written, `setColon(false)` issues the same write as `setColon(true)` and leaves the colon lit |
| Driver.IntendedColonFollowsOn | main.go:201-207 | the corrected colon switch lights the colon exactly when `on`, changes no other cell, and agrees with the original for `on` = true |
| Driver.BrightnessCommand | 7seg-clock.go:133-139 | nothing above 15; otherwise the single command `0xE0 + b`, after which the brightness is b whatever came before |
| Driver.BeginSequence | 7seg-clock.go:114-131 | Begin sends 0x21, 0x81, 0xE1 in that order and leaves the brightness at 1 |
| Driver.StringOpsAreWrites | main.go:275-287 | WriteString only writes display RAM and never issues a command |
| Driver.DryStartupPanics | main.go:68-74 | as written, the startup completes exactly on an attached device; a dry run panics in Begin, so the silent dry-run branches of Clear and setColon are never reached from it |
| Driver.IntendedBegin | main.go:210-227 | the guarded Begin issues the original sequence on a device and nothing in a dry run |
| Driver.IntendedBeginGuarded | 7seg-clock.go:114-131 | the guarded Begin equals the original 0x21, 0x81, 0xE1 on a device and leaves brightness 1; in a dry run Begin, Clear and setColon together issue nothing |
| TimeFormat.Hhmm | main.go:106 | `Format("1504")` is four decimal digits |
| TimeFormat.HhmmFields | 7seg-clock.go:78 | the first two digits of `Format("1504")` are the zero-padded hour 00..23 and the last two the zero-padded minute 00..59 |
| TimeFormat.HhmmRoundTrip | main.go:102 | reading an "HHMM" string back gives the minute of the day it was made from |
| TimeFormat.HhmmInjective | main.go:107-108 | two minutes format alike exactly when they are the same minute |
| TimeFormat.DayString | main.go:108 | the day of the month is one digit below 10 and two digits from 10 |
| TimeFormat.DayStringRoundTrip | main.go:109 | reading the day string back gives the day |
| TimeFormat.MarkerDecodes | main.go:108-109 | the marker `Format("15042")` is longer than four characters; its first four read back as the minute of the day and the rest as the day of the month |
| TimeFormat.MarkerInjective | main.go:108-109 | two markers are equal exactly when the instants share minute of the day and day of the month |
| Alarm.Coordinator.constructor | main.go:84-90 | the loop starts with the given alarm, `l` and `lastAlarmOccurrence` empty, and `cancel` clear |
| Alarm.Coordinator.ButtonEvent | main.go:93-103 | sets `cancel`; moves the alarm by +1 / -1 minute modulo 1440 for op 1 / -1 and leaves it for any other op; `l` and the sent string are the alarm's "HHMM" |
| Alarm.Coordinator.Tick | main.go:104-129 | nothing when the time's "HHMM" equals `l`; otherwise fires (marker recorded, `cancel` cleared, nothing sent, `l` kept) or sends the time and makes it `l` |
| Alarm.Dispatch | main.go:91-131 | one turn of the select loop takes the state to the step function's next state and outputs its send and its firing |
| Alarm.Serve | main.go:89-133 | over a run of events, the strings sent and the firings are those of the step functions, and consecutive firings have different markers |
| Alarm.ShiftWrapsAtMidnight | main.go:96-99 | 23:59 plus a minute is 00:00 and 00:00 minus a minute is 23:59 |
| Alarm.ShiftUndo | main.go:95-100 | +1 and -1 undo each other in either order; any other op leaves the alarm unchanged |
| Alarm.TickFiresExactlyWhen | main.go:107-110 | a tick starts a blink exactly when the time's "HHMM" differs from `l`, the minute is the alarm's, and the marker differs from the last occurrence |
| Alarm.TickShape | main.go:105-128 | a tick never both sends and blinks and never moves the alarm; what it sends is the time's "HHMM", which becomes `l`; the marker changes only when it fires |
| Alarm.RefireSuppressed | main.go:107-127 | after a firing, a tick in the same minute of the same day does not fire again and shows the time instead |
| Alarm.FireMarkersDistinct | main.go:108-109 | over any run of events, the first firing's marker differs from the recorded one and consecutive firings have different markers |
| Alarm.AtMostOncePerMinuteAndDay | main.go:104-124 | no two consecutive firings share both minute of the day and day of the month |
| Alarm.Blink | main.go:111-124 | after n passes that find `cancel` clear, the blink has issued the n alternating toggles and then brightness 1 |
| Alarm.BlinkAlternatesThenRestores | main.go:112-123 | the blink's commands are 0xEF, 0xE0, 0xEF, … (15, 0, 15, … from 15) and end with 0xE1, so the brightness is 1 whatever the cancel point |
| Alarm.BlinkLevelAfterPass | main.go:113-119 | while the blink runs, the brightness after pass k is 15 for even k and 0 for odd k |
| Sampler.Delta | main.go:150-155 | the delta is 1 exactly when increment is pressed, -1 exactly when only decrement is, and otherwise 0 |
| Sampler.InputSampler.constructor | main.go:146 | `lastSend` starts at the start time |
| Sampler.InputSampler.Step | main.go:148-162 | sends the delta exactly when the arm pin is low and more than 500 ms passed since the last send, and then moves `lastSend` to now |
| Sampler.InputSampler.Poll | main.go:147-175 | a run of passes sends exactly the emissions of the step function and leaves `lastSend` at the last send |
| Sampler.EmissionsSpaced | main.go:157-160 | the first send comes more than 500 ms after the start and each later one more than 500 ms after the one before |
| Sampler.EmissionNeedsArm | main.go:149-159 | every send comes from a pass with the arm pin low, at that pass's time, with that pass's delta in -1..1 |
| Sampler.HeldArmRepeats | main.go:149-160 | with the arm held, a pass more than 500 ms after the last send always sends, 0 included |
| Tasks.Startup | main.go:68-74 | Begin, Clear, colon on, as the exact bus sequence: on a device the four digits are blank, the colon is lit, every other cell keeps its contents and the brightness is 1; a dry run (with the guarded Begin) changes nothing |
| Tasks.DisplayWriter | main.go:77-82 | the writer draws each received string in arrival order with WriteString |
| Tasks.ShowNext | main.go:79-81 | one pass of the writer adds exactly the next string's writes to the bus and applies them to the RAM |
| Tasks.WriterShowsLatest | 7seg-clock.go:69-74 | after a run of four-character strings the digits show the last one and no other cell has changed |
| Tasks.ClockLoop | 7seg-clock.go:76-87 | the first pass always sends; later passes send only when "HHMM" changed; no string is sent twice in a row; `l` is always the last string sent, the current time |
| SevenSegment.Clear | sevensegment.go:65-72 | issues the five zero writes to 0, 2, 4, 6, 8 in increasing order |
| SevenSegment.Write | sevensegment.go:74-89 | issues one write of `digitMap[c]` at the position's address for pos 0..3 and nothing otherwise |
| SevenSegment.WriteString | sevensegment.go:91-103 | nothing for more than four characters; otherwise the last character goes to position 3 and each earlier one a position to the left |
| SevenSegment.DrawCharacter | sevensegment.go:99-102 | one pass of the WriteString loop extends the issued writes from characters i+1.. to characters i.., and the RAM with them |
| SevenSegment.Start | sevensegment.go:42-57 | Clear comes before the colon write, so the colon holds 0x02, the digits hold 0, and cells outside 0..8 are unchanged |
| SevenSegment.Run | sevensegment.go:42-62 | issues exactly Clear, the colon write and one WriteString of "HHMM" per pass; the digits show the latest "HHMM", the colon stays lit, no other cell changes and the brightness is what it was |
| SevenSegment.ShowTime | sevensegment.go:59-62 | one pass of the loop adds that pass's "HHMM" writes to the bus and shows it on the four digits, keeping the colon and the other cells |
| SevenSegment.ShowDigits | sevensegment.go:91-103 | WriteString of four characters replaces the four digits, keeps the colon and every other cell, and issues exactly its writes |
| SevenSegment.RunOpsStep | sevensegment.go:59-62 | a run one pass longer issues that pass's writes after all earlier ones |
| SevenSegment.RunOpsAreWrites | sevensegment.go:59-62 | every transaction of the loop is a RAM write |
| SevenSegment.RunKeepsBrightness | sevensegment.go:42-62 | Start and the loop never send a command, so the brightness stays what it was |

## Left out

- config.go: it reads a YAML file with a library call and has no logic of its own. The alarm's starting minute is a parameter of `Alarm.Coordinator.constructor`.
- `main.go:84` declares `alarmTime := time.Now()` again in the scope of line 50. As written this does not compile, and it would discard the configured time. The model takes the initial alarm as a parameter.
- The HTTP handler, router and `ListenAndServe` (main.go:178-199, 7seg-clock.go:89-103) are web plumbing. The handler never changes the coordinator.
- Flag parsing (`kingpin`), opening the I2C bus and the GPIO pins (`i2c.NewI2C`, `rpio.Open`, `initPin`), `defer Close()` and log output are left out. Pins are inputs of type `Sampler.Level`.
- Ht16k33.Display.WriteBytes: bus writes always succeed. The `log.Fatal` on a write error is not modelled.
- Goroutines, channels, the unsynchronised `cancel` flag and two blinks running at once are left out. The select loop is a sequence of events (`Alarm.Serve`), the writer a sequence of strings (`Tasks.DisplayWriter`), and the sampler a sequence of samples (`Sampler.InputSampler.Poll`).
- Alarm.Blink: the point where the blink sees `cancel` set is the parameter `passes`. The race between the coordinator writing `cancel` and the blink reading it is not modelled.
- Wall-clock time, time zones, daylight saving, `time.After` and the sleeps (10 ms, 500 ms, 1 s, 15 s) are left out. Times are a minute of the day with a day of the month, and the sampler's clock is integer milliseconds passed in.
- Driver.SetBrightness, Driver.Begin and Alarm.Blink require an attached device. Without one, Begin dereferences a nil `pack` at main.go:216 and panics. SetBrightness does the same at main.go:234 for b ≤ 15; for b > 15 it returns first at main.go:230-232. `Driver.StartupAsWritten` models the resulting panic; see Findings.
- SevenSegment.Clear, SevenSegment.Write, SevenSegment.WriteString, SevenSegment.Start and SevenSegment.Run require an attached device. That build has no dry-run branch, and a failed connect ends the program before any of them runs.
- Driver.WriteString: strings are sequences of characters, and the length test counts characters. The source counts bytes (`len(s)`) but draws runes. The two agree only for ASCII, the only input the clock produces.
- Tasks.Startup states the colon write through the corrected `IntendedColonOps(true, true)`. `Driver.IntendedColonFollowsOn` proves this equals the as-written write for `on` = true.
- Tasks.Startup uses the guarded `Driver.IntendedBegin`, so it also covers a dry run. On a device it issues exactly what the source issues (`Driver.IntendedBeginGuarded`); the source's dry-run panic is `Driver.DryStartupPanics`.
- Tasks.ClockLoop, Tasks.DisplayWriter, SevenSegment.Run, Alarm.Serve and Sampler.InputSampler.Poll model finite runs of loops that run forever in the source.

## Findings

| source | as written | input that shows it | evidently intended | confidence | as-written member | corrected member |
|---|---|---|---|---|---|---|
| main.go:201-207 (same at 7seg-clock.go:105-111) | `setColon(on)` always writes 0x02 to the colon cell and never reads `on` | `setColon(false)` on an attached device leaves the colon lit | `setColon(false)` writes 0x00 to the colon cell, turning it off | medium (every caller passes `true`); not executed | Driver.ColonIgnoresOn | Driver.IntendedColonFollowsOn |
| main.go:68-74, 210-227 (same at 7seg-clock.go:61-67, 114-131) | `Begin()` calls `pack.WriteRegU8` without the `pack != nil` guard that Clear, Write, WriteString and setColon have, and main calls it first | starting with `--dryI2C`: `pack` is nil when Begin runs | a dry run logs and issues nothing, like the other guarded operations, and reaches Clear and setColon | medium (the panic depends on the I2C library dereferencing its nil receiver); not executed | Driver.DryStartupPanics | Driver.IntendedBeginGuarded |
