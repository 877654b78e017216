# Daydream controller mouse driver: decoder and translation step

This project models the core of a small driver that turns a Google Daydream
controller into a mouse. The controller sends one BLE notification per
report. The driver decodes each 20-byte report into a snapshot of the
touchpad and buttons. It compares that snapshot with the one retained from
the previous report and injects relative pointer motion, mouse-button
presses and releases, and key presses and releases into the host.

The model has three modules:

- `Controller` (`controller.dfy`): the snapshot record, the decoder on
  `seq<bv8>`, and an encoder used as its inverse. The decoder keeps the
  source's unsigned 8-bit shifts, so `b << 3` drops the bits pushed past
  bit 7. Its contract restates each field in plain integer arithmetic:
  `(b * 8) mod 256 + next / 32` for a coordinate, and bit `k` as
  `(b / 2^k) mod 2` for a flag.
- `Translator` (`translator.dfy`): the edge classification, the key helper,
  and the per-report comparison as a pure `Step(prev, packet) -> (commands,
  new snapshot)`. Each call into the input library becomes an
  `InputCommand` value. The commands come from six sources in a fixed order:
  motion, Left (touchpad click), Right (App), Command (Home), VolumeUp and
  VolumeDown. `Expected` is an independent, per-command description of what
  one step calls for. `Translate` is proved to emit exactly those commands,
  in that order.
- `Driver` (`driver.dfy`): the notification loop as a fold of a step
  function over the stream of reports, starting from the derived `Default`
  snapshot. The facts about the stream are proved for any step function
  with the properties they name. `Listen` is the fold of `Step` itself.

`option.dfy` holds the `Option` type the decoder returns.

The key helper is modelled as written. A key is pressed on a rising edge.
It is released on every later report in which the button is still held.
Letting go emits nothing. So a key held for only one report is never
released, and a key held longer gets repeated releases. The mouse buttons,
by contrast, are proved to stay paired over any stream.

## Model

| member | source | states |
|---|---|---|
| Controller.Decode | src/main.rs:54-70 | A report is rejected exactly when its length is not 20. Otherwise x is `(b16*8) mod 256 + b17/32` and y is `(b17*8) mod 256 + b18/32`. Click, Home, App, VolumeDown and VolumeUp are bits 0 to 4 of b18. Contact is reported exactly when b17 is non-zero. |
| Controller.CoordinateBits | src/main.rs:61-62 | The u8 shift-and-or that builds a coordinate equals the integer formula, under both masks the source uses (0x1F for x, 0x07 for y). |
| Controller.FlagBits | src/main.rs:63-67 | Each single-bit mask test on byte 18 is the arithmetic bit test of the matching bit. |
| Controller.InitialHasNoFlags | src/main.rs:42-52 | The derived `Default` snapshot has no contact and no button held. |
| Controller.DecodeReadsOnlyTouchBytes | src/main.rs:60-69 | Two 20-byte reports that agree on bytes 16, 17 and 18 decode to the same snapshot. |
| Controller.CoordinateLowBits | src/main.rs:61-62 | The low three bits of x are the top three bits of byte 17. The low three bits of y are the top three bits of byte 18. |
| Controller.AppAndClickExample | src/main.rs:63-67 | Byte 18 = 0b00000101 gives App and touchpad click set, and Home and both volume buttons clear. |
| Controller.DecodedIsConsistent | src/main.rs:62-68 | A decoded snapshot obeys the touch heuristic: contact holds exactly when the byte carrying x's low bits and y's high bits is non-zero. |
| Controller.DecodeEncode | src/main.rs:54-70 | Decoding the encoding of any consistent snapshot gives that snapshot back. |
| Controller.EncodeDecode | src/main.rs:60-62 | Re-encoding a decoded report restores bytes 17 and 18 exactly. Byte 16 comes back without its top three bits, which `<< 3` discards. |
| Translator.Classify | src/main.rs:150-160 | The edge kind determines both levels: current set iff rising or steady high; previous set iff steady high or falling. |
| Translator.ScaleDelta | src/main.rs:144-145 | The scaled delta always fits in i32. It equals exactly 2 × delta when that fits. Below the i32 range it is `i32::MIN`, above it `i32::MAX`, as Rust's saturating float-to-int `as` gives. It is negative iff delta is, and non-positive iff delta is. |
| Translator.Motion | src/main.rs:141-147 | Motion is emitted iff both snapshots report contact. It is then (2·Δx, 2·Δy), and each component lies in [-510, 510]. |
| Translator.ButtonEdge | src/main.rs:149-161 | Press exactly on a rising edge, release exactly on a falling edge, nothing when the flag is steady. |
| Translator.KeyEdge | src/main.rs:72-78 | At most one command: KeyPress exactly on a rising edge, KeyRelease exactly when the flag is held in both reports, nothing whenever the flag is clear now. |
| Translator.Slot | src/main.rs:140-167 | Each of the six sources yields only commands of its own rank in the emission order. |
| Translator.ExpectedIsSlot | src/main.rs:140-167 | A command is in the reference description of a step iff the source of its rank produces it. |
| Translator.Collect | src/main.rs:140-167 | The commands from source k onward: at most 6 − k of them, in strictly increasing rank, and exactly the commands of those sources. |
| Translator.Translate | src/main.rs:140-167 | One comparison emits at most six commands. They are in the order motion, Left, Right, Command, VolumeUp, VolumeDown, and they are exactly the commands `Expected` calls for. |
| Translator.MotionBounded | src/main.rs:141-146 | Every pointer motion in a step is within [-510, 510] on both axes. |
| Translator.MotionNeedsTwoTouches | src/main.rs:141-146 | A step contains a motion iff both snapshots report contact. The motion is then the first command and equals (2·Δx, 2·Δy). |
| Translator.Step | src/main.rs:137-170 | The retained snapshot becomes the decoded one, or stays unchanged for a malformed report, which also emits nothing. A step emits at most six commands, in emission order, exactly those `Expected` calls for. |
| Translator.MotionExample | src/main.rs:141-146 | Contact moving from (100, 100) to (110, 90) emits exactly MoveRelative(20, -20). |
| Translator.FirstTouchDoesNotMove | src/main.rs:141 | Without contact in the previous snapshot, no motion is emitted. |
| Translator.SteadyButtonIsSilent | src/main.rs:149-161 | A mouse button whose flag did not change gets neither press nor release. |
| Translator.HeldKeyIsReleasedEachReport | src/main.rs:72-78 | While a button stays held, its key is released on every report and never pressed again. Once the flag is clear, the key gets neither press nor release. |
| Translator.ClickSequenceExample | src/main.rs:149-154 | Click over false, true, true, false emits [Press(Left)], then [], then [Release(Left)]. |
| Driver.Fold | src/main.rs:136-171 | The loop over a stream from a given snapshot: an empty stream emits nothing and keeps the snapshot, and the first report's commands come first. Its stream-wide properties are in FoldAppend, FoldLength, FoldIgnoresMalformed, FoldFinalState and FoldButtonBalance. |
| Driver.Listen | src/main.rs:134-171 | The loop run with the real step from the derived `Default` snapshot: an empty stream emits nothing and leaves `Default`. Its stream-wide properties are in ListenLength, ListenIgnoresMalformed, ListenFinalState and ButtonsStayPaired. |
| Driver.Decodable | src/main.rs:56-58 | A report is kept exactly when it is in the stream and is 20 bytes long; the result is never longer than the stream. |
| Driver.DecodableAppend | src/main.rs:136-137 | Filtering out the reports that fail to decode works part by part on a concatenation. Together with DecodableSingle this fixes the order and multiplicity of the kept reports. |
| Driver.DecodableSingle | src/main.rs:56-58 | A single report is kept iff it is 20 bytes long. |
| Driver.FoldAppend | src/main.rs:137-171 | Running the loop over two stretches in turn equals running it over their concatenation, for commands and final state. |
| Driver.FoldLength | src/main.rs:137-171 | A step with at most six commands gives at most six commands per report over the stream. |
| Driver.FoldIgnoresMalformed | src/main.rs:137-138 | With a step that drops malformed reports, removing every malformed report from the stream changes neither the commands nor the final state. |
| Driver.FoldFinalState | src/main.rs:137-170 | With a step that retains the decoded snapshot, the final snapshot is the one from the last acceptable report, or the starting one if there is none. |
| Driver.FoldButtonBalance | src/main.rs:149-161 | Over a stream, presses minus releases of a mouse button equal the change of its flag. |
| Driver.StepTracksButtons | src/main.rs:149-161 | One step changes the press-minus-release balance of each mouse button by exactly the change of its flag. |
| Driver.StepIsWellBehaved | src/main.rs:137-170 | The loop's own step drops malformed reports, retains the decoded snapshot and emits at most six commands. |
| Driver.ListenLength | src/main.rs:135-171 | The loop emits at most six commands per received report. |
| Driver.ListenIgnoresMalformed | src/main.rs:135-171 | Malformed reports can be removed from the stream without changing anything the loop emits or retains. |
| Driver.ListenFinalState | src/main.rs:135-171 | Starting from `Default`, the retained snapshot after the loop is the one decoded from the last acceptable report. |
| Driver.ButtonsStayPaired | src/main.rs:149-161 | From `Default`, each mouse button has been pressed either once more than released or exactly as often: once more iff its flag is set at the end. |

## Left out

- BLE adapter lookup, scanning, controller discovery, connecting, service discovery and subscription (src/main.rs:26-40, 83-132). These are external I/O over the BLE library.
- The async runtime, the two-second scan sleep and the notification stream itself (src/main.rs:80, 97, 132). The stream is a `seq<seq<bv8>>` folded through `Step`. Its end, a disconnect, is the end of the sequence.
- The calls into the input-injection library and their `unwrap` panics. These are foreign OS calls, so each becomes an `InputCommand` value. Delivery failures are not modelled.
- The `f64` multiply at src/main.rs:144-145. For integer deltas in [-255, 255], multiplying by 2.0 is exact, so it is modelled as integer doubling. The saturating `as i32` cast is kept, and `ScaleDelta`'s contract states it.
- Console output (`println!`, `eprintln!`) and the process exit on a failed connection. These are diagnostics outside the translation.
