# Desk serial-protocol engine, in Dafny

This project models the serial-protocol engine inside the `Desk` class of
`runner.py`, a MicroPython program. The program bridges an electric standing
desk to MQTT. The model covers four parts:

- **Command encoder.** The five fixed 6-byte command frames: move up, move
  down, stop, memory-and-height query and limits query. Also `go_to_height`,
  which packs a height into `241,241,27,2,hi,lo,checksum,126`, and the MQTT
  handler, which calls it with `10 * n` to turn centimetres into millimetres
  (`commands.dfy`, module `Commands`).
- **Receive queue and framer.** `check_rx` appends received bytes to the
  queue. `validate_data_block` checks the `242,242` marker, the `126`
  terminator and the mod-256 checksum. `get_next_block` finds a candidate
  block, validates it and drains it from the queue (`framing.dfy`, module
  `Framing`).
- **Telemetry dispatch.** `process_data` routes on the first two body bytes:
  - `1,3` is a height reading. It is deduplicated and published as
    `height // 10`.
  - `37..40,2` is memory data, which the code only prints.
  - `7,4` is the max/min height limits.

  This is in `desk.dfy`, module `DeskState`.
- **One pipeline step.** One iteration of `process_queue`: take the next
  block, strip the marker and the checksum/terminator, then dispatch
  (`DeskState.Step`).

The receive queue and the blocks taken from it are lists of integers. In
the program, too, the queue is a list (runner.py:30). It is filled with the
ints of the `bytes` that `uart.read()` returns (runner.py:66), and blocks
are slices of that list. Nothing on the receive path depends on the range of
those integers, so the model does not restrict it.

`scenarios.dfy` (module `Captures`) proves what the model does with the
frames captured in the program's trailing docstring. `pyseq.dfy` (module
`PySeq`) holds Python's slice semantics, `sum` and the byte type.

`get_next_block` is modelled exactly as written. It is two nested scans,
`Framing.OuterScan` and `Framing.InnerScan`. It is proved equal to
`Framing.FrameAtFront`, a direct description of its behaviour:

- A block is only ever taken from the very front of the queue.
- The slices on runner.py:90 and 96 use the inner loop index `ii` as if the
  outer scan had started at 0. So a marker found anywhere else always
  produces a slice that fails validation.
- On a validation failure nothing is consumed. From then on the queue can
  never be drained (`Framing.JammedForever`).

The Findings section below gives this defect. `Framing.NextBlockCorrected`
is the evidently intended framer, and `DeskState.StepCorrected` is the
pipeline step that uses it.

A further limit of the framer is that it ends a block at the first 126
after the marker (runner.py:88) and never unescapes anything. So if the
desk sends a body holding a 126, or one whose checksum is 126, without
escaping it, the block is cut short at that 126. None of the captured
responses has such a body. But in-range heights such as 638, 894 and
1150 mm have 126 as their low byte. What happens next depends on the span:

- Usually the cut-short span fails validation. The queue then jams like it
  does for any other failed candidate. This holds for 638 and 894 mm;
  `Captures.EmbeddedTerminatorJams` proves it for the 894 mm report.
- The span validates when the byte before its 126 equals the mod-256 sum of
  the bytes between the marker and that byte. Then `get_next_block` returns
  the truncated block and leaves the rest of the frame queued. For the
  1150 mm report (`242,242,1,3,4,126,15,149,126`), `1,3` sums to 4. So the
  two-byte height body `1,3` is returned, and `process_height_data` raises
  `IndexError` on it, which ends `process_queue`. `Captures.CutSpanValidates`
  proves the block returned, that the body is not decodable, and that the
  queue is not jammed.

For this reason the lemmas that deliver a frame require its body to be
`Framing.Delimitable`: no 126 in the body or its checksum.

Other facts about the code that the model follows:

- After a bad frame the code does not resynchronise by skipping a byte. It
  returns without consuming anything.
- The receive queue is not bounded.
- Nothing controls motion and nothing checks the range of a target height.
  `go_to_height` sends any integer. The program runs on MicroPython, whose
  `bytearray` keeps the low 8 bits of each element rather than raising. So
  a height outside 0..65535 goes out as a well-formed frame for the height
  modulo 65536 (`Commands.GoToHeightSent`).
- A checksum-valid body that is too short for its handler raises
  `IndexError`. It is not skipped.
- The published value is the integer `height // 10` in centimetres.

## Model

| member | source | states |
|---|---|---|
| Commands.Encode | runner.py:17-21 | every command's frame starts 241,241 and ends 126; its length byte is the payload length; its checksum byte is the mod-256 sum of the bytes between marker and checksum; it decodes back to the command's id, with an empty payload for the five fixed commands |
| Commands.FixedFramesHaveEmptyPayload | runner.py:17-21 | each fixed frame is the generic frame of its id with an empty payload, so its length byte is 0 and its checksum byte equals its id |
| Commands.CommandFrameRoundTrip | runner.py:53-57 | a frame built from an id and a payload of under 256 bytes is well formed and decodes back to that id and payload |
| Commands.DecodeCommandRoundTrip | runner.py:53-57 | every well-formed outgoing frame of bytes is the frame built from the id and payload it decodes to |
| Commands.GoToHeightData | runner.py:53-57 | `go_to_height(h)` builds `241,241,27,2,hi,lo,cs,126` with `hi*256+lo == h` for every integer h, `lo` in 0..255 and `cs` the checksum of `27,2,hi,lo`; all eight values are bytes exactly when 0 <= h <= 65535 |
| Commands.GoToHeightIsCommandFrame | runner.py:53-57 | the go-to-height list is the generic frame with id 27 and payload `h // 256, h % 256` |
| Commands.GoToHeightRoundTrip | runner.py:53-57 | reading the target height back out of the list `go_to_height(h)` hands to `send` gives h, for every h; the bytes then written are covered by `Commands.GoToHeightSent` |
| Commands.GoToHeightExamples | runner.py:278-294 | heights 700 and 800 give the captured frames `241,241,27,2,2,188,219,126` and `241,241,27,2,3,32,64,126` |
| Commands.Send | runner.py:33-35 | MicroPython's `bytearray(command)` never raises; it writes a list of the same length holding each element modulo 256 |
| Commands.SendKeepsBytes | runner.py:33-35 | a list is written unchanged exactly when every element is in 0..255, and converting the written bytes again changes nothing |
| Commands.GoToHeightSent | runner.py:33-57 | for every integer h, the bytes `go_to_height(h)` writes are the frame for `h % 65536`, well formed and asking for `h % 65536` |
| Commands.OutOfRangeHeightExample | runner.py:53-57 | 70000 mm is written as `241,241,27,2,17,112,158,126`, a valid request for 4464 mm |
| Commands.HandleEvents | runner.py:203-207 | only the `desk/height/set` topic produces a frame; that frame asks for `10 * n` millimetres, and the bytes written ask for `(10 * n) % 65536` |
| Framing.ValidateDataBlockFrames | runner.py:68-79 | `Framing.ValidateDataBlock`, the three checks of `validate_data_block` as written, holds exactly when it is at least 4 long and equals marker 242,242, then `block[2:-2]`, then the mod-256 sum of `block[2:-2]`, then 126 |
| Framing.IncomingFrameRoundTrip | runner.py:68-79 | a body framed with marker, checksum and terminator is accepted, and `block[2:-2]` gives the body back |
| Framing.FirstTerminator | runner.py:87-89 | the position found holds 126 and is the first 126 at or after the start; when none is found there is no 126 from the start on |
| Framing.InnerScanFindsTerminator | runner.py:87-97 | the inner loop stops at the first 126 after `i+2` and slices the block and the rest with `ii+3`, which is `t-i+1` for the terminator at absolute position `t` |
| Framing.MisplacedSliceFails | runner.py:90-95 | for a marker at position `i >= 1`, the slice `data_queue[i:ii+3]` always fails validation and nothing is consumed |
| Framing.LaterMarkerYieldsNothing | runner.py:87-97 | the inner loop for a marker at position `i >= 1` either runs out without returning or returns nothing and leaves the queue untouched |
| Framing.OuterScanPastFront | runner.py:84-97 | the outer loop from any position after 0 never returns a block and never changes the queue |
| Framing.NextBlockIsFrameAtFront | runner.py:81-97 | `Framing.NextBlock`, the nested scans of `get_next_block` as written (`OuterScan`, `InnerScan` and `Attempt`), equals the direct description `FrameAtFront` on every queue: it returns a block only when the queue starts with 242,242 and the span up to the first later 126 validates; it then returns that span and leaves the bytes after it; otherwise it returns nothing and leaves the queue unchanged |
| Framing.GetNextBlock | runner.py:81-97 | the nested loops of `get_next_block`, run imperatively, compute the same block and queue as the direct description |
| Framing.ScanForTerminator | runner.py:87-97 | the imperative inner loop computes what the inner scan does |
| Framing.NextBlockReturnsLeadingFrame | runner.py:84-97 | a returned block starts 242,242, ends at the first 126 after the marker, passes validation, and the block followed by the new queue is the old queue |
| Framing.NextBlockReturnsNothing | runner.py:81-97 | nothing is returned and the queue is unchanged when the queue is empty, when it does not start with 242,242, when no 242,242 is followed by a 126, or when the candidate fails validation |
| Framing.AppendKeepsTakenBlock | runner.py:81-97 | bytes arriving later do not change a block already available: the same block is returned and the new bytes stay queued behind it |
| Framing.JammedForever | runner.py:90-96 | once the queue starts with a byte other than the marker, or its leading complete candidate fails validation, no later arrival lets `get_next_block` return anything again |
| Framing.NextBlockTakesFrame | runner.py:81-97 | a correctly framed body with no 126 in it or in its checksum, at the front of the queue, is returned and exactly it is drained |
| Framing.FirstMarker | runner.py:84-86 | the position found holds 242,242 and is the first such pair from the start; when none is found there is no such pair |
| Framing.NextBlockCorrected | runner.py:90-96 | the corrected framer returns only validated blocks; the returned block and the remaining queue are a suffix of the old queue that starts at the first marker; with nothing returned the queue is unchanged |
| Framing.CorrectedAgreesAtFront | runner.py:90-96 | on a queue that starts with 242,242, the corrected framer and the one as written agree |
| Framing.CorrectedSkipsGarbage | runner.py:90-96 | with the corrected slices, a valid frame with no 126 in its body or checksum, behind bytes holding no 242, is returned, and the leading bytes are drained with it |
| Framing.AsWrittenJamsOnGarbage | runner.py:90-96 | with the slices as written, the same queue with at least one leading byte returns nothing and stays jammed |
| Framing.StrayByteExample | runner.py:90-96 | the captured height frame behind one 0 byte is never taken by the framer as written, but is taken by the corrected one |
| DeskState.CheckRx | runner.py:62-66 | the new queue is the old queue followed by the received bytes, and nothing else changes; an empty read leaves the desk unchanged |
| DeskState.CheckRxChunks | runner.py:62-66 | receiving bytes in two reads queues the same as receiving them in one |
| DeskState.ProcessHeightData | runner.py:99-105 | a reading equal to the current height changes nothing; any other reading becomes the current height and appends exactly `height // 10` to the published values; the queue and the limits are untouched |
| DeskState.HeightDeduplicated | runner.py:99-105 | the same reading delivered twice has the effect of delivering it once, so it publishes at most one value |
| DeskState.ProcessLimitData | runner.py:111-119 | bytes 2-3 become the maximum and bytes 4-5 the minimum height; nothing else changes |
| DeskState.LimitDataRoundTrip | runner.py:111-119 | for byte values, each recorded limit splits back into the two bytes it was read from, and delivering the same limits twice is the same as once |
| DeskState.ProcessData | runner.py:121-127 | a `1,3` body is a height reading and a `7,4` body gives the limits; any other prefix changes nothing; only a height reading can publish or change the current height |
| DeskState.MemoryDataIgnored | runner.py:107-109 | memory data changes nothing |
| DeskState.NextBlockDrainsPrefix | runner.py:81-97 | `get_next_block` either leaves the queue unchanged or leaves a strictly shorter suffix of it |
| DeskState.Step | runner.py:134-143 | one `process_queue` iteration either leaves the queue unchanged or leaves a strictly shorter suffix of it, and publishes at most one new value after those already published |
| DeskState.StepCorrected | runner.py:134-143 | the same with the corrected framer |
| DeskState.StepTakesFrame | runner.py:137-143 | with a correctly framed body holding no 126, and whose checksum is not 126, at the front of the queue, one step drains it and dispatches exactly that body |
| DeskState.RepeatedReportPublishedOnce | runner.py:99-105 | the same height frame, with no 126 in its body or checksum, received twice in a row is drained by two steps, sets the current height and publishes at most once |
| DeskState.JammedDeskIsSilent | runner.py:134-143 | once the queue is jammed, a step after any read changes nothing, and the queue stays jammed |
| DeskState.CorrectedStepSkipsGarbage | runner.py:137-143 | with the corrected framer, a frame with no 126 in its body or checksum, behind bytes holding no marker, is still dispatched |
| Captures.LimitsResponseExample | runner.py:327 | the captured limits response validates; from a fresh desk one step sets the maximum to 1250 and the minimum to 600 and publishes nothing |
| Captures.LimitsStep | runner.py:111-119 | a limits block `7,4,4,226,2,88` at the front of any queue is drained and records a maximum of 1250 and a minimum of 600, changing nothing else |
| Captures.HeightStep | runner.py:99-105 | a height block with no 126 in its body or checksum, at the front of the queue of a desk with no known height, is drained, becomes the current height and publishes `height // 10` once |
| Captures.CutSpanValidates | runner.py:84-105 | the correctly framed report of 1150 mm is cut at its low byte 126, but the span `242,242,1,3,4,126` validates; it is returned with `15,149,126` left queued, its body `1,3` is too short for the height handler, and the queue is not jammed |
| Captures.EmbeddedTerminatorJams | runner.py:84-97 | the correctly framed and valid report of 894 mm, `242,242,1,3,3,126,15,148,126`, is cut at its low byte 126, fails validation, returns nothing with either framer and jams the queue |
| Framing.LeadingCandidateFails | runner.py:90-95 | a queue whose leading candidate fails validation returns nothing with either framer and is jammed |
| Captures.CapturedBlocksValidate | runner.py:333-337 | the captured first memory block and the height block pass validation |
| Captures.MemoryAndHeightResponseExample | runner.py:332-338 | five steps drain the captured memory-and-height response; the four memory blocks have no effect; the height block sets 799 mm and publishes 79 once |

## Left out

- Wi-Fi association and the MQTT connect, reconnect and subscribe logic (runner.py:153-197) are network glue. A publish is modelled as appending a value to `Desk.published`.
- The text encoding of a published value is not modelled, because the model records the integer `height // 10`. The code publishes that integer's decimal text on `desk/height/read`.
- The UART and Pin hardware (runner.py:8-13, 29) is left out. `uart.read()` becomes the `data` parameter of `DeskState.CheckRx`, where an empty read stands for both `None` and `b''`. `uart.write` is left out. `Commands.Send` returns the bytes that would be written.
- `Commands.Send` follows MicroPython's `bytearray`, which truncates each element to 8 bits. Under CPython the same call would raise `ValueError` for an element outside 0..255; the model does not cover that runtime.
- The `uasyncio` task loops (runner.py:129-143, 210-227) are left out because they are cooperative concurrency. One iteration of `loop_check` is `DeskState.CheckRx`, and one iteration of `process_queue` is `DeskState.Step`. The sleeps and the start-up queries in `async_main` are not modelled.
- Parsing `int(msg)` from the MQTT payload is left out. `Commands.HandleEvents` takes the parsed integer.
- Memory-slot decoding is left out because the code only prints memory data. All `print` output and the text of `InvalidDataException` are left out too.
- DeskState.Step: requires the body of the block it takes to be long enough for its handler: at least 4 bytes for a height reading and 6 for limits. The length byte is never checked, so a shorter checksum-valid body raises `IndexError` and ends the `process_queue` task. That crash is not modelled. The same precondition is on `DeskState.StepCorrected`, `DeskState.ProcessData`, `DeskState.ProcessHeightData` and `DeskState.ProcessLimitData`.
- `current_height`, `max_height`, `min_height` and `mqtt_client` are declared as class attributes of `Desk`, but only their initial `None` is shared: the first assignment through `self` or `desk` (runner.py:104, 118-119, 217) creates an instance attribute. The program creates one desk, so the model keeps them in the one `Desk` value.
- The hardware notes and captured dumps in the docstrings are used only as concrete examples (module `Captures`).

## Findings

| source | as written | input that shows it | evidently intended | confidence | as-written member | corrected member |
|---|---|---|---|---|---|---|
| runner.py:90-96 | the block and the remaining queue are sliced with the inner index `ii`, which counts from `i+2`, as if the marker were always at position 0; a marker at any later position yields a slice that fails validation, and since nothing is consumed on failure, the queue never drains again | queue `0, 242, 242, 1, 3, 3, 31, 15, 53, 126`: one stray byte, then the captured height frame | slice from `i` to `i+ii+3` and keep the queue after `i+ii+3`, so that leading bytes are skipped and the frame is taken | medium; not executed | Framing.StrayByteExample | Framing.NextBlockCorrected |
