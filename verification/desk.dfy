/** The state the `Desk` class keeps and the receive pipeline over it:
    `check_rx` (runner.py:62-66), the telemetry handlers
    (runner.py:99-127) and one iteration of `process_queue`
    (runner.py:134-143). */
module DeskState {
  import opened PySeq
  import opened Framing

  /** The fields of a `Desk` the receive pipeline touches. `published` holds,
      in order, the values sent to `desk/height/read`; the handler publishes
      the decimal text of each, which is not modelled. */
  datatype Desk = Desk(
    queue: seq<int>,
    currentHeight: Option<int>,
    maxHeight: Option<int>,
    minHeight: Option<int>,
    published: seq<int>)

  /** A freshly constructed desk: empty queue, no heights known, nothing
      published. */
  const Initial: Desk := Desk([], None, None, None, [])

  /** `check_rx` with `data` the result of `uart.read()`; a `None` read and
      an empty read both leave the desk as it was. */
  function CheckRx(d: Desk, data: seq<int>): (d': Desk)
    ensures d'.queue == d.queue + data
    ensures d' == d.(queue := d'.queue)
  {
    if |data| == 0 then d else d.(queue := d.queue + data)
  }

  /** Receiving in two reads queues the same bytes as receiving once. */
  lemma CheckRxChunks(d: Desk, a: seq<int>, b: seq<int>)
    ensures CheckRx(CheckRx(d, a), b) == CheckRx(d, a + b)
  {
    assert d.queue + a + b == d.queue + (a + b);
  }

  /** A big-endian two-byte height, as the telemetry handlers read it. */
  function Word(hi: int, lo: int): (w: int)
    ensures 0 <= hi < 256 && 0 <= lo < 256 ==> 0 <= w < 65536 && w / 256 == hi && w % 256 == lo
  {
    hi * 256 + lo
  }

  /** `process_height_data`: a reading equal to the current height changes
      nothing; any other becomes the current height and its value in
      centimetres (`height // 10`) is published, once. */
  function ProcessHeightData(d: Desk, data: seq<int>): (d': Desk)
    requires |data| >= 4
    ensures d'.currentHeight == Some(Word(data[2], data[3]))
    ensures d.currentHeight == Some(Word(data[2], data[3])) ==> d' == d
    ensures d.currentHeight != Some(Word(data[2], data[3])) ==>
      d'.published == d.published + [Word(data[2], data[3]) / 10]
    ensures d'.queue == d.queue && d'.maxHeight == d.maxHeight && d'.minHeight == d.minHeight
  {
    var height := Word(data[2], data[3]);
    if d.currentHeight == Some(height) then d
    else d.(currentHeight := Some(height), published := d.published + [height / 10])
  }

  /** The same reading delivered twice publishes once. */
  lemma HeightDeduplicated(d: Desk, data: seq<int>)
    requires |data| >= 4
    ensures ProcessHeightData(ProcessHeightData(d, data), data) == ProcessHeightData(d, data)
    ensures |ProcessHeightData(ProcessHeightData(d, data), data).published| <= |d.published| + 1
  {
  }

  /** `process_limit_data`: bytes 2-3 are the maximum height and bytes 4-5
      the minimum; nothing is published. */
  function ProcessLimitData(d: Desk, data: seq<int>): (d': Desk)
    requires |data| >= 6
    ensures d'.maxHeight == Some(Word(data[2], data[3]))
    ensures d'.minHeight == Some(Word(data[4], data[5]))
    ensures d' == d.(maxHeight := d'.maxHeight, minHeight := d'.minHeight)
  {
    d.(maxHeight := Some(Word(data[2], data[3])), minHeight := Some(Word(data[4], data[5])))
  }

  /** The recorded limits give back the four bytes they were read from,
      and delivering the same limits again changes nothing. */
  lemma LimitDataRoundTrip(d: Desk, data: seq<int>)
    requires |data| >= 6
    requires forall k :: 2 <= k < 6 ==> 0 <= data[k] < 256
    ensures var d' := ProcessLimitData(d, data);
      && d'.maxHeight.value / 256 == data[2] && d'.maxHeight.value % 256 == data[3]
      && d'.minHeight.value / 256 == data[4] && d'.minHeight.value % 256 == data[5]
      && 0 <= d'.maxHeight.value < 65536 && 0 <= d'.minHeight.value < 65536
    ensures ProcessLimitData(ProcessLimitData(d, data), data) == ProcessLimitData(d, data)
  {
    assert 0 <= data[2] < 256 && 0 <= data[3] < 256;
    assert 0 <= data[4] < 256 && 0 <= data[5] < 256;
  }

  /** The first two bytes of a body, `data[:2]`. */
  function Prefix(data: seq<int>): seq<int>
  {
    Slice(data, 0, 2)
  }

  predicate IsHeightData(data: seq<int>)
  {
    Prefix(data) == [1, 3]
  }

  predicate IsMemoryData(data: seq<int>)
  {
    Prefix(data) in [[37, 2], [38, 2], [39, 2], [40, 2]]
  }

  predicate IsLimitData(data: seq<int>)
  {
    Prefix(data) == [7, 4]
  }

  /** The handlers index the body without checking its length; a body too
      short for its handler would raise `IndexError`, which is not
      modelled. */
  predicate Decodable(data: seq<int>)
  {
    && (IsHeightData(data) ==> |data| >= 4)
    && (IsLimitData(data) ==> |data| >= 6)
  }

  /** `process_data`: a height reading goes to `ProcessHeightData`, limits
      to `ProcessLimitData`; memory data is only printed and every other
      prefix is ignored. Only the height handler publishes. */
  function ProcessData(d: Desk, data: seq<int>): (d': Desk)
    requires Decodable(data)
    ensures d'.queue == d.queue
    ensures IsHeightData(data) ==> d' == ProcessHeightData(d, data)
    ensures IsLimitData(data) ==> d' == ProcessLimitData(d, data)
    ensures !IsHeightData(data) && !IsLimitData(data) ==> d' == d
    ensures !IsHeightData(data) ==> d'.published == d.published && d'.currentHeight == d.currentHeight
  {
    if IsHeightData(data) then ProcessHeightData(d, data)
    else if IsMemoryData(data) then d
    else if IsLimitData(data) then ProcessLimitData(d, data)
    else d
  }

  /** The two-byte prefixes `process_data` dispatches on are distinct, so
      memory data reaches no handler. */
  lemma MemoryDataIgnored(d: Desk, data: seq<int>)
    requires IsMemoryData(data)
    ensures Decodable(data) && ProcessData(d, data) == d
  {
  }

  /** Whether the block the framer yields can be handled without raising. */
  predicate TakenDecodable(t: Taken)
  {
    t.block.Some? ==> Decodable(Unwrap(t.block.value))
  }

  /** The rest of one `process_queue` iteration once a framer has run:
      nothing happens without a block; with one, its body is dispatched. */
  function Deliver(d: Desk, t: Taken): (d': Desk)
    requires TakenDecodable(t)
  {
    if t.block.None? || |t.block.value| == 0 then d.(queue := t.queue)
    else ProcessData(d.(queue := t.queue), Unwrap(t.block.value))
  }

  /** One iteration of `process_queue` after its sleep, with
      `get_next_block` as written. */
  function Step(d: Desk): (d': Desk)
    requires TakenDecodable(NextBlock(d.queue))
    ensures d'.queue == d.queue || (|d'.queue| < |d.queue| && d.queue[|d.queue| - |d'.queue|..] == d'.queue)
    ensures d'.published == d.published || (|d'.published| == |d.published| + 1 && d'.published[..|d.published|] == d.published)
  {
    if |d.queue| == 0 then d
    else
      NextBlockDrainsPrefix(d.queue);
      Deliver(d, NextBlock(d.queue))
  }

  lemma NextBlockDrainsPrefix(q: seq<int>)
    ensures var t := NextBlock(q);
      t.block.None? ==> t.queue == q
    ensures var t := NextBlock(q);
      t.block.Some? ==> |t.block.value| > 0 && |t.queue| < |q| && q[|q| - |t.queue|..] == t.queue
  {
    var t := NextBlock(q);
    if t.block.Some? {
      NextBlockReturnsLeadingFrame(q);
      assert q[|t.block.value|..] == t.queue;
    } else {
      NextBlockReturnsNothing(q);
    }
  }

  /** One iteration of `process_queue` with the corrected framer. */
  function StepCorrected(d: Desk): (d': Desk)
    requires TakenDecodable(NextBlockCorrected(d.queue))
    ensures d'.queue == d.queue || (|d'.queue| < |d.queue| && d.queue[|d.queue| - |d'.queue|..] == d'.queue)
    ensures d'.published == d.published || (|d'.published| == |d.published| + 1 && d'.published[..|d.published|] == d.published)
  {
    if |d.queue| == 0 then d
    else Deliver(d, NextBlockCorrected(d.queue))
  }

  /** A well-framed body at the front of the queue is taken off it and
      dispatched: the step is exactly `process_data` on that body. */
  lemma StepTakesFrame(d: Desk, body: seq<int>, rest: seq<int>)
    requires Delimitable(body) && Decodable(body)
    requires d.queue == IncomingFrame(body) + rest
    ensures TakenDecodable(NextBlock(d.queue))
    ensures Step(d) == ProcessData(d.(queue := rest), body)
  {
    NextBlockTakesFrame(body, rest);
    IncomingFrameRoundTrip(body);
  }

  /** The same height report received twice in a row is published once. */
  lemma RepeatedReportPublishedOnce(d: Desk, body: seq<int>, rest: seq<int>)
    requires Delimitable(body) && IsHeightData(body) && |body| >= 4
    requires d.queue == IncomingFrame(body) + IncomingFrame(body) + rest
    ensures TakenDecodable(NextBlock(d.queue))
    ensures TakenDecodable(NextBlock(Step(d).queue))
    ensures Step(Step(d)).queue == rest
    ensures Step(Step(d)).currentHeight == Some(Word(body[2], body[3]))
    ensures |Step(Step(d)).published| <= |d.published| + 1
  {
    var f := IncomingFrame(body);
    assert d.queue == f + (f + rest);
    StepTakesFrame(d, body, f + rest);
    var d1 := Step(d);
    StepTakesFrame(d1, body, rest);
    HeightDeduplicated(d.(queue := f + rest), body);
  }

  /** Once the queue is jammed no step changes anything but the queue's
      growth: nothing more is ever published or recorded. */
  lemma JammedDeskIsSilent(d: Desk, data: seq<int>)
    requires Jammed(d.queue)
    ensures TakenDecodable(NextBlock(CheckRx(d, data).queue))
    ensures Step(CheckRx(d, data)) == CheckRx(d, data)
    ensures Jammed(Step(CheckRx(d, data)).queue)
  {
    JammedForever(d.queue, data);
  }

  /** With the corrected framer a frame behind bytes holding no marker is
      still delivered. */
  lemma CorrectedStepSkipsGarbage(d: Desk, garbage: seq<int>, body: seq<int>, rest: seq<int>)
    requires forall k :: 0 <= k < |garbage| ==> garbage[k] != IncomingMarker
    requires Delimitable(body) && Decodable(body)
    requires d.queue == garbage + IncomingFrame(body) + rest
    ensures TakenDecodable(NextBlockCorrected(d.queue))
    ensures StepCorrected(d) == ProcessData(d.(queue := rest), body)
  {
    CorrectedSkipsGarbage(garbage, body, rest);
    IncomingFrameRoundTrip(body);
  }
}
