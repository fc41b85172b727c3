/** The incoming half of the desk protocol: `validate_data_block` and
    `get_next_block` of the `Desk` class (runner.py:69-97).

    `get_next_block` is modelled exactly as written, as the two nested scans
    `OuterScan` and `InnerScan`, and is then proved equal to `FrameAtFront`,
    a direct description of what it does: a block is only ever taken from
    the very front of the queue, because the slices on runner.py:90 and 96
    use the inner index `ii` as if the scan had started at position 0. */
module Framing {
  import opened PySeq

  const IncomingMarker: Byte := 242

  /** The shape of a valid incoming block around a body (command id,
      length byte and payload): marker, body, checksum of the body,
      terminator. */
  function IncomingFrame(body: seq<int>): (f: seq<int>)
    ensures |f| == |body| + 4
  {
    [IncomingMarker, IncomingMarker] + body + [Checksum(body), Terminator]
  }

  /** `block[2:-2]`: the body between the marker and the checksum byte. */
  function Unwrap<T>(block: seq<T>): seq<T>
  {
    Slice(block, 2, -2)
  }

  /** `validate_data_block` returns normally: the block starts 242,242, ends
      126, and its second-last byte is the mod-256 sum of `block[2:-2]`. */
  predicate ValidateDataBlock(block: seq<int>)
  {
    Slice(block, 0, 2) == [IncomingMarker, IncomingMarker]
    && block[|block| - 1] == Terminator
    && block[|block| - 2] == Checksum(Slice(block, 2, -2))
  }

  /** Exactly the blocks that frame their own `block[2:-2]` are accepted;
      the length byte inside the body is never checked. */
  lemma ValidateDataBlockFrames(block: seq<int>)
    ensures ValidateDataBlock(block) <==> |block| >= 4 && block == IncomingFrame(block[2..|block| - 2])
  {
    if |block| >= 4 {
      assert Slice(block, 2, -2) == block[2..|block| - 2];
      assert block == [block[0], block[1]] + block[2..|block| - 2] + [block[|block| - 2], block[|block| - 1]];
    } else if |block| >= 2 {
      assert Slice(block, 2, -2) == [];
    }
  }

  lemma IncomingFrameRoundTrip(body: seq<int>)
    ensures ValidateDataBlock(IncomingFrame(body))
    ensures Unwrap(IncomingFrame(body)) == body
  {
    var f := IncomingFrame(body);
    assert f[2..|f| - 2] == body;
    ValidateDataBlockFrames(f);
  }

  /** The position of the first 126 at or after `from`. */
  function FirstTerminator(q: seq<int>, from: nat): (t: Option<nat>)
    ensures t.Some? ==> from <= t.value < |q| && q[t.value] == Terminator
    ensures t.Some? ==> forall k :: from <= k < t.value ==> q[k] != Terminator
    ensures t.None? ==> forall k :: from <= k < |q| ==> q[k] != Terminator
    decreases |q| - from
  {
    if from >= |q| then None
    else if q[from] == Terminator then Some(from)
    else FirstTerminator(q, from + 1)
  }

  /** What one call of `get_next_block` yields: the block it returns, if
      any, and the queue it leaves behind. */
  datatype Taken = Taken(block: Option<seq<int>>, queue: seq<int>)

  /** The inner `for ii, dd in enumerate(self.data_queue[i+2:])` loop from
      index `ii` on, with `tail` the slice it enumerates. `None` means the
      loop ran out without returning. */
  function InnerScan(q: seq<int>, i: nat, tail: seq<int>, ii: nat): Option<Taken>
    decreases |tail| - ii
  {
    if ii >= |tail| then None
    else if tail[ii] != Terminator then InnerScan(q, i, tail, ii + 1)
    else Some(Attempt(q, i, ii))
  }

  /** The body of the inner loop once it meets a 126 (runner.py:90-97):
      slice the block, return nothing if it fails validation, otherwise
      drain the queue and return the block. */
  function Attempt(q: seq<int>, i: nat, ii: nat): Taken
  {
    var block := Slice(q, i, ii + 3);
    if !ValidateDataBlock(block) then Taken(None, q)
    else Taken(Some(block), Slice(q, ii + 3, |q|))
  }

  /** The outer `for i, d in enumerate(self.data_queue)` loop from index `i`
      on. */
  function OuterScan(q: seq<int>, i: nat): Option<Taken>
    decreases |q| - i
  {
    if i >= |q| then None
    else if Slice(q, i, i + 2) != [IncomingMarker, IncomingMarker] then OuterScan(q, i + 1)
    else match InnerScan(q, i, Slice(q, i + 2, |q|), 0)
      case Some(taken) => Some(taken)
      case None => OuterScan(q, i + 1)
  }

  /** `get_next_block`, as written. */
  function NextBlock(q: seq<int>): Taken
  {
    if |q| == 0 then Taken(None, q)
    else match OuterScan(q, 0)
      case Some(taken) => taken
      case None => Taken(None, q)
  }

  /** What `get_next_block` does, said directly: when the queue begins with
      the marker and some 126 follows it, the span up to the first such 126
      is validated; a valid span is cut off the front of the queue and
      returned, and in every other case nothing is returned and the queue is
      left as it was. */
  function FrameAtFront(q: seq<int>): Taken
  {
    if |q| >= 2 && q[0] == IncomingMarker && q[1] == IncomingMarker then
      match FirstTerminator(q, 2)
      case None => Taken(None, q)
      case Some(t) =>
        if ValidateDataBlock(q[..t + 1]) then Taken(Some(q[..t + 1]), q[t + 1..])
        else Taken(None, q)
    else Taken(None, q)
  }

  /** The inner loop stops at the first 126 of the slice it enumerates. */
  lemma {:induction false} InnerScanStopsAtTerminator(q: seq<int>, i: nat, tail: seq<int>, ii: nat)
    ensures FirstTerminator(tail, ii).None? ==> InnerScan(q, i, tail, ii).None?
    ensures FirstTerminator(tail, ii).Some? ==>
      InnerScan(q, i, tail, ii) == Some(Attempt(q, i, FirstTerminator(tail, ii).value))
    decreases |tail| - ii
  {
    if ii < |tail| && tail[ii] != Terminator {
      InnerScanStopsAtTerminator(q, i, tail, ii + 1);
    }
  }

  /** The first 126 of a suffix is the first 126 of the whole list at or
      after the suffix's start, shifted. */
  lemma {:induction false} FirstTerminatorSuffix(q: seq<int>, off: nat, j: nat)
    requires off <= |q|
    ensures FirstTerminator(q[off..], j).None? <==> FirstTerminator(q, off + j).None?
    ensures FirstTerminator(q[off..], j).Some? ==>
      FirstTerminator(q[off..], j).value + off == FirstTerminator(q, off + j).value
    decreases |q| - off - j
  {
    if off + j < |q| && q[off + j] != Terminator {
      FirstTerminatorSuffix(q, off, j + 1);
    }
  }

  /** The first 126 of `data_queue[i+2:]`, in the queue's own positions. */
  lemma TailTerminator(q: seq<int>, i: nat)
    ensures FirstTerminator(Slice(q, i + 2, |q|), 0).None? <==> FirstTerminator(q, i + 2).None?
    ensures FirstTerminator(Slice(q, i + 2, |q|), 0).Some? ==>
      FirstTerminator(Slice(q, i + 2, |q|), 0).value + i + 2 == FirstTerminator(q, i + 2).value
  {
    if i + 2 <= |q| {
      assert Slice(q, i + 2, |q|) == q[i + 2..];
      FirstTerminatorSuffix(q, i + 2, 0);
    } else {
      assert Slice(q, i + 2, |q|) == [];
    }
  }

  /** The inner loop for the marker at `i` reaches the first 126 at or after
      `i + 2`, if there is one, and then makes exactly one `Attempt`. */
  lemma InnerScanFindsTerminator(q: seq<int>, i: nat)
    ensures FirstTerminator(q, i + 2).None? ==> InnerScan(q, i, Slice(q, i + 2, |q|), 0).None?
    ensures FirstTerminator(q, i + 2).Some? ==>
      InnerScan(q, i, Slice(q, i + 2, |q|), 0) == Some(Attempt(q, i, FirstTerminator(q, i + 2).value - i - 2))
  {
    var tail := Slice(q, i + 2, |q|);
    TailTerminator(q, i);
    match FirstTerminator(q, i + 2)
    case None =>
      assert FirstTerminator(tail, 0) == None;
      InnerScanStopsAtTerminator(q, i, tail, 0);
    case Some(t) =>
      var ii := t - i - 2;
      assert FirstTerminator(tail, 0) == Some(ii);
      InnerScanStopsAtTerminator(q, i, tail, 0);
      assert InnerScan(q, i, tail, 0) == Some(Attempt(q, i, ii));
  }

  /** A marker found after position 0 never yields a valid block: with the
      126 at absolute position `t`, the slice `data_queue[i:ii+3]` ends at
      `t - i`, before the terminator, on a byte that is not 126, or is too
      short to validate. */
  lemma MisplacedSliceFails(q: seq<int>, i: nat, t: nat)
    requires 1 <= i
    requires FirstTerminator(q, i + 2) == Some(t)
    ensures Attempt(q, i, t - i - 2) == Taken(None, q)
  {
    var block := Slice(q, i, t - i + 1);
    ValidateDataBlockFrames(block);
    if |block| >= 4 {
      assert block == q[i..t - i + 1];
      assert block[|block| - 1] == q[t - i] != Terminator;
    }
  }

  /** The inner loop for a marker after position 0 either runs out or
      returns nothing with the queue untouched. */
  lemma LaterMarkerYieldsNothing(q: seq<int>, i: nat)
    requires 1 <= i
    ensures var r := InnerScan(q, i, Slice(q, i + 2, |q|), 0);
      r == None || r == Some(Taken(None, q))
  {
    var tail := Slice(q, i + 2, |q|);
    InnerScanFindsTerminator(q, i);
    match FirstTerminator(q, i + 2)
    case Some(t) =>
      assert InnerScan(q, i, tail, 0) == Some(Attempt(q, i, t - i - 2));
      MisplacedSliceFails(q, i, t);
    case None =>
  }

  lemma {:induction false} OuterScanPastFront(q: seq<int>, i: nat)
    requires 1 <= i
    ensures OuterScan(q, i) == None || OuterScan(q, i) == Some(Taken(None, q))
    decreases |q| - i
  {
    if i < |q| {
      OuterScanPastFront(q, i + 1);
      if Slice(q, i, i + 2) != [IncomingMarker, IncomingMarker] {
        assert OuterScan(q, i) == OuterScan(q, i + 1);
      } else {
        LaterMarkerYieldsNothing(q, i);
        match InnerScan(q, i, Slice(q, i + 2, |q|), 0)
        case Some(taken) =>
          assert OuterScan(q, i) == Some(taken);
        case None =>
          assert OuterScan(q, i) == OuterScan(q, i + 1);
      }
    }
  }

  /** `get_next_block` as written agrees with its direct description. */
  lemma NextBlockIsFrameAtFront(q: seq<int>)
    ensures NextBlock(q) == FrameAtFront(q)
  {
    if |q| > 0 {
      OuterScanPastFront(q, 1);
      if |q| >= 2 && q[0] == IncomingMarker && q[1] == IncomingMarker {
        MarkerAtFront(q);
      } else {
        assert Slice(q, 0, 2) != [IncomingMarker, IncomingMarker] by {
          if |q| >= 2 { assert Slice(q, 0, 2) == q[..2]; }
        }
        assert OuterScan(q, 0) == OuterScan(q, 1);
      }
    }
  }

  lemma MarkerAtFront(q: seq<int>)
    requires |q| >= 2 && q[0] == IncomingMarker && q[1] == IncomingMarker
    ensures NextBlock(q) == FrameAtFront(q)
  {
    assert Slice(q, 0, 2) == [IncomingMarker, IncomingMarker] by {
      assert Slice(q, 0, 2) == q[..2];
    }
    var tail := Slice(q, 2, |q|);
    InnerScanFindsTerminator(q, 0);
    match FirstTerminator(q, 2)
    case Some(t) =>
      assert InnerScan(q, 0, tail, 0) == Some(Attempt(q, 0, t - 2));
      assert OuterScan(q, 0) == Some(Attempt(q, 0, t - 2));
      assert Slice(q, 0, t + 1) == q[..t + 1];
      assert Slice(q, t + 1, |q|) == q[t + 1..];
      assert Attempt(q, 0, t - 2) == FrameAtFront(q);
    case None =>
      assert InnerScan(q, 0, tail, 0) == None;
      OuterScanPastFront(q, 1);
      assert OuterScan(q, 0) == OuterScan(q, 1);
  }

  /** `get_next_block` as the nested loops of runner.py:84-97, with the
      queue passed in and the drained queue passed back. */
  method GetNextBlock(q: seq<int>) returns (block: Option<seq<int>>, rest: seq<int>)
    ensures Taken(block, rest) == FrameAtFront(q)
  {
    NextBlockIsFrameAtFront(q);
    block, rest := None, q;
    if |q| == 0 {
      return;
    }
    var i := 0;
    while i < |q|
      invariant 0 <= i <= |q|
      invariant OuterScan(q, 0) == OuterScan(q, i)
    {
      if Slice(q, i, i + 2) == [IncomingMarker, IncomingMarker] {
        var found := ScanForTerminator(q, i);
        if found.Some? {
          assert OuterScan(q, i) == found;
          block, rest := found.value.block, found.value.queue;
          return;
        }
      }
      i := i + 1;
    }
  }

  /** The inner loop of `get_next_block` for the marker at `i`. */
  method ScanForTerminator(q: seq<int>, i: nat) returns (found: Option<Taken>)
    ensures found == InnerScan(q, i, Slice(q, i + 2, |q|), 0)
  {
    var tail := Slice(q, i + 2, |q|);
    var ii := 0;
    while ii < |tail|
      invariant 0 <= ii <= |tail|
      invariant InnerScan(q, i, tail, 0) == InnerScan(q, i, tail, ii)
    {
      if tail[ii] == Terminator {
        var nextBlock := Slice(q, i, ii + 3);
        if !ValidateDataBlock(nextBlock) {
          return Some(Taken(None, q));
        }
        return Some(Taken(Some(nextBlock), Slice(q, ii + 3, |q|)));
      }
      ii := ii + 1;
    }
    return None;
  }

  /** A block returned by `get_next_block` starts with the marker, ends at
      the first 126 after it, passes validation, and is exactly the part of
      the queue that was drained. */
  lemma NextBlockReturnsLeadingFrame(q: seq<int>)
    requires NextBlock(q).block.Some?
    ensures var b := NextBlock(q).block.value;
      && |b| >= 4
      && b[0] == IncomingMarker && b[1] == IncomingMarker
      && b[|b| - 1] == Terminator
      && (forall k :: 2 <= k < |b| - 1 ==> b[k] != Terminator)
      && ValidateDataBlock(b)
      && b + NextBlock(q).queue == q
  {
    NextBlockIsFrameAtFront(q);
    var t := TakenFromFront(q);
    var b := q[..t + 1];
    ValidateDataBlockFrames(b);
    assert b + q[t + 1..] == q;
  }

  /** When `FrameAtFront` yields a block, it is the span up to the first 126
      after the marker, and the rest of the queue is left. */
  lemma TakenFromFront(q: seq<int>) returns (t: nat)
    requires FrameAtFront(q).block.Some?
    ensures |q| >= 2 && q[0] == IncomingMarker && q[1] == IncomingMarker
    ensures FirstTerminator(q, 2) == Some(t)
    ensures ValidateDataBlock(q[..t + 1])
    ensures FrameAtFront(q) == Taken(Some(q[..t + 1]), q[t + 1..])
  {
    t := FirstTerminator(q, 2).value;
  }

  /** The cases in which `get_next_block` returns nothing and leaves the
      queue untouched. */
  lemma NextBlockReturnsNothing(q: seq<int>)
    ensures |q| == 0 ==> NextBlock(q) == Taken(None, q)
    ensures !(|q| >= 2 && q[0] == IncomingMarker && q[1] == IncomingMarker) ==>
      NextBlock(q) == Taken(None, q)
    ensures (forall i, t :: 0 <= i && i + 2 <= t < |q| && q[i] == IncomingMarker && q[i + 1] == IncomingMarker
               ==> q[t] != Terminator) ==>
      NextBlock(q) == Taken(None, q)
    ensures (|q| >= 2 && FirstTerminator(q, 2).Some? && !ValidateDataBlock(q[..FirstTerminator(q, 2).value + 1])) ==>
      NextBlock(q) == Taken(None, q)
    ensures NextBlock(q).block.None? ==> NextBlock(q).queue == q
  {
    NextBlockIsFrameAtFront(q);
    if |q| >= 2 && q[0] == IncomingMarker && q[1] == IncomingMarker && FirstTerminator(q, 2).Some? {
      var t := FirstTerminator(q, 2).value;
      assert q[0] == IncomingMarker && q[1] == IncomingMarker && 2 <= t < |q|;
    }
  }

  lemma {:induction false} FirstTerminatorAppend(q: seq<int>, more: seq<int>, from: nat)
    requires FirstTerminator(q, from).Some?
    ensures FirstTerminator(q + more, from) == FirstTerminator(q, from)
    decreases |q| - from
  {
    if q[from] != Terminator {
      FirstTerminatorAppend(q, more, from + 1);
    }
  }

  /** Bytes arriving later do not change a block already there to take:
      the same block is returned and the new bytes stay queued behind it. */
  lemma AppendKeepsTakenBlock(q: seq<int>, more: seq<int>)
    requires NextBlock(q).block.Some?
    ensures NextBlock(q + more) == Taken(NextBlock(q).block, NextBlock(q).queue + more)
  {
    NextBlockIsFrameAtFront(q);
    NextBlockIsFrameAtFront(q + more);
    AppendKeepsFrameAtFront(q, more);
  }

  lemma AppendKeepsFrameAtFront(q: seq<int>, more: seq<int>)
    requires FrameAtFront(q).block.Some?
    ensures FrameAtFront(q + more) == Taken(FrameAtFront(q).block, FrameAtFront(q).queue + more)
  {
    var t := TakenFromFront(q);
    var q' := q + more;
    FirstTerminatorAppend(q, more, 2);
    assert q'[..t + 1] == q[..t + 1];
    TakesFromFront(q', t);
    assert q'[t + 1..] == q[t + 1..] + more;
  }

  /** A valid span up to the first 126 after a leading marker is taken. */
  lemma TakesFromFront(q: seq<int>, t: nat)
    requires |q| >= 2 && q[0] == IncomingMarker && q[1] == IncomingMarker
    requires FirstTerminator(q, 2) == Some(t)
    requires ValidateDataBlock(q[..t + 1])
    ensures FrameAtFront(q) == Taken(Some(q[..t + 1]), q[t + 1..])
  {
  }

  /** A queue from which `get_next_block` will never take anything again,
      whatever arrives: it starts with something other than the marker, or
      its leading candidate block is complete and fails validation. */
  predicate Jammed(q: seq<int>)
  {
    || (|q| >= 1 && q[0] != IncomingMarker)
    || (|q| >= 2 && q[1] != IncomingMarker)
    || (|q| >= 2 && FirstTerminator(q, 2).Some? && !ValidateDataBlock(q[..FirstTerminator(q, 2).value + 1]))
  }

  lemma JammedForever(q: seq<int>, more: seq<int>)
    requires Jammed(q)
    ensures Jammed(q + more)
    ensures NextBlock(q + more) == Taken(None, q + more)
  {
    var q' := q + more;
    NextBlockIsFrameAtFront(q');
    if |q| >= 2 && FirstTerminator(q, 2).Some? && !ValidateDataBlock(q[..FirstTerminator(q, 2).value + 1]) {
      FirstTerminatorAppend(q, more, 2);
      assert q'[..FirstTerminator(q, 2).value + 1] == q[..FirstTerminator(q, 2).value + 1];
    }
  }

  /** A queue whose leading candidate fails validation yields nothing with
      either framer, and is jammed. */
  lemma LeadingCandidateFails(q: seq<int>)
    requires |q| >= 2 && q[0] == IncomingMarker && q[1] == IncomingMarker
    requires FirstTerminator(q, 2).Some? && !ValidateDataBlock(q[..FirstTerminator(q, 2).value + 1])
    ensures Jammed(q)
    ensures NextBlock(q) == Taken(None, q)
    ensures NextBlockCorrected(q) == Taken(None, q)
  {
    JammedForever(q, []);
    assert q + [] == q;
    CorrectedAgreesAtFront(q);
  }

  /** The position of the first `242, 242` pair starting at or after `from`. */
  function FirstMarker(q: seq<int>, from: nat): (i: Option<nat>)
    ensures i.Some? ==> from <= i.value && i.value + 1 < |q|
    ensures i.Some? ==> q[i.value] == IncomingMarker && q[i.value + 1] == IncomingMarker
    ensures i.Some? ==> forall k :: from <= k < i.value ==> !(q[k] == IncomingMarker && q[k + 1] == IncomingMarker)
    ensures i.None? ==> forall k :: from <= k && k + 1 < |q| ==> !(q[k] == IncomingMarker && q[k + 1] == IncomingMarker)
    decreases |q| - from
  {
    if from + 1 >= |q| then None
    else if q[from] == IncomingMarker && q[from + 1] == IncomingMarker then Some(from)
    else FirstMarker(q, from + 1)
  }

  /** `get_next_block` with the slices written as evidently intended,
      `data_queue[i:i+ii+3]` and `data_queue[i+ii+3:]`: the first marker is
      found wherever it is, the span up to the first 126 after it is
      validated, and a valid span is returned with everything before and in
      it drained. */
  function NextBlockCorrected(q: seq<int>): (r: Taken)
    ensures r.block.None? ==> r.queue == q
    ensures r.block.Some? ==> ValidateDataBlock(r.block.value)
    ensures r.block.Some? ==> |r.block.value| + |r.queue| <= |q|
    ensures r.block.Some? ==> q[|q| - |r.queue| - |r.block.value|..] == r.block.value + r.queue
    ensures r.block.Some? ==> FirstMarker(q, 0) == Some(|q| - |r.queue| - |r.block.value|)
  {
    match FirstMarker(q, 0)
    case None => Taken(None, q)
    case Some(i) =>
      match FirstTerminator(q, i + 2)
      case None => Taken(None, q)
      case Some(t) =>
        if ValidateDataBlock(q[i..t + 1]) then
          assert q[i..] == q[i..t + 1] + q[t + 1..];
          Taken(Some(q[i..t + 1]), q[t + 1..])
        else Taken(None, q)
  }

  /** On a queue that starts with the marker the correction changes nothing. */
  lemma CorrectedAgreesAtFront(q: seq<int>)
    requires |q| >= 2 && q[0] == IncomingMarker && q[1] == IncomingMarker
    ensures NextBlockCorrected(q) == NextBlock(q)
  {
    NextBlockIsFrameAtFront(q);
    assert q[0..] == q;
  }

  /** A body that the framer delimits correctly: no 126 inside it or as its
      checksum, so the first 126 after the marker is the frame's own. */
  predicate Delimitable(body: seq<int>)
  {
    && (forall k :: 0 <= k < |body| ==> body[k] != Terminator)
    && Checksum(body) != Terminator
  }

  /** A delimitable frame at the front of the queue is what
      `get_next_block` as written returns, and only it is drained. */
  lemma NextBlockTakesFrame(body: seq<int>, rest: seq<int>)
    requires Delimitable(body)
    ensures NextBlock(IncomingFrame(body) + rest) == Taken(Some(IncomingFrame(body)), rest)
  {
    var q: seq<int> := IncomingFrame(body) + rest;
    assert [] + IncomingFrame(body) + rest == q;
    CorrectedSkipsGarbage([], body, rest);
    CorrectedAgreesAtFront(q);
  }

  /** A complete valid frame behind bytes that hold no marker: the corrected
      framer returns it and drains the leading bytes with it. */
  lemma CorrectedSkipsGarbage(garbage: seq<int>, body: seq<int>, rest: seq<int>)
    requires forall k :: 0 <= k < |garbage| ==> garbage[k] != IncomingMarker
    requires Delimitable(body)
    ensures NextBlockCorrected(garbage + IncomingFrame(body) + rest) == Taken(Some(IncomingFrame(body)), rest)
  {
    var f := IncomingFrame(body);
    var q: seq<int> := garbage + f + rest;
    var g := |garbage|;
    var t := g + |f| - 1;
    FrameLayout(garbage, body, rest);
    assert FirstMarker(q, 0) == Some(g);
    assert FirstTerminator(q, g + 2) == Some(t) by {
      assert forall k :: g + 2 <= k < t ==> q[k] != Terminator;
    }
    IncomingFrameRoundTrip(body);
  }

  /** Where the pieces of `garbage + IncomingFrame(body) + rest` sit. */
  lemma FrameLayout(garbage: seq<int>, body: seq<int>, rest: seq<int>)
    requires Delimitable(body)
    ensures var q := garbage + IncomingFrame(body) + rest;
      var g := |garbage|;
      var t := g + |body| + 3;
      && t < |q|
      && q[g] == IncomingMarker && q[g + 1] == IncomingMarker && q[t] == Terminator
      && (forall k :: 0 <= k < g ==> q[k] == garbage[k])
      && (forall k :: g + 2 <= k < t ==> q[k] != Terminator)
      && q[g..t + 1] == IncomingFrame(body)
      && q[t + 1..] == rest
  {
    var f := IncomingFrame(body);
    var q := garbage + f + rest;
    var g := |garbage|;
    var t := g + |body| + 3;
    assert forall k :: g + 2 <= k < t - 1 ==> q[k] == body[k - g - 2];
    assert q[t - 1] == Checksum(body);
  }

  /** The same queue leaves `get_next_block` as written stuck: as soon as one
      byte precedes the marker nothing is ever returned. */
  lemma AsWrittenJamsOnGarbage(garbage: seq<int>, body: seq<int>, rest: seq<int>)
    requires |garbage| >= 1
    requires forall k :: 0 <= k < |garbage| ==> garbage[k] != IncomingMarker
    ensures Jammed(garbage + IncomingFrame(body) + rest)
    ensures NextBlock(garbage + IncomingFrame(body) + rest) == Taken(None, garbage + IncomingFrame(body) + rest)
  {
    var q: seq<int> := garbage + IncomingFrame(body) + rest;
    assert q[0] == garbage[0];
    JammedForever(q, []);
    assert q + [] == q;
  }

  /** The height report captured at runner.py:337, received after a single
      stray zero byte. */
  const StrayByteQueue: seq<int> := [0, 242, 242, 1, 3, 3, 31, 15, 53, 126]

  lemma StrayByteExample()
    ensures NextBlock(StrayByteQueue) == Taken(None, StrayByteQueue)
    ensures NextBlockCorrected(StrayByteQueue) == Taken(Some(StrayByteQueue[1..]), [])
  {
    var body: seq<int> := [1, 3, 3, 31, 15];
    SumShort(body);
    var f := IncomingFrame(body);
    assert f == StrayByteQueue[1..];
    assert StrayByteQueue == [0] + f + [];
    AsWrittenJamsOnGarbage([0], body, []);
    CorrectedSkipsGarbage([0], body, []);
  }

}
