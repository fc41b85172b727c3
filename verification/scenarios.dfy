/** What the receive pipeline does with the frames captured in the
    docstring at the end of runner.py. */
module Captures {
  import opened PySeq
  import opened Framing
  import opened DeskState

  /** The response to the height-limits query (runner.py:327). */
  const LimitsResponse: seq<int> := [242, 242, 7, 4, 4, 226, 2, 88, 75, 126]

  /** The response to the memory-and-height query (runner.py:333-337):
      four memory blocks, then the current height. */
  const MemoryAndHeightResponse: seq<int> :=
    [242, 242, 37, 2, 25, 102, 166, 126]
    + [242, 242, 38, 2, 22, 86, 148, 126]
    + [242, 242, 39, 2, 49, 100, 190, 126]
    + [242, 242, 40, 2, 59, 130, 231, 126]
    + [242, 242, 1, 3, 3, 31, 15, 53, 126]

  /** The body of the limits response: id 7, length 4, 1250 and 600. */
  const LimitsBody: seq<int> := [7, 4, 4, 226, 2, 88]

  lemma LimitsBodyFacts()
    ensures Checksum(LimitsBody) == 75
    ensures IsLimitData(LimitsBody) && !IsHeightData(LimitsBody)
    ensures Delimitable(LimitsBody) && Decodable(LimitsBody)
    ensures Word(LimitsBody[2], LimitsBody[3]) == 1250 && Word(LimitsBody[4], LimitsBody[5]) == 600
  {
    SumShort(LimitsBody);
    assert Prefix(LimitsBody) == [7, 4];
  }

  /** The limits response validates and sets the maximum to 1250 mm and the
      minimum to 600 mm, publishing nothing. */
  lemma LimitsResponseExample()
    ensures ValidateDataBlock(LimitsResponse)
    ensures TakenDecodable(NextBlock(Initial.(queue := LimitsResponse).queue))
    ensures var d := Step(Initial.(queue := LimitsResponse));
      && d.maxHeight == Some(1250) && d.minHeight == Some(600)
      && d.queue == [] && d.published == [] && d.currentHeight == None
  {
    LimitsResponseFrame();
    LimitsStep(Initial.(queue := LimitsResponse), []);
  }

  lemma LimitsResponseFrame()
    ensures LimitsResponse == IncomingFrame(LimitsBody) + []
    ensures ValidateDataBlock(LimitsResponse)
  {
    LimitsBodyFacts();
    FrameLiteral(LimitsBody, 75);
    assert LimitsResponse == IncomingFrame(LimitsBody) + [];
    IncomingFrameRoundTrip(LimitsBody);
  }

  /** A limits block at the front of the queue records both limits. */
  lemma LimitsStep(d: Desk, rest: seq<int>)
    requires d.queue == IncomingFrame(LimitsBody) + rest
    ensures TakenDecodable(NextBlock(d.queue))
    ensures Step(d) == d.(queue := rest, maxHeight := Some(1250), minHeight := Some(600))
  {
    LimitsBodyFacts();
    StepTakesFrame(d, LimitsBody, rest);
  }

  /** The bodies of the five blocks of that response. */
  const Memory1: seq<int> := [37, 2, 25, 102]
  const Memory2: seq<int> := [38, 2, 22, 86]
  const Memory3: seq<int> := [39, 2, 49, 100]
  const Memory4: seq<int> := [40, 2, 59, 130]
  const HeightBody: seq<int> := [1, 3, 3, 31, 15]

  lemma ResponseChecksums()
    ensures Checksum(Memory1) == 166 && Checksum(Memory2) == 148
    ensures Checksum(Memory3) == 190 && Checksum(Memory4) == 231
    ensures Checksum(HeightBody) == 53
  {
    SumShort(Memory1); SumShort(Memory2); SumShort(Memory3); SumShort(Memory4);
    SumShort(HeightBody);
  }

  lemma ResponseBodies()
    ensures IsMemoryData(Memory1) && IsMemoryData(Memory2)
    ensures IsMemoryData(Memory3) && IsMemoryData(Memory4)
    ensures IsHeightData(HeightBody)
    ensures Delimitable(Memory1) && Delimitable(Memory2) && Delimitable(Memory3)
    ensures Delimitable(Memory4) && Delimitable(HeightBody)
  {
    ResponseChecksums();
    assert Prefix(Memory1) == [37, 2];
    assert Prefix(Memory2) == [38, 2];
    assert Prefix(Memory3) == [39, 2];
    assert Prefix(Memory4) == [40, 2];
    assert Prefix(HeightBody) == [1, 3];
  }

  /** What is left of the response after each step. */
  const Rest4: seq<int> := IncomingFrame(HeightBody) + []
  const Rest3: seq<int> := IncomingFrame(Memory4) + Rest4
  const Rest2: seq<int> := IncomingFrame(Memory3) + Rest3
  const Rest1: seq<int> := IncomingFrame(Memory2) + Rest2

  lemma ResponseLayout()
    ensures MemoryAndHeightResponse == IncomingFrame(Memory1) + Rest1
  {
    ResponseChecksums();
    FrameLiteral(Memory1, 166);
    FrameLiteral(Memory2, 148);
    FrameLiteral(Memory3, 190);
    FrameLiteral(Memory4, 231);
    FrameLiteral(HeightBody, 53);
    var f1: seq<int> := [242, 242, 37, 2, 25, 102, 166, 126];
    var f2: seq<int> := [242, 242, 38, 2, 22, 86, 148, 126];
    var f3: seq<int> := [242, 242, 39, 2, 49, 100, 190, 126];
    var f4: seq<int> := [242, 242, 40, 2, 59, 130, 231, 126];
    var f5: seq<int> := [242, 242, 1, 3, 3, 31, 15, 53, 126];
    assert IncomingFrame(Memory1) == f1;
    assert IncomingFrame(Memory2) == f2;
    assert IncomingFrame(Memory3) == f3;
    assert IncomingFrame(Memory4) == f4;
    assert IncomingFrame(HeightBody) == f5;
    assert f1 + (f2 + (f3 + (f4 + (f5 + [])))) == f1 + f2 + f3 + f4 + f5;
  }

  lemma FrameLiteral(body: seq<int>, checksum: Byte)
    requires Checksum(body) == checksum
    ensures IncomingFrame(body) == [242, 242] + body + [checksum, 126]
  {
  }

  /** The first memory block and the height block of the response, as
      captured, pass `validate_data_block`. */
  lemma CapturedBlocksValidate()
    ensures ValidateDataBlock([242, 242, 37, 2, 25, 102, 166, 126])
    ensures ValidateDataBlock([242, 242, 1, 3, 3, 31, 15, 53, 126])
  {
    ResponseChecksums();
    FrameLiteral(Memory1, 166);
    FrameLiteral(HeightBody, 53);
    IncomingFrameRoundTrip(Memory1);
    IncomingFrameRoundTrip(HeightBody);
    assert IncomingFrame(Memory1) == [242, 242, 37, 2, 25, 102, 166, 126];
    assert IncomingFrame(HeightBody) == [242, 242, 1, 3, 3, 31, 15, 53, 126];
  }

  /** The four memory blocks are drained one per step without effect. */
  lemma MemoryBlocksDrained()
    ensures TakenDecodable(NextBlock(MemoryAndHeightResponse))
    ensures Step(Initial.(queue := MemoryAndHeightResponse)) == Initial.(queue := Rest1)
    ensures TakenDecodable(NextBlock(Rest1)) && Step(Initial.(queue := Rest1)) == Initial.(queue := Rest2)
    ensures TakenDecodable(NextBlock(Rest2)) && Step(Initial.(queue := Rest2)) == Initial.(queue := Rest3)
    ensures TakenDecodable(NextBlock(Rest3)) && Step(Initial.(queue := Rest3)) == Initial.(queue := Rest4)
  {
    ResponseBodies();
    ResponseLayout();
    MemoryStep(Initial.(queue := MemoryAndHeightResponse), Memory1, Rest1);
    MemoryStep(Initial.(queue := Rest1), Memory2, Rest2);
    MemoryStep(Initial.(queue := Rest2), Memory3, Rest3);
    MemoryStep(Initial.(queue := Rest3), Memory4, Rest4);
  }

  /** The final height block records 799 mm and publishes 79. */
  lemma HeightBlockPublished()
    ensures TakenDecodable(NextBlock(Rest4))
    ensures Step(Initial.(queue := Rest4)) == Initial.(currentHeight := Some(799), published := [79])
  {
    HeightBodyFacts();
    HeightStep(Initial.(queue := Rest4), HeightBody, []);
  }

  lemma HeightBodyFacts()
    ensures IsHeightData(HeightBody) && |HeightBody| >= 4 && Delimitable(HeightBody)
    ensures Word(HeightBody[2], HeightBody[3]) == 799
  {
    ResponseChecksums();
    assert Prefix(HeightBody) == [1, 3];
  }

  /** A height block at the front of the queue of a desk with no known
      height records it and publishes it in centimetres. */
  lemma HeightStep(d: Desk, body: seq<int>, rest: seq<int>)
    requires IsHeightData(body) && |body| >= 4 && Delimitable(body)
    requires d.queue == IncomingFrame(body) + rest && d.currentHeight.None?
    ensures TakenDecodable(NextBlock(d.queue))
    ensures Step(d) == d.(queue := rest, currentHeight := Some(Word(body[2], body[3])),
                          published := d.published + [Word(body[2], body[3]) / 10])
  {
    StepTakesFrame(d, body, rest);
  }

  /** Every block of the memory-and-height response validates; five steps
      drain it, record a height of 799 mm and publish 79 once. */
  lemma MemoryAndHeightResponseExample()
    ensures var d0 := Initial.(queue := MemoryAndHeightResponse);
      && TakenDecodable(NextBlock(d0.queue))
      && var d1 := Step(d0);
      && TakenDecodable(NextBlock(d1.queue))
      && var d2 := Step(d1);
      && TakenDecodable(NextBlock(d2.queue))
      && var d3 := Step(d2);
      && TakenDecodable(NextBlock(d3.queue))
      && var d4 := Step(d3);
      && TakenDecodable(NextBlock(d4.queue))
      && var d5 := Step(d4);
      && d5.queue == []
      && d5.currentHeight == Some(799)
      && d5.published == [79]
      && d5.maxHeight == None && d5.minHeight == None
  {
    MemoryBlocksDrained();
    HeightBlockPublished();
  }

  /** A memory block at the front of the queue is drained and nothing else
      changes. */
  lemma MemoryStep(d: Desk, body: seq<int>, rest: seq<int>)
    requires IsMemoryData(body) && Delimitable(body)
    requires d.queue == IncomingFrame(body) + rest
    ensures TakenDecodable(NextBlock(d.queue))
    ensures Step(d) == d.(queue := rest)
  {
    MemoryDataIgnored(d.(queue := rest), body);
    StepTakesFrame(d, body, rest);
  }

  /** A correctly framed report of 894 mm: its low byte is 126. */
  const Report894: seq<int> := [242, 242, 1, 3, 3, 126, 15, 148, 126]

  lemma Report894Frames()
    ensures Report894 == IncomingFrame([1, 3, 3, 126, 15]) && ValidateDataBlock(Report894)
    ensures Word(3, 126) == 894
  {
    var body: seq<int> := [1, 3, 3, 126, 15];
    SumShort(body);
    FrameLiteral(body, 148);
    IncomingFrameRoundTrip(body);
  }

  /** The span up to the first 126 after the marker is `242,242,1,3,3,126`,
      which fails validation. */
  lemma Report894SpanFails()
    ensures FirstTerminator(Report894, 2) == Some(5)
    ensures !ValidateDataBlock(Report894[..6])
  {
    var span := Report894[..6];
    assert span == [242, 242, 1, 3, 3, 126];
    SumShort([1, 3]);
    assert Slice(span, 2, -2) == [1, 3];
  }

  /** The framer stops at the 126 inside the body, the short span fails
      validation, and the queue is jammed from then on, with either
      framer. */
  lemma EmbeddedTerminatorJams()
    ensures Report894 == IncomingFrame([1, 3, 3, 126, 15]) && ValidateDataBlock(Report894)
    ensures Word(3, 126) == 894
    ensures Jammed(Report894)
    ensures NextBlock(Report894) == Taken(None, Report894)
    ensures NextBlockCorrected(Report894) == Taken(None, Report894)
  {
    Report894Frames();
    Report894SpanFails();
    LeadingCandidateFails(Report894);
  }

  /** A correctly framed report of 1150 mm, whose low byte is also 126. */
  const Report1150: seq<int> := [242, 242, 1, 3, 4, 126, 15, 149, 126]

  lemma Report1150Frames()
    ensures Report1150 == IncomingFrame([1, 3, 4, 126, 15]) && ValidateDataBlock(Report1150)
    ensures Word(4, 126) == 1150
  {
    var body: seq<int> := [1, 3, 4, 126, 15];
    SumShort(body);
    FrameLiteral(body, 149);
    IncomingFrameRoundTrip(body);
  }

  /** Here the cut span `242,242,1,3,4,126` validates: the byte before its
      126 is the sum of `1,3`. */
  lemma Report1150SpanValid()
    ensures FirstTerminator(Report1150, 2) == Some(5)
    ensures Report1150[..6] == [242, 242, 1, 3, 4, 126]
    ensures ValidateDataBlock(Report1150[..6])
    ensures Report1150[6..] == [15, 149, 126]
  {
    var span := Report1150[..6];
    assert span == [242, 242, 1, 3, 4, 126];
    SumShort([1, 3]);
    assert Slice(span, 2, -2) == [1, 3];
  }

  /** The framer returns the two-byte body `1,3` and leaves the rest of the
      report queued. That body is a height reading too short for
      `process_height_data`, which raises `IndexError`; the queue is not
      jammed. */
  lemma CutSpanValidates()
    ensures Report1150 == IncomingFrame([1, 3, 4, 126, 15]) && ValidateDataBlock(Report1150)
    ensures NextBlock(Report1150) == Taken(Some([242, 242, 1, 3, 4, 126]), [15, 149, 126])
    ensures Unwrap([242, 242, 1, 3, 4, 126]) == [1, 3]
    ensures !TakenDecodable(NextBlock(Report1150))
    ensures !Jammed(Report1150)
  {
    Report1150Frames();
    Report1150SpanValid();
    TakesFromFront(Report1150, 5);
    NextBlockIsFrameAtFront(Report1150);
    var b: seq<int> := [242, 242, 1, 3, 4, 126];
    assert Unwrap(b) == [1, 3];
    assert Prefix([1, 3]) == [1, 3];
  }
}
