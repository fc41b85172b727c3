/** The outgoing half of the desk protocol: the command frames the `Desk`
    class sends (runner.py:17-21, 37-60), the `bytearray` conversion in
    `send` (runner.py:34-35), and the MQTT handler's centimetre scaling
    (runner.py:203-207). The program runs on MicroPython, whose `bytearray`
    keeps the low 8 bits of each integer instead of raising. */
module Commands {
  import opened PySeq

  const OutgoingMarker: Byte := 241
  const GoToHeightId: Byte := 27

  /** The five fixed command lists of the `Desk` class. */
  const MoveUpData: seq<int> := [241, 241, 1, 0, 1, 126]
  const MoveDownData: seq<int> := [241, 241, 2, 0, 2, 126]
  const StopData: seq<int> := [241, 241, 43, 0, 43, 126]
  const MemoryAndCurrentHeightData: seq<int> := [241, 241, 7, 0, 7, 126]
  const HeightLimitsData: seq<int> := [241, 241, 12, 0, 12, 126]

  /** What the desk can be asked to do; `GoToHeight` carries the height in
      millimetres exactly as `go_to_height` receives it, unchecked. */
  datatype Command =
    | MoveUp
    | MoveDown
    | Stop
    | QueryMemoryAndHeight
    | QueryLimits
    | GoToHeight(height: int)

  /** The shape every outgoing frame has: marker, command id, length byte,
      payload, checksum over id, length and payload, terminator. */
  function CommandFrame(id: int, payload: seq<int>): seq<int>
    requires |payload| < 256
  {
    [OutgoingMarker, OutgoingMarker, id, |payload|] + payload
      + [Checksum([id, |payload|] + payload), Terminator]
  }

  /** A list is an outgoing frame: it starts 241,241, ends 126, its length
      byte matches the payload, and its checksum byte is the sum of the bytes
      between the marker and the checksum, mod 256. */
  predicate WellFormedCommand(f: seq<int>)
  {
    && |f| >= 6
    && f[0] == OutgoingMarker && f[1] == OutgoingMarker
    && f[|f| - 1] == Terminator
    && f[3] == |f| - 6
    && f[|f| - 2] == Checksum(f[2..|f| - 2])
  }

  /** Reads the command id and payload back out of an outgoing frame. */
  function DecodeCommand(f: seq<int>): Option<(int, seq<int>)>
  {
    if WellFormedCommand(f) then Some((f[2], f[4..|f| - 2])) else None
  }

  lemma CommandFrameRoundTrip(id: int, payload: seq<int>)
    requires |payload| < 256
    ensures WellFormedCommand(CommandFrame(id, payload))
    ensures DecodeCommand(CommandFrame(id, payload)) == Some((id, payload))
  {
    var f := CommandFrame(id, payload);
    assert f[2..|f| - 2] == [id, |payload|] + payload;
    assert f[4..|f| - 2] == payload;
  }

  lemma DecodeCommandRoundTrip(f: seq<int>)
    requires AllBytes(f) && DecodeCommand(f).Some?
    ensures |DecodeCommand(f).value.1| < 256
    ensures CommandFrame(DecodeCommand(f).value.0, DecodeCommand(f).value.1) == f
  {
    var payload := f[4..|f| - 2];
    assert |payload| == f[3];
    assert f[2..|f| - 2] == [f[2], f[3]] + payload;
    assert Checksum([f[2], |payload|] + payload) == f[|f| - 2];
    assert f == [f[0], f[1], f[2], f[3]] + payload + [f[|f| - 2], f[|f| - 1]];
  }

  /** The command id of every command. */
  function Id(c: Command): int
  {
    match c
    case MoveUp => 1
    case MoveDown => 2
    case Stop => 43
    case QueryMemoryAndHeight => 7
    case QueryLimits => 12
    case GoToHeight(_) => GoToHeightId
  }

  /** The list `go_to_height` builds: the height split with Python's floor
      `//` and `%` into a high and a low byte, then the checksum. Nothing
      bounds the height, so for a height outside 0..65535 the high byte is
      not a byte at all. */
  function GoToHeightData(height: int): (f: seq<int>)
    ensures |f| == 8
    ensures f[..4] == [241, 241, 27, 2] && f[7] == 126
    ensures f[4] * 256 + f[5] == height && 0 <= f[5] < 256
    ensures f[6] == Checksum(f[2..6])
    ensures AllBytes(f) <==> 0 <= height < 65536
  {
    var first := height / 256;
    var second := height % 256;
    var third := (27 + 2 + first + second) % 256;
    SumShort([27, 2, first, second]);
    assert [241, 241, 27, 2, first, second, third, 126][2..6] == [27, 2, first, second];
    [241, 241, 27, 2, first, second, third, 126]
  }

  /** The list `send` is handed for each command (runner.py:42-60). */
  function Encode(c: Command): (f: seq<int>)
    ensures WellFormedCommand(f)
    ensures DecodeCommand(f).Some? && DecodeCommand(f).value.0 == Id(c)
    ensures !c.GoToHeight? ==> DecodeCommand(f).value.1 == []
  {
    match c
    case MoveUp => FixedFrame(1); MoveUpData
    case MoveDown => FixedFrame(2); MoveDownData
    case Stop => FixedFrame(43); StopData
    case QueryMemoryAndHeight => FixedFrame(7); MemoryAndCurrentHeightData
    case QueryLimits => FixedFrame(12); HeightLimitsData
    case GoToHeight(h) =>
      var f := GoToHeightData(h);
      GoToHeightIsCommandFrame(h);
      CommandFrameRoundTrip(GoToHeightId, [h / 256, h % 256]);
      f
  }

  /** A frame with an empty payload is `241,241,id,0,id,126`. */
  lemma FixedFrame(id: Byte)
    ensures CommandFrame(id, []) == [241, 241, id, 0, id, 126]
    ensures WellFormedCommand(CommandFrame(id, []))
    ensures DecodeCommand(CommandFrame(id, [])) == Some((id, []))
  {
    SumShort([id, 0]);
    assert [id, 0] + [] == [id, 0];
    CommandFrameRoundTrip(id, []);
  }

  /** The fixed frames are exactly the generic frame shape with an empty
      payload, so each has length byte 0 and checksum equal to its id. */
  lemma FixedFramesHaveEmptyPayload(c: Command)
    requires !c.GoToHeight?
    ensures Encode(c) == CommandFrame(Id(c), [])
    ensures Encode(c)[3] == 0 && Encode(c)[4] == Id(c)
  {
    SumShort([Id(c), 0]);
    assert [Id(c), 0] + [] == [Id(c), 0];
  }

  lemma GoToHeightIsCommandFrame(height: int)
    ensures GoToHeightData(height) == CommandFrame(GoToHeightId, [height / 256, height % 256])
  {
    SumShort([GoToHeightId, 2, height / 256, height % 256]);
    assert [GoToHeightId, 2] + [height / 256, height % 256] == [GoToHeightId, 2, height / 256, height % 256];
  }

  /** The height a go-to-height frame asks for, read back from its payload. */
  function DecodeTargetHeight(f: seq<int>): Option<int>
  {
    match DecodeCommand(f)
    case Some((id, payload)) =>
      if id == GoToHeightId && |payload| == 2 then Some(payload[0] * 256 + payload[1]) else None
    case None => None
  }

  lemma GoToHeightRoundTrip(height: int)
    ensures DecodeTargetHeight(Encode(GoToHeight(height))) == Some(height)
  {
    GoToHeightIsCommandFrame(height);
    CommandFrameRoundTrip(GoToHeightId, [height / 256, height % 256]);
  }

  /** `bytearray(command)` in `send` under MicroPython: each element is
      stored modulo 256, so nothing raises and byte values pass unchanged. */
  function Send(command: seq<int>): (r: seq<Byte>)
    ensures |r| == |command|
    ensures forall k :: 0 <= k < |r| ==> r[k] == command[k] % 256
  {
    seq(|command|, k requires 0 <= k < |command| => command[k] % 256)
  }

  /** A list of bytes is written unchanged, and writing is idempotent. */
  lemma SendKeepsBytes(command: seq<int>)
    ensures AllBytes(command) <==> Send(command) == command
    ensures Send(Send(command)) == Send(command)
  {
    if AllBytes(command) {
      assert forall k :: 0 <= k < |command| ==> Send(command)[k] == command[k];
    }
  }

  /** The high byte of `h % 65536` is the high byte of `h` modulo 256, and
      the low byte is the same. */
  lemma HeightBytes(h: int)
    ensures (h % 65536) / 256 == (h / 256) % 256
    ensures (h % 65536) % 256 == h % 256
  {
    var b := (h / 256) % 256;
    var c := h % 256;
    var a := (h / 256) / 256;
    assert h / 256 == 256 * a + b;
    assert h == 65536 * a + (256 * b + c);
    assert 0 <= 256 * b + c < 65536;
    assert h % 65536 == 256 * b + c;
  }

  /** `go_to_height` sends any height: what is written is the frame for the
      height modulo 65536, well formed and asking for `h % 65536`. */
  lemma GoToHeightSent(height: int)
    ensures Send(Encode(GoToHeight(height))) == Encode(GoToHeight(height % 65536))
    ensures WellFormedCommand(Send(Encode(GoToHeight(height))))
    ensures DecodeTargetHeight(Send(Encode(GoToHeight(height)))) == Some(height % 65536)
  {
    SendTruncatesHeight(height);
    GoToHeightRoundTrip(height % 65536);
  }

  lemma SendTruncatesHeight(height: int)
    ensures Send(GoToHeightData(height)) == GoToHeightData(height % 65536)
  {
    var hi := height / 256;
    var lo := height % 256;
    HeightBytes(height);
    ModSum(29 + lo, hi);
    var cs := (29 + lo + hi) % 256;
    assert GoToHeightData(height) == [241, 241, 27, 2, hi, lo, cs, 126];
    assert GoToHeightData(height % 65536) == [241, 241, 27, 2, hi % 256, lo, cs, 126];
    SendGoToHeightList(hi, lo, cs);
  }

  /** What `bytearray` makes of a go-to-height list. */
  lemma SendGoToHeightList(hi: int, lo: Byte, cs: Byte)
    ensures Send([241, 241, 27, 2, hi, lo, cs, 126]) == [241, 241, 27, 2, hi % 256, lo, cs, 126]
  {
    var r := Send([241, 241, 27, 2, hi, lo, cs, 126]);
    assert forall k :: 0 <= k < 8 ==> r[k] == [241, 241, 27, 2, hi % 256, lo, cs, 126][k];
  }

  /** Reducing one summand modulo 256 does not change the sum modulo 256. */
  lemma ModSum(x: int, y: int)
    ensures (x + y) % 256 == (x + y % 256) % 256
  {
    assert x + y == (x + y % 256) + 256 * (y / 256);
  }

  /** The two captured go-to-height frames (runner.py:280, 294). */
  lemma GoToHeightExamples()
    ensures Encode(GoToHeight(700)) == [241, 241, 27, 2, 2, 188, 219, 126]
    ensures Encode(GoToHeight(800)) == [241, 241, 27, 2, 3, 32, 64, 126]
  {
  }

  /** A height above 65535 is sent as a valid frame for the height modulo
      65536: 70000 mm goes out as a request for 4464 mm. */
  lemma OutOfRangeHeightExample()
    ensures Send(Encode(GoToHeight(70000))) == [241, 241, 27, 2, 17, 112, 158, 126]
    ensures DecodeTargetHeight(Send(Encode(GoToHeight(70000)))) == Some(4464)
  {
    GoToHeightSent(70000);
    assert 70000 % 65536 == 4464;
    assert GoToHeightData(4464) == [241, 241, 27, 2, 17, 112, 158, 126];
  }

  const SetHeightTopic: string := "desk/height/set"

  /** `handle_events` after `int(msg)` has produced `n`: messages on other
      topics are ignored; on the set topic the desk is sent to `10 * n`
      millimetres, since the message gives centimetres. */
  function HandleEvents(topic: string, n: int): (r: Option<seq<int>>)
    ensures r.Some? <==> topic == SetHeightTopic
    ensures r.Some? ==> DecodeTargetHeight(r.value) == Some(10 * n)
    ensures r.Some? ==> DecodeTargetHeight(Send(r.value)) == Some((10 * n) % 65536)
  {
    if topic != SetHeightTopic then None
    else
      GoToHeightRoundTrip(10 * n);
      GoToHeightSent(10 * n);
      Some(Encode(GoToHeight(10 * n)))
  }
}
