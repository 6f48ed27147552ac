/** The parts of the PX4 ULog file format that the log reassembler relies on:
    the 16-byte file header, the 3-byte message header (msg_size as a
    little-endian uint16, then msg_type) and the 'O' dropout message. */
module ULog {

  type byte = b: int | 0 <= b < 256
  type uint16 = n: int | 0 <= n < 0x1_0000

  /** Size of the ULog file header that opens every log. */
  const HeaderSize: nat := 16
  /** msg_size (2 bytes) + msg_type (1 byte). */
  const MessageHeaderSize: nat := 3
  /** msg_type of a dropout message, the character 'O'. */
  const DropoutType: byte := 79
  /** A dropout message stands for at most this many lost chunks ... */
  const MaxDropoutChunks: nat := 25
  /** ... and each lost chunk is reported as this many milliseconds. */
  const DropoutChunkMs: nat := 10

  /** The two little-endian bytes of a 16-bit value. */
  function LE16(n: uint16): (r: seq<byte>)
    ensures |r| == 2 && r[0] as int + 256 * (r[1] as int) == n
  {
    [n % 256, n / 256]
  }

  /** A complete ULog message: header (body length, type) followed by the body. */
  function EncodeMessage(msgType: byte, body: seq<byte>): (r: seq<byte>)
    requires |body| < 0x1_0000
    ensures |r| == MessageHeaderSize + |body|
  {
    LE16(|body|) + [msgType] + body
  }

  /** Length of the frame that starts the buffer, read from its msg_size field. */
  function FrameLength(data: seq<byte>): nat
    requires |data| >= 2
  {
    data[0] as int + 256 * (data[1] as int) + MessageHeaderSize
  }

  /** Splits one complete frame off the front of `data`: the frame and the
      rest, or nothing and all of `data` when the buffer holds at most two
      bytes or the frame it announces is not complete yet. No byte is lost
      or reordered either way. */
  function SplitFrame(data: seq<byte>): (r: (seq<byte>, seq<byte>))
    ensures r.0 + r.1 == data
    ensures r.0 != [] <==> |data| > 2 && FrameLength(data) <= |data|
    ensures r.0 != [] ==> |r.0| == FrameLength(data)
  {
    if |data| > 2 && FrameLength(data) <= |data| then
      (data[..FrameLength(data)], data[FrameLength(data)..])
    else
      ([], data)
  }

  /** Round trip: a message that was encoded and is followed by anything at
      all is split off exactly. */
  lemma {:induction false} SplitEncoded(msgType: byte, body: seq<byte>, rest: seq<byte>)
    requires |body| < 0x1_0000
    ensures SplitFrame(EncodeMessage(msgType, body) + rest) == (EncodeMessage(msgType, body), rest)
  {
    var m := EncodeMessage(msgType, body);
    var d := m + rest;
    assert d[0] == m[0] && d[1] == m[1];
    assert FrameLength(d) == |m|;
    assert d[..|m|] == m;
    assert d[|m|..] == rest;
  }

  /** Source lines 252-257: the dropout record for `drops` lost chunks, byte
      for byte as the reassembler writes it. */
  function Dropout(drops: int): (r: seq<byte>)
    requires drops > 0
    ensures |r| == 5 && FrameLength(r) == |r| && r[2] == DropoutType
  {
    var n := if drops > MaxDropoutChunks then MaxDropoutChunks else drops;
    [2, 0, DropoutType, n * DropoutChunkMs, 0]
  }

  /** The dropout record is a well-formed ULog 'O' message whose uint16
      duration field is 10 ms per lost chunk, for at most 25 chunks, so it
      is itself split off as one complete frame. */
  lemma {:induction false} DropoutIsMessage(drops: int, rest: seq<byte>)
    requires drops > 0
    ensures var ms := (if drops > MaxDropoutChunks then MaxDropoutChunks else drops) * DropoutChunkMs;
            Dropout(drops) == EncodeMessage(DropoutType, LE16(ms))
    ensures SplitFrame(Dropout(drops) + rest) == (Dropout(drops), rest)
  {
    var ms := (if drops > MaxDropoutChunks then MaxDropoutChunks else drops) * DropoutChunkMs;
    assert LE16(ms) == [ms, 0];
    assert Dropout(drops) == EncodeMessage(DropoutType, LE16(ms));
    SplitEncoded(DropoutType, LE16(ms), rest);
  }
}
