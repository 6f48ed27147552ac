/** The log stream reassembler (MavlinkLogProcessor): it turns MAVLink
    LOGGING_DATA chunks into a ULog file. `Chunk` says what one call of
    processStreamData does to the reassembly state and which writes it
    issues; `WriteAll` says what the file makes of those writes; the class
    LogProcessor does it in place and is proved to agree with both. */
module Processor {
  import opened ULog
  import opened SequenceCheck
  import opened Records
  import Naming

  /** first_message_offset value meaning "no message starts in this chunk". */
  const NoMessageStart: int := 255

  /** The reassembly state: last sequence number (-1 before the first
      chunk), cumulative lost chunks, whether the file header was written,
      and the partial message waiting for its end. */
  datatype Reassembly = Reassembly(sequence: int, numDrops: int, gotHeader: bool, pending: seq<byte>)

  /** The output file: its bytes, the free space left for it, and whether
      a write failed during the current call. */
  datatype Sink = Sink(bytes: seq<byte>, room: nat, error: bool)

  /** What one chunk does: the state after it, the writes it issues in
      order, and false when the first chunk was too short for a header. */
  datatype Step = Step(after: Reassembly, writes: seq<seq<byte>>, headerOk: bool)

  // ---------------------------------------------------------------------
  // The file (source lines 198-211)

  /** One write: nothing once a write of this call has failed; otherwise
      the bytes are appended when they fit, and the call fails when not. */
  function Write(k: Sink, buf: seq<byte>): (r: Sink)
    ensures k.bytes <= r.bytes && |r.bytes| + r.room == |k.bytes| + k.room
    ensures r.bytes != k.bytes ==> r.bytes == k.bytes + buf && !r.error
  {
    if k.error then k
    else if |buf| <= k.room then Sink(k.bytes + buf, k.room - |buf|, false)
    else Sink(k.bytes, k.room, true)
  }

  /** The writes of a call, in order. */
  function WriteAll(k: Sink, ws: seq<seq<byte>>): (r: Sink)
    ensures k.bytes <= r.bytes && |r.bytes| + r.room == |k.bytes| + k.room
  {
    if ws == [] then k else Write(WriteAll(k, ws[..|ws| - 1]), ws[|ws| - 1])
  }

  /** All bytes of a list of writes. */
  function Concat(ws: seq<seq<byte>>): seq<byte>
  {
    if ws == [] then [] else Concat(ws[..|ws| - 1]) + ws[|ws| - 1]
  }

  lemma WriteAllSnoc(k: Sink, ws: seq<seq<byte>>, w: seq<byte>)
    ensures WriteAll(k, ws + [w]) == Write(WriteAll(k, ws), w)
  {
    assert (ws + [w])[..|ws|] == ws;
  }

  lemma ConcatSnoc(ws: seq<seq<byte>>, w: seq<byte>)
    ensures Concat(ws + [w]) == Concat(ws) + w
  {
    assert (ws + [w])[..|ws|] == ws;
  }

  lemma {:induction false} ConcatAppend(a: seq<seq<byte>>, b: seq<seq<byte>>)
    ensures Concat(a + b) == Concat(a) + Concat(b)
    decreases |b|
  {
    if b == [] {
      assert a + b == a;
    } else {
      var b' := b[..|b| - 1];
      assert a + b == (a + b') + [b[|b| - 1]];
      ConcatSnoc(a + b', b[|b| - 1]);
      ConcatAppend(a, b');
      ConcatSnoc(b', b[|b| - 1]);
      assert b == b' + [b[|b| - 1]];
    }
  }

  /** Once a write has failed, nothing more reaches the file in that call. */
  lemma {:induction false} ErrorSticky(k: Sink, ws: seq<seq<byte>>)
    requires k.error
    ensures WriteAll(k, ws) == k
  {
    if ws != [] {
      ErrorSticky(k, ws[..|ws| - 1]);
    }
  }

  /** The file receives whole writes, in order, from the front: what it
      gains is a prefix of everything written, nothing is lost when no
      write failed, and every byte it gains is taken off the free space. */
  lemma {:induction false} WriteAllPrefix(k: Sink, ws: seq<seq<byte>>)
    requires !k.error
    ensures var r := WriteAll(k, ws);
            && k.bytes <= r.bytes <= k.bytes + Concat(ws)
            && |r.bytes| + r.room == |k.bytes| + k.room
            && (!r.error ==> r.bytes == k.bytes + Concat(ws))
  {
    if ws != [] {
      var ws' := ws[..|ws| - 1];
      var w := ws[|ws| - 1];
      WriteAllPrefix(k, ws');
      assert ws == ws' + [w];
      ConcatSnoc(ws', w);
      var m := WriteAll(k, ws');
      if m.error {
        assert m.bytes <= k.bytes + Concat(ws') + w;
      }
    }
  }

  // ---------------------------------------------------------------------
  // One chunk (source lines 233-290), as a function of the state

  /** QByteArray::left: at most n leading bytes. */
  function Take(d: seq<byte>, n: int): (r: seq<byte>)
    requires n >= 0
    ensures r <= d && |r| == (if n <= |d| then n else |d|)
  {
    if n <= |d| then d[..n] else d
  }

  /** QByteArray::remove(0, n): the bytes after the first n, if any. */
  function Drop(d: seq<byte>, n: int): (r: seq<byte>)
    requires n >= 0
  {
    if n <= |d| then d[n..] else []
  }

  /** The writes of _writeUlogMessage: none, or the one frame it found. */
  function FrameWrites(frame: seq<byte>): seq<seq<byte>>
  {
    if frame == [] then [] else [frame]
  }

  /** Lines 276-282: the pending message, then the lead-in of the chunk
      up to the message that starts in it, each written whole. */
  function Lead(pending: seq<byte>, first: int, data: seq<byte>): (r: seq<seq<byte>>)
    requires 0 <= first
    ensures r == [] <==> |pending| == 0
    ensures r != [] ==> r[0] == pending && |r| <= 2
  {
    if |pending| > 0 then [pending] + (if first > 0 then [Take(data, first)] else []) else []
  }

  /** Lines 283-285: the chunk from the first message that starts in it. */
  function Rest(first: int, data: seq<byte>): (r: seq<byte>)
    requires 0 <= first
    ensures first == 0 ==> r == data
    ensures first > 0 ==> Take(data, first) + r == data
  {
    if first > 0 then TakeDrop(data, first); Drop(data, first) else data
  }

  /** Lines 272-287: joining the chunk to the pending message and writing
      the next complete frame. */
  function Boundary(s: Reassembly, first: int, data: seq<byte>, ws: seq<seq<byte>>): (r: Step)
    requires 0 <= first <= NoMessageStart
    ensures r.headerOk && ws <= r.writes && r.after.(pending := s.pending) == s
  {
    if first == NoMessageStart && |s.pending| > 0 then
      Step(s.(pending := s.pending + data), ws, true)
    else
      var split := SplitFrame(Rest(first, data));
      Step(s.(pending := split.1), ws + Lead(s.pending, first, data) + FrameWrites(split.0), true)
  }

  /** Lines 251-287 once the header is written: the dropout record and
      the flush of the pending message after a gap, then the boundary. */
  function Body(s: Reassembly, drops: int, first: int, data: seq<byte>, ws: seq<seq<byte>>): (r: Step)
    requires 0 <= first <= NoMessageStart
    ensures r.headerOk && ws <= r.writes && r.after.(pending := s.pending) == s
    ensures drops > 0 ==> |r.writes| > |ws| && r.writes[|ws|] == Dropout(drops)
  {
    if drops > 0 then
      var flushed := ws + [Dropout(drops)] + FrameWrites(SplitFrame(s.pending).0);
      if first == NoMessageStart then Step(s.(pending := []), flushed, true)
      else Boundary(s.(pending := []), 0, if first > 0 then Drop(data, first) else data, flushed)
    else
      Boundary(s, first, data, ws)
  }

  /** What processStreamData does with one chunk. */
  function Chunk(s: Reassembly, sequence: uint16, first: byte, data: seq<byte>): (r: Step)
    requires ValidLast(s.sequence)
    ensures r.headerOk ==> r.after.gotHeader || !Check(s.sequence, sequence).accepted
    ensures !r.headerOk ==> r.writes == [] && r.after.pending == s.pending && !r.after.gotHeader
  {
    var v := Check(s.sequence, sequence);
    var s1 := s.(sequence := v.last, numDrops := s.numDrops + v.drops);
    if !v.accepted then Step(s1, [], true)
    else if s.gotHeader then Body(s1, v.drops, first, data, [])
    else if |data| < HeaderSize then Step(s1, [], false)
    else Body(s1.(gotHeader := true), v.drops, first, data[HeaderSize..], [data[..HeaderSize]])
  }

  // ---------------------------------------------------------------------
  // Properties of one chunk

  /** A refused sequence number changes nothing, writes nothing and
      reports success. */
  lemma ChunkRefused(s: Reassembly, sequence: uint16, first: byte, data: seq<byte>)
    requires ValidLast(s.sequence) && !Check(s.sequence, sequence).accepted
    ensures Chunk(s, sequence, first, data) == Step(s, [], true)
  {
    if s.sequence != NoSequence {
      CheckModular(s.sequence, sequence);
    }
  }

  /** The cumulative loss count grows by exactly the loss the sequence
      check reports, and the last sequence number is the check's. */
  lemma ChunkCountsDrops(s: Reassembly, sequence: uint16, first: byte, data: seq<byte>)
    requires ValidLast(s.sequence)
    ensures var st := Chunk(s, sequence, first, data);
            var v := Check(s.sequence, sequence);
            st.after.numDrops == s.numDrops + v.drops && st.after.sequence == v.last
            && ValidLast(st.after.sequence)
  {
    CheckDropsBounded(s.sequence, sequence);
  }

  /** The first accepted chunk: it fails exactly when it is shorter than
      the 16-byte header; otherwise its first 16 bytes are the first write,
      verbatim, and the header is never written again. */
  lemma ChunkHeader(s: Reassembly, sequence: uint16, first: byte, data: seq<byte>)
    requires ValidLast(s.sequence) && Check(s.sequence, sequence).accepted
    ensures var st := Chunk(s, sequence, first, data);
            && (!st.headerOk <==> !s.gotHeader && |data| < HeaderSize)
            && (st.headerOk ==> st.after.gotHeader)
            && (!s.gotHeader && st.headerOk ==> |st.writes| > 0 && st.writes[0] == data[..HeaderSize])
            && (!st.headerOk ==> st.writes == [])
  {
  }

  /** The header is never forgotten. */
  lemma ChunkKeepsHeader(s: Reassembly, sequence: uint16, first: byte, data: seq<byte>)
    requires ValidLast(s.sequence) && s.gotHeader
    ensures Chunk(s, sequence, first, data).after.gotHeader
  {
  }

  /** The very first chunk of a stream is always taken and loses nothing
      before it, so it goes from the header straight to the boundary
      handling: no dropout record, no flush of a pending message. */
  lemma FirstChunkNoDropout(s: Reassembly, sequence: uint16, first: byte, data: seq<byte>)
    requires s.sequence == NoSequence
    ensures Check(s.sequence, sequence) == Verdict(true, 0, sequence)
    ensures var s1 := s.(sequence := sequence);
            Chunk(s, sequence, first, data) ==
              if s.gotHeader then Boundary(s1, first, data, [])
              else if |data| < HeaderSize then Step(s1, [], false)
              else Boundary(s1.(gotHeader := true), first, data[HeaderSize..], [data[..HeaderSize]])
  {
  }

  /** After a gap (the stream had received its header): exactly one
      dropout record for min(drops, 25) chunks is written before anything
      else of the chunk, then at most one complete frame of the pending
      message; the rest of the pending message is discarded. When no
      message starts in the chunk nothing else is written; otherwise the
      tail of the broken message at the front of the chunk is skipped and
      at most one frame of the chunk is written. */
  lemma ChunkAfterGap(s: Reassembly, sequence: uint16, first: byte, data: seq<byte>)
    requires ValidLast(s.sequence) && s.gotHeader
    requires Check(s.sequence, sequence).accepted && Check(s.sequence, sequence).drops > 0
    ensures var st := Chunk(s, sequence, first, data);
            var drops := Check(s.sequence, sequence).drops;
            var head := [Dropout(drops)] + FrameWrites(SplitFrame(s.pending).0);
            var d := if first == NoMessageStart then [] else Drop(data, first);
            && st.headerOk
            && |st.writes| >= 1 && st.writes[0] == Dropout(drops)
            && st.writes == head + FrameWrites(SplitFrame(d).0)
            && st.after.pending == SplitFrame(d).1
            && (first == NoMessageStart ==> st.writes == head && st.after.pending == [])
  {
    SplitFrameEmpty();
  }

  /** A first chunk that starts no message is cut down to its header: a
      chunk of 16 to 271 bytes writes the 16-byte header and nothing else,
      and leaves nothing pending (source lines 239-248 and 283-286). */
  lemma FirstChunkWithoutStart(s: Reassembly, sequence: uint16, data: seq<byte>)
    requires s.sequence == NoSequence && !s.gotHeader && s.pending == []
    requires HeaderSize <= |data| <= HeaderSize + NoMessageStart
    ensures Chunk(s, sequence, NoMessageStart as byte, data).writes == [data[..HeaderSize]]
    ensures Chunk(s, sequence, NoMessageStart as byte, data).after.pending == []
    ensures Chunk(s, sequence, NoMessageStart as byte, data).headerOk
  {
    SplitFrameEmpty();
  }

  lemma SplitFrameEmpty()
    ensures SplitFrame([]) == ([], [])
  {
  }

  lemma ConcatOne(w: seq<byte>)
    ensures Concat([w]) == w
  {
    assert [w][..0] == [];
  }

  lemma ConcatTwo(v: seq<byte>, w: seq<byte>)
    ensures Concat([v, w]) == v + w
  {
    assert [v, w][..1] == [v];
    ConcatOne(v);
  }

  lemma ConcatFrameWrites(frame: seq<byte>)
    ensures Concat(FrameWrites(frame)) == frame
  {
    if frame != [] {
      ConcatOne(frame);
    }
  }

  lemma Assoc(a: seq<byte>, b: seq<byte>, c: seq<byte>)
    ensures a + (b + c) == a + b + c
  {
  }

  lemma TakeDrop(d: seq<byte>, n: int)
    requires n >= 0
    ensures Take(d, n) + Drop(d, n) == d
  {
    if n <= |d| {
      assert d[..n] + d[n..] == d;
    }
  }

  /** The lead-in and the rest of the chunk together are the pending
      message followed by the whole chunk, unless the chunk skips the tail
      of a message that nothing pending belongs to. */
  lemma LeadConserves(pending: seq<byte>, first: int, data: seq<byte>)
    requires 0 <= first
    requires first == 0 || |pending| > 0
    ensures Concat(Lead(pending, first, data)) + Rest(first, data) == pending + data
  {
    if |pending| == 0 {
      assert Lead(pending, first, data) == [] && Rest(first, data) == data;
      assert pending + data == data;
    } else if first == 0 {
      assert Lead(pending, first, data) == [pending] && Rest(first, data) == data;
      ConcatOne(pending);
    } else {
      var t := Take(data, first);
      assert Lead(pending, first, data) == [pending, t];
      ConcatTwo(pending, t);
      TakeDrop(data, first);
      Assoc(pending, t, Drop(data, first));
    }
  }

  /** The boundary handling hands every byte of the pending message and of
      the data on, in order, unless the data skips the tail of a message
      that nothing pending belongs to. */
  lemma {:induction false} BoundaryConserves(s: Reassembly, first: int, data: seq<byte>, ws: seq<seq<byte>>)
    requires 0 <= first <= NoMessageStart
    requires first == 0 || |s.pending| > 0
    ensures var st := Boundary(s, first, data, ws);
            Concat(st.writes) + st.after.pending == Concat(ws) + s.pending + data
  {
    var st := Boundary(s, first, data, ws);
    if first == NoMessageStart && |s.pending| > 0 {
      assert st.writes == ws && st.after.pending == s.pending + data;
      Assoc(Concat(ws), s.pending, data);
    } else {
      var lead := Lead(s.pending, first, data);
      var rest := Rest(first, data);
      var split := SplitFrame(rest);
      assert st.writes == ws + lead + FrameWrites(split.0) && st.after.pending == split.1;
      ConcatThree(ws, lead, split.0, split.1);
      assert split.0 + split.1 == rest;
      LeadConserves(s.pending, first, data);
      Assoc(Concat(ws), s.pending, data);
    }
  }

  lemma {:induction false} ConcatThree(ws: seq<seq<byte>>, lead: seq<seq<byte>>, frame: seq<byte>, rest: seq<byte>)
    ensures Concat(ws + lead + FrameWrites(frame)) + rest == Concat(ws) + (Concat(lead) + (frame + rest))
  {
    ConcatAppend(ws + lead, FrameWrites(frame));
    ConcatFrameWrites(frame);
    ConcatAppend(ws, lead);
    var a, b := Concat(ws), Concat(lead);
    assert Concat(ws + lead + FrameWrites(frame)) == a + b + frame;
    Assoc(a + b, frame, rest);
    Assoc(a, b, frame + rest);
  }

  /** No byte lost, none duplicated: a chunk that follows its predecessor
      without a gap, and either starts a message at its front or continues
      a pending one, hands on every byte, in order, to the file or to the
      pending message. */
  lemma {:induction false} ChunkConserves(s: Reassembly, sequence: uint16, first: byte, data: seq<byte>)
    requires ValidLast(s.sequence)
    requires Check(s.sequence, sequence).accepted && Check(s.sequence, sequence).drops == 0
    requires s.gotHeader || |data| >= HeaderSize
    requires first == 0 || |s.pending| > 0
    ensures var st := Chunk(s, sequence, first, data);
            var header := if s.gotHeader then [] else data[..HeaderSize];
            var payload := if s.gotHeader then data else data[HeaderSize..];
            st.headerOk && Concat(st.writes) + st.after.pending == header + s.pending + payload
  {
    var v := Check(s.sequence, sequence);
    var s1 := s.(sequence := v.last, numDrops := s.numDrops + v.drops);
    var st := Chunk(s, sequence, first, data);
    if s.gotHeader {
      assert st == Boundary(s1, first, data, []);
      BoundaryConserves(s1, first, data, []);
      assert Concat([]) + s.pending == s.pending;
    } else {
      var h := data[..HeaderSize];
      assert st == Boundary(s1.(gotHeader := true), first, data[HeaderSize..], [h]);
      BoundaryConserves(s1.(gotHeader := true), first, data[HeaderSize..], [h]);
      ConcatOne(h);
    }
  }

  /** A continuation chunk while no message is pending is thrown away up
      to its first 255 bytes (source line 283 with first_message == 255):
      a chunk of at most 255 bytes writes nothing and leaves nothing
      pending. */
  lemma ContinuationWithoutStart(s: Reassembly, sequence: uint16, data: seq<byte>)
    requires ValidLast(s.sequence) && s.gotHeader && s.pending == []
    requires Check(s.sequence, sequence).accepted && Check(s.sequence, sequence).drops == 0
    requires |data| <= NoMessageStart
    ensures Chunk(s, sequence, NoMessageStart as byte, data).writes == []
    ensures Chunk(s, sequence, NoMessageStart as byte, data).after.pending == []
  {
    SplitFrameEmpty();
  }

  // ---------------------------------------------------------------------
  // The processor object

  class LogProcessor {
    const fileName: string
    const record: LogFile
    /** The bytes of the file. */
    var sink: seq<byte>
    /** Free space the device has left for the file. */
    var room: nat
    var written: nat
    var sequence: int
    var numDrops: int
    var gotHeader: bool
    var error: bool
    /** The partial ULog message waiting for its end (_ulogMessage). */
    var pending: seq<byte>
    var closed: bool

    ghost predicate Valid()
      reads this, record`size
    {
      ValidLast(sequence) && written == |sink| && record.size == written
    }

    function State(): Reassembly
      reads this
    {
      Reassembly(sequence, numDrops, gotHeader, pending)
    }

    function Output(): Sink
      reads this
    {
      Sink(sink, room, error)
    }

    /** Source lines 109-118 followed by a create (lines 145-158) whose
        fopen succeeded: an empty file, a fresh record named after it that
        is being written, and no chunk seen yet. */
    constructor (fileName: string, room: nat)
      ensures Valid() && fresh(record)
      ensures this.fileName == fileName && record.name == Naming.BaseName(fileName)
      ensures record.writing && record.size == 0 && record.progress == 0.0
      ensures !record.selected && !record.uploading && !record.uploaded
      ensures sink == [] && this.room == room && written == 0
      ensures State() == Reassembly(NoSequence, 0, false, []) && !error && !closed
    {
      var r := new LogFile(Naming.BaseName(fileName));
      r.SetWriting(true);
      this.fileName := fileName;
      record := r;
      sink := [];
      this.room := room;
      written := 0;
      sequence := NoSequence;
      numDrops := 0;
      gotHeader := false;
      error := false;
      pending := [];
      closed := false;
    }

    /** Source lines 127-134: closing a closed file does nothing more. */
    method Close()
      modifies this`closed
      ensures closed
    {
      if !closed {
        closed := true;
      }
    }

    /** Source lines 137-141: an open file with a record. */
    predicate IsValid()
      reads this
    {
      !closed
    }

    /** Source lines 164-194. */
    method CheckSequence(seqNo: uint16) returns (accepted: bool, drops: int)
      requires ValidLast(sequence)
      modifies this`sequence, this`numDrops
      ensures var v := Check(old(sequence), seqNo);
              accepted == v.accepted && drops == v.drops && sequence == v.last
      ensures numDrops == old(numDrops) + drops
    {
      drops := 0;
      if sequence == NoSequence {
        sequence := seqNo;
        return true, drops;
      }
      if sequence == seqNo {
        return false, drops;
      }
      if seqNo > sequence {
        if seqNo - sequence > HalfSpace {
          return false, drops;
        }
        drops := seqNo - sequence - 1;
        numDrops := numDrops + drops;
        sequence := seqNo;
        return true, drops;
      } else {
        if sequence - seqNo > HalfSpace {
          drops := SequenceSpace - sequence - 1 + seqNo;
          numDrops := numDrops + drops;
          sequence := seqNo;
          return true, drops;
        }
        return false, drops;
      }
    }

    /** Source lines 198-211: the bytes go to the file when no write of
        this call has failed and they fit; the count of written bytes and
        the record's size follow. */
    method WriteData(buf: seq<byte>)
      requires Valid()
      modifies this`sink, this`room, this`error, this`written, record`size
      ensures Valid()
      ensures Output() == Write(old(Output()), buf)
    {
      if !error {
        error := |buf| > room;
        if !error {
          sink := sink + buf;
          room := room - |buf|;
          written := written + |buf|;
          record.SetSize(written);
        }
      }
    }

    /** Source lines 215-229: writes the one complete frame at the front of
        the data, if there is one, and returns what follows it. */
    method WriteUlogMessage(data: seq<byte>) returns (rest: seq<byte>)
      requires Valid()
      modifies this`sink, this`room, this`error, this`written, record`size
      ensures Valid()
      ensures rest == SplitFrame(data).1
      ensures Output() == WriteAll(old(Output()), FrameWrites(SplitFrame(data).0))
    {
      rest := data;
      if |data| > 2 {
        var length := data[0] as int + data[1] as int * 256 + MessageHeaderSize;
        if length <= |data| {
          WriteData(data[..length]);
          WriteAllSnoc(old(Output()), [], data[..length]);
          rest := data[length..];
        }
      }
    }

    /** Source lines 233-290: one chunk of the stream. The state moves as
        `Chunk` says, the file receives the chunk's writes as `WriteAll`
        says (the error flag is cleared first), and the result is false
        exactly when the header was too short or a write failed. */
    method ProcessStreamData(seqNo: uint16, first: byte, data: seq<byte>) returns (ok: bool)
      requires Valid()
      modifies this`sink, this`room, this`error, this`written, record`size
      modifies this`sequence, this`numDrops, this`gotHeader, this`pending
      ensures Valid()
      ensures var st := Chunk(old(State()), seqNo, first, data);
              && State() == st.after
              && Output() == WriteAll(old(Output()).(error := false), st.writes)
              && ok == (st.headerOk && !error)
    {
      error := false;
      ghost var start := Output();
      var accepted, drops := CheckSequence(seqNo);
      if !accepted {
        return true;
      }
      var d := data;
      ghost var ws: seq<seq<byte>> := [];
      if !gotHeader {
        if |d| < HeaderSize {
          return false;
        }
        WriteData(d[..HeaderSize]);
        WriteAllSnoc(start, ws, d[..HeaderSize]);
        ws := ws + [d[..HeaderSize]];
        d := d[HeaderSize..];
        gotHeader := true;
      }
      WriteBody(drops, first, d, start, ws);
      return !error;
    }

    /** Source lines 251-287, once the header is written: after a gap the
        dropout record and one frame of the pending message, then the
        boundary handling unless no message starts in the chunk. */
    method WriteBody(drops: int, first: int, data: seq<byte>, ghost start: Sink, ghost ws: seq<seq<byte>>)
      requires Valid() && gotHeader && 0 <= first <= NoMessageStart
      requires Output() == WriteAll(start, ws)
      modifies this`sink, this`room, this`error, this`written, record`size, this`pending
      ensures Valid()
      ensures var st := Body(old(State()), drops, first, data, ws);
              State() == st.after && Output() == WriteAll(start, st.writes)
    {
      var d := data;
      var fm := first;
      ghost var ws1 := ws;
      if gotHeader && drops > 0 {
        WriteData(Dropout(drops));
        WriteAllSnoc(start, ws1, Dropout(drops));
        ws1 := ws1 + [Dropout(drops)];
      }
      if drops > 0 {
        var frame := SplitFrame(pending).0;
        var _ := WriteUlogMessage(pending);
        WriteAllAppendFrame(start, ws1, frame);
        ws1 := ws1 + FrameWrites(frame);
        pending := [];
        if fm == NoMessageStart {
          return;
        }
        if fm > 0 {
          d := Drop(d, fm);
          fm := 0;
        }
      }
      Join(fm, d, start, ws1);
    }

    /** Source lines 272-287: the chunk joins the pending message, or the
        pending message and the chunk's lead-in are written and the next
        complete frame of the chunk follows. */
    method Join(fm: int, d: seq<byte>, ghost start: Sink, ghost ws: seq<seq<byte>>)
      requires Valid() && 0 <= fm <= NoMessageStart
      requires Output() == WriteAll(start, ws)
      modifies this`sink, this`room, this`error, this`written, record`size, this`pending
      ensures Valid()
      ensures var st := Boundary(old(State()), fm, d, ws);
              State() == st.after && Output() == WriteAll(start, st.writes)
    {
      if fm == NoMessageStart && |pending| > 0 {
        pending := pending + d;
      } else {
        WriteNext(fm, d, start, ws);
      }
    }

    /** Source lines 276-287 past the early exit: the lead-in, then the
        next complete frame of the chunk; the rest is pending. */
    method WriteNext(fm: int, d: seq<byte>, ghost start: Sink, ghost ws: seq<seq<byte>>)
      requires Valid() && 0 <= fm
      requires Output() == WriteAll(start, ws)
      modifies this`sink, this`room, this`error, this`written, record`size, this`pending
      ensures Valid()
      ensures pending == SplitFrame(Rest(fm, d)).1
      ensures Output() == WriteAll(start, ws + Lead(old(pending), fm, d) + FrameWrites(SplitFrame(Rest(fm, d)).0))
    {
      ghost var ws1 := ws + Lead(pending, fm, d);
      WriteLead(fm, d, start, ws);
      var rest := if fm > 0 then Drop(d, fm) else d;
      var frame := SplitFrame(rest).0;
      pending := WriteUlogMessage(rest);
      WriteAllAppendFrame(start, ws1, frame);
    }

    /** Source lines 276-282: the pending message and the chunk's lead-in
        are written, and nothing is pending any more. */
    method WriteLead(fm: int, d: seq<byte>, ghost start: Sink, ghost ws: seq<seq<byte>>)
      requires Valid() && 0 <= fm
      requires Output() == WriteAll(start, ws)
      modifies this`sink, this`room, this`error, this`written, record`size, this`pending
      ensures Valid() && pending == []
      ensures Output() == WriteAll(start, ws + Lead(old(pending), fm, d))
    {
      if |pending| > 0 {
        WriteData(pending);
        WriteAllSnoc(start, ws, pending);
        if fm > 0 {
          WriteData(Take(d, fm));
          WriteAllSnoc(start, ws + [old(pending)], Take(d, fm));
          assert ws + [old(pending)] + [Take(d, fm)] == ws + Lead(old(pending), fm, d);
        } else {
          assert ws + [old(pending)] == ws + Lead(old(pending), fm, d);
        }
        pending := [];
      } else {
        assert ws + Lead(old(pending), fm, d) == ws;
      }
    }
  }

  lemma WriteAllAppendFrame(k: Sink, ws: seq<seq<byte>>, frame: seq<byte>)
    ensures WriteAll(k, ws + FrameWrites(frame)) == WriteAll(WriteAll(k, ws), FrameWrites(frame))
  {
    if frame != [] {
      WriteAllSnoc(k, ws, frame);
      WriteAllSnoc(WriteAll(k, ws), [], frame);
    } else {
      assert ws + FrameWrites(frame) == ws;
    }
  }
}
