/** Continuity check of the 16-bit chunk sequence numbers of a MAVLink log
    stream: which chunks are new, and how many were lost before them. */
module SequenceCheck {
  import opened ULog

  /** The value of the last sequence number before any chunk was accepted. */
  const NoSequence: int := -1
  /** Size of the sequence number space. */
  const SequenceSpace: int := 0x1_0000
  /** Half of it: the threshold that tells a wrap-around from a reordering. */
  const HalfSpace: int := 0x8000

  /** The outcome of checking one sequence number: whether the chunk is
      taken, how many chunks were lost before it, and the last sequence
      number afterwards. */
  datatype Verdict = Verdict(accepted: bool, drops: int, last: int)

  predicate ValidLast(last: int) {
    NoSequence <= last < SequenceSpace
  }

  /** Source lines 164-194, with `last` standing for the processor's
      `_sequence` field. */
  function Check(last: int, sequence: uint16): (v: Verdict)
    requires ValidLast(last)
    ensures ValidLast(v.last)
    ensures v.accepted ==> v.last == sequence
    ensures !v.accepted ==> v.drops == 0 && v.last == last
  {
    if last == NoSequence then Verdict(true, 0, sequence)
    else if last == sequence then Verdict(false, 0, last)
    else if sequence > last then
      if sequence - last > HalfSpace then Verdict(false, 0, last)
      else Verdict(true, sequence - last - 1, sequence)
    else if last - sequence > HalfSpace then Verdict(true, SequenceSpace - last - 1 + sequence, sequence)
    else Verdict(false, 0, last)
  }

  /** The first chunk is always taken, with no loss, and its number is kept. */
  lemma CheckFirst(sequence: uint16)
    ensures Check(NoSequence, sequence) == Verdict(true, 0, sequence)
  {
  }

  /** Reference definition in modular terms. With g the forward distance
      from the last number to the new one modulo 65536, a chunk is taken
      exactly when 0 < g < 32768, or g == 32768 and the new number is the
      larger one (the asymmetric threshold); it then reports g - 1 lost
      chunks and becomes the last number. A refused chunk reports no loss
      and leaves the last number alone. */
  lemma {:induction false} CheckModular(last: int, sequence: uint16)
    requires 0 <= last < SequenceSpace
    ensures var v := Check(last, sequence);
            var g := (sequence - last) % SequenceSpace;
            && (v.accepted <==> (0 < g < HalfSpace || (g == HalfSpace && sequence > last)))
            && (v.accepted ==> v.drops == g - 1 && v.last == sequence)
            && (!v.accepted ==> v.drops == 0 && v.last == last)
  {
    var g := (sequence - last) % SequenceSpace;
    if sequence >= last {
      assert g == sequence - last;
    } else {
      assert g == SequenceSpace + sequence - last;
    }
  }

  /** Every accepted chunk reports between 0 and 32767 lost chunks, and
      the last number plus the lost chunks plus one lands on the new
      number modulo 65536. */
  lemma {:induction false} CheckDropsBounded(last: int, sequence: uint16)
    requires ValidLast(last)
    ensures var v := Check(last, sequence);
            && 0 <= v.drops < HalfSpace
            && ValidLast(v.last)
            && (v.accepted && last != NoSequence ==> (last + v.drops + 1) % SequenceSpace == sequence)
  {
    if last != NoSequence {
      CheckModular(last, sequence);
      var g := (sequence - last) % SequenceSpace;
      if sequence >= last {
        assert g == sequence - last;
      } else {
        assert g == SequenceSpace + sequence - last;
      }
    }
  }
}
