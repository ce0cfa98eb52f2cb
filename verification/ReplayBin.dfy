/**
 The replay bin itself: the handlers of its events, which keep the offset of the timestamps
 and what remains to be played, and whole playbacks.
 */
module ReplayBins {
  import opened Basics
  import opened ReplayArchive

  /** A repetition with its offset as the bin holds it, in 64 bits. */
  function In64Bits(rep: Rep): Rep { Rep(U64(rep.offset), rep.lo, rep.hi) }

  function AllIn64Bits(reps: seq<Rep>): seq<Rep> {
    if reps == [] then [] else [In64Bits(reps[0])] + AllIn64Bits(reps[1..])
  }

  /** The offsets stay what they are in 64 bits if and only if all of them fit. */
  lemma {:induction false} FittingStay(reps: seq<Rep>)
    ensures AllIn64Bits(reps) == reps <==> forall j :: 0 <= j < |reps| ==> Fits(reps[j])
  {
    if reps != [] {
      FittingStay(reps[1..]);
      var rest := AllIn64Bits(reps[1..]);
      assert reps == [reps[0]] + reps[1..];
      assert AllIn64Bits(reps)[0] == In64Bits(reps[0]) && AllIn64Bits(reps)[1..] == rest;
      assert In64Bits(reps[0]) == reps[0] <==> Fits(reps[0]);
      assert forall j :: 0 < j < |reps| ==> reps[j] == reps[1..][j - 1];
    }
  }

  predicate Fits(rep: Rep) { 0 <= rep.offset < 0x1_0000_0000_0000_0000 }

  /** Wrapping twice, with a sum in between, is wrapping once. */
  lemma WrapSum(a: int, d: int)
    ensures U64(U64(a) + d) == U64(a + d)
  {
    var m := 0x1_0000_0000_0000_0000;
    assert U64(a) == a - (a / m) * m;
    assert (a + d) % m == (U64(a) + d) % m;
  }

  /** What segment-done makes the bin do. */
  datatype Action = SendEos | SeekFile(start: int, stop: int)

  class ReplayBin {
    var incomingSeek: Option<Seek>
    var outgoingSeek: Option<Seek>
    var incomingSegment: Segment
    var sentSegment: bool
    var tsOffset: uint64
    var remainder: int64
    var minPts: uint64

    constructor ()
      ensures remainder == 0 && tsOffset == 0 && !sentSegment && outgoingSeek == None
    {
      incomingSeek, outgoingSeek := None, None;
      incomingSegment := Segment(true, 0, 0);
      sentSegment, tsOffset, remainder, minPts := false, 0, 0, TIME_NONE;
    }

    /** Where a forward playback starts, and the part of the file that it plays first. */
    method SpanForward(seek: Seek, duration: Duration) returns (istart: int64, ostart: int64, ostop: int64)
      requires SeekOk(seek, duration) && seek.forward
      ensures istart == seek.start + GapSkip(seek, duration)
      ensures (ostart, ostop) == FirstSpan(seek, duration)
      ensures !NothingToPlay(seek, duration) ==> ostart <= ostop <= duration
    {
      EntryAtFits(seek, duration);
      var istop: int64 := if seek.stop == -1 then END_DATE else seek.stop;
      istart := seek.start;
      ostart := CMod(istart, duration + INTERVAL);
      if ostart > duration {
        istart := istart + (ostart - duration);
        ostart := 0;
      }
      ostop := Min(duration, ostart + (istop - istart));
    }

    /** Where a reverse playback starts, and the part of the file that it plays first. */
    method SpanBackward(seek: Seek, duration: Duration) returns (istop: int64, ostart: int64, ostop: int64)
      requires SeekOk(seek, duration) && !seek.forward
      ensures istop == Stop(seek) - GapSkip(seek, duration)
      ensures (ostart, ostop) == FirstSpan(seek, duration)
      ensures !NothingToPlay(seek, duration) ==> 0 <= ostart <= ostop <= duration
    {
      EntryAtFits(seek, duration);
      istop := if seek.stop == -1 then END_DATE else seek.stop;
      ostop := CMod(istop, duration + INTERVAL);
      if ostop > duration {
        istop := istop - (ostop - duration);
        ostop := duration;
      }
      ostart := Max(0, ostop - (istop - seek.start));
    }

    /** `translate_seek`: None when the bin answers the seek itself, with an EOS. */
    method TranslateSeek(seek: Seek, duration: Duration) returns (out: Option<Seek>)
      requires SeekOk(seek, duration)
      modifies `remainder
      ensures NothingToPlay(seek, duration) ==> out == None && remainder == old(remainder)
      ensures !NothingToPlay(seek, duration) ==>
                var (ostart, ostop) := FirstSpan(seek, duration);
                && out.Some? && out.value.forward == seek.forward
                && out.value.start == ostart && out.value.stop == ostop
                && remainder == if FirstRemainder(seek, duration) > 0
                                then FirstRemainder(seek, duration) else old(remainder)
    {
      var start: int64 := seek.start;
      var stop: int64 := if seek.stop == -1 then END_DATE else seek.stop;
      var istart: int64, istop: int64 := start, stop;
      var ostart: int64, ostop: int64;
      if seek.forward {
        istart, ostart, ostop := SpanForward(seek, duration);
      } else {
        istop, ostart, ostop := SpanBackward(seek, duration);
      }
      if istart > istop {
        return None;
      }
      if stop - start > ostop - ostart {
        remainder := (stop - start) - (ostop - ostart);
      }
      out := Some(Seek(seek.forward, ostart, ostop));
    }

    /** The seek event: remember it and translate it. */
    method HandleSeek(seek: Seek, duration: Duration) returns (out: Option<Seek>)
      requires SeekOk(seek, duration)
      modifies this
      ensures !sentSegment && incomingSeek == Some(seek) && outgoingSeek == out
      ensures out.None? <==> NothingToPlay(seek, duration)
      ensures out.Some? ==>
                && out.value.forward == seek.forward
                && (out.value.start, out.value.stop) == FirstSpan(seek, duration)
                && remainder == (if FirstRemainder(seek, duration) > 0
                                 then FirstRemainder(seek, duration) else old(remainder))
      ensures out.None? ==> remainder == old(remainder)
    {
      incomingSeek := Some(seek);
      outgoingSeek := None;
      sentSegment := false;
      out := TranslateSeek(seek, duration);
      outgoingSeek := out;
    }

    /** `translate_segment`: the segment to send on, if any. */
    method TranslateSegment(segment: Segment) returns (out: Option<Segment>)
      requires outgoingSeek.Some? ==> incomingSeek.Some?
      modifies this
      ensures incomingSegment == segment && remainder == old(remainder)
      ensures outgoingSeek == old(outgoingSeek) && incomingSeek == old(incomingSeek)
      ensures outgoingSeek == None ==>
                out == Some(Segment(true, 0, END_DATE)) && tsOffset == old(tsOffset) && sentSegment == old(sentSegment)
      ensures outgoingSeek.Some? && old(sentSegment) ==> out == None && tsOffset == old(tsOffset) && sentSegment
      ensures outgoingSeek.Some? && !old(sentSegment) ==>
                var i, o := incomingSeek.value, outgoingSeek.value;
                && sentSegment
                && tsOffset == U64(if segment.forward then i.start - o.start else Stop(i) - o.stop)
                && out == Some(Segment(segment.forward, i.start + segment.start - o.start,
                                       Stop(i) + segment.stop - o.stop))
                && minPts == U64(i.start + segment.start - o.start)
    {
      incomingSegment := segment;
      if outgoingSeek == None {
        return Some(Segment(true, 0, END_DATE));
      }
      if sentSegment {
        return None;
      }
      var istart, istop := incomingSeek.value.start, incomingSeek.value.stop;
      var ostart, ostop := outgoingSeek.value.start, outgoingSeek.value.stop;
      if istop == -1 {
        istop := END_DATE;
      }
      if incomingSegment.forward {
        tsOffset := U64(istart - ostart);
      } else {
        tsOffset := U64(istop - ostop);
      }
      var first := istart + (incomingSegment.start - ostart);
      var last := istop + (incomingSegment.stop - ostop);
      minPts := U64(first);
      sentSegment := true;
      out := Some(Segment(incomingSegment.forward, first, last));
    }

    /** `handle_segment_done`. */
    method HandleSegmentDone(duration: Duration) returns (action: Action)
      requires 0 <= remainder
      modifies this`remainder, this`tsOffset
      ensures old(remainder) < INTERVAL ==>
                action == SendEos && remainder == 0 && tsOffset == old(tsOffset)
      ensures old(remainder) >= INTERVAL ==>
                var (lo, hi, rest) := NextSpan(incomingSegment.forward, old(remainder), duration);
                && action == SeekFile(lo, hi) && remainder == rest
                && tsOffset == U64(old(tsOffset) + Shift(incomingSegment.forward, duration))
    {
      if remainder < INTERVAL {
        remainder := 0;
        return SendEos;
      }
      remainder := remainder - INTERVAL;
      var ostart, ostop;
      if incomingSegment.forward {
        ostart := 0;
        ostop := Min(duration, remainder);
      } else {
        ostart := Max(duration - remainder, 0);
        ostop := duration;
      }
      remainder := Max(remainder - ostop - ostart, 0);
      action := SeekFile(ostart, ostop);
      if incomingSegment.forward {
        tsOffset := U64(tsOffset + (INTERVAL + duration));
      } else {
        tsOffset := U64(tsOffset - (INTERVAL + duration));
      }
    }

    /** `replay_bin_buffer_probe`: None when the buffer is dropped. */
    method ProbeBuffer(pts: uint64, dts: uint64) returns (out: Option<(uint64, uint64)>)
      ensures out.None? <==> pts > incomingSegment.stop
      ensures out.Some? && pts != TIME_NONE ==> out.value.0 == U64(pts + tsOffset)
      ensures out.Some? && dts != TIME_NONE ==> out.value.1 == U64(dts + tsOffset)
      ensures out.Some? && pts == TIME_NONE ==> out.value.0 == TIME_NONE
      ensures out.Some? && dts == TIME_NONE ==> out.value.1 == TIME_NONE
    {
      if pts > incomingSegment.stop {
        return None;
      }
      var p, d := pts, dts;
      if pts != TIME_NONE {
        p := U64(p + tsOffset);
      }
      if dts != TIME_NONE {
        d := U64(d + tsOffset);
      }
      out := Some((p, d));
    }

    /** The bin plays the part `rep` of the file for a seek that it forwarded. */
    ghost predicate Playing(seek: Seek, rep: Rep)
      reads this
    {
      && incomingSegment == Segment(seek.forward, rep.lo, rep.hi) && tsOffset == rep.offset
      && outgoingSeek.Some? && incomingSeek.Some? && sentSegment
      && 0 <= remainder
    }

    /** The seek, and the first segment that the file sends, if the seek gets there. The
        offset is a whole number of periods exactly when the entry is not in a gap. */
    method PlayFirst(seek: Seek, duration: Duration) returns (rep: Option<Rep>)
      requires SeekOk(seek, duration) && (seek.forward ==> 0 <= seek.start) && 0 <= remainder
      modifies this
      ensures rep.Some? <==> Forwarded(seek, duration)
      ensures rep.None? ==> remainder == old(remainder)
      ensures rep.Some? ==>
                && rep.value == FirstRep(seek, duration) && Playing(seek, rep.value)
                && remainder == Remaining(seek, duration, old(remainder))
                && (tsOffset % Period(duration) == 0 <==> !EntersGap(seek, duration))
    {
      var out := HandleSeek(seek, duration);
      if out == None {
        return None;
      }
      FirstOffsetFits(seek, duration);
      OffsetIsWholePeriods(seek, duration);
      var segment := TranslateSegment(Segment(seek.forward, out.value.start, out.value.stop));
      rep := Some(Rep(tsOffset, out.value.start, out.value.stop));
    }

    /** A segment-done, and the segment that the file sends then, if any. */
    method PlayNext(seek: Seek, duration: Duration, ghost now: Rep) returns (next: Option<Rep>)
      requires Playing(seek, now)
      modifies this
      ensures next.None? <==> old(remainder) < INTERVAL
      ensures next.None? ==> remainder == 0
      ensures next.Some? ==>
                var (lo, hi, rest) := NextSpan(seek.forward, old(remainder), duration);
                && next == Some(Rep(U64(now.offset + Shift(seek.forward, duration)), lo, hi))
                && Playing(seek, next.value) && remainder == rest
    {
      var action := HandleSegmentDone(duration);
      if action == SendEos {
        return None;
      }
      var segment := TranslateSegment(Segment(seek.forward, action.start, action.stop));
      next := Some(Rep(tsOffset, action.start, action.stop));
    }

    /**
     A whole run: the seek, then one segment and one segment-done for every part of the
     file that the bin asks for. It ends, and it plays exactly the parts of Playback, each
     while `tsOffset` is the offset of that repetition in 64 bits. No offset wraps if and
     only if the last one does not; when nothing else was pending, if and only if the seek
     does not enter in the last instant of a gap without a start.
     */
    method Play(seek: Seek, duration: Duration) returns (reps: seq<Rep>)
      requires SeekOk(seek, duration) && (seek.forward ==> 0 <= seek.start) && 0 <= remainder
      modifies this
      ensures !Forwarded(seek, duration) ==> reps == [] && remainder == old(remainder)
      ensures Forwarded(seek, duration) ==>
                reps == AllIn64Bits(Playback(seek, duration, old(remainder))) && remainder == 0
      ensures Forwarded(seek, duration) ==>
                (reps == Playback(seek, duration, old(remainder)) <==>
                 0 <= LastOffset(seek, duration, old(remainder)) < 0x1_0000_0000_0000_0000)
      ensures Forwarded(seek, duration) && NothingPending(seek, duration, old(remainder)) ==>
                (reps == Playback(seek, duration, old(remainder)) <==> !EntersLastInstant(seek, duration))
    {
      ghost var pending := remainder;
      var first := PlayFirst(seek, duration);
      if first == None {
        return [];
      }
      FirstIn64Bits(seek, duration, pending);
      var later := PlayLater(seek, duration, first.value, FirstOffset(seek, duration));
      reps := [first.value] + later;
      WhenAllFit(seek, duration, pending);
    }

    /** One segment-done after the other, after a repetition at `offset`. */
    method PlayLater(seek: Seek, duration: Duration, first: Rep, ghost offset: int) returns (reps: seq<Rep>)
      requires Playing(seek, first) && first.offset == U64(offset)
      modifies this
      ensures reps == AllIn64Bits(Repetitions(seek.forward, old(remainder), offset, duration)) && remainder == 0
    {
      reps := [];
      ghost var at, all := offset, AllIn64Bits(Repetitions(seek.forward, remainder, offset, duration));
      var rep := first;
      while true
        invariant Playing(seek, rep) && rep.offset == U64(at)
        invariant reps + AllIn64Bits(Repetitions(seek.forward, remainder, at, duration)) == all
        decreases remainder
      {
        ghost var left := remainder;
        var next := PlayNext(seek, duration, rep);
        if next == None {
          return;
        }
        WrapSum(at, Shift(seek.forward, duration));
        LaterIn64Bits(reps, seek.forward, left, at, duration);
        at := at + Shift(seek.forward, duration);
        rep := next.value;
        reps := reps + [rep];
      }
    }

    lemma LaterIn64Bits(done: seq<Rep>, forward: bool, remainder: int, offset: int, duration: Duration)
      requires remainder >= INTERVAL
      ensures var (lo, hi, rest) := NextSpan(forward, remainder, duration);
              var next := offset + Shift(forward, duration);
              done + AllIn64Bits(Repetitions(forward, remainder, offset, duration))
              == (done + [Rep(U64(next), lo, hi)]) + AllIn64Bits(Repetitions(forward, rest, next, duration))
    {
      var (lo, hi, rest) := NextSpan(forward, remainder, duration);
      var next := offset + Shift(forward, duration);
      var later := Repetitions(forward, rest, next, duration);
      var all := Repetitions(forward, remainder, offset, duration);
      assert all == [Rep(next, lo, hi)] + later;
      assert all[1..] == later;
    }

    lemma FirstIn64Bits(seek: Seek, duration: Duration, pending: int)
      requires Forwarded(seek, duration)
      ensures AllIn64Bits(Playback(seek, duration, pending))
           == [FirstRep(seek, duration)]
              + AllIn64Bits(Repetitions(seek.forward, Remaining(seek, duration, pending),
                                        FirstOffset(seek, duration), duration))
    {
      FirstOffsetFits(seek, duration);
      var all := Playback(seek, duration, pending);
      assert all[1..] == Repetitions(seek.forward, Remaining(seek, duration, pending),
                                     FirstOffset(seek, duration), duration);
    }

    lemma WhenAllFit(seek: Seek, duration: Duration, pending: int)
      requires Forwarded(seek, duration) && pending >= 0
      ensures var reps := Playback(seek, duration, pending);
              && (AllIn64Bits(reps) == reps <==>
                  0 <= LastOffset(seek, duration, pending) < 0x1_0000_0000_0000_0000)
              && (NothingPending(seek, duration, pending) ==>
                    (AllIn64Bits(reps) == reps <==> !EntersLastInstant(seek, duration)))
    {
      FittingStay(Playback(seek, duration, pending));
      OffsetsFitExactly(seek, duration, pending);
      if NothingPending(seek, duration, pending) {
        OffsetsFit(seek, duration, pending);
      }
    }

    /**
     The probe, while the bin plays a repetition that shows period q of the archive: a
     buffer of that part of the file comes out with a timestamp that did not wrap, lies
     between start and stop, and is the time of the file modulo the period; a buffer
     behind that part is dropped.
     */
    method EmitBuffer(pts: uint64, dts: uint64,
                      ghost seek: Seek, ghost rep: Rep, ghost q: int, ghost duration: Duration)
      returns (out: Option<(uint64, uint64)>)
      requires Playing(seek, rep) && ShowsPeriod(rep, q, seek.start, Stop(seek), duration)
      ensures out.Some? <==> pts <= rep.hi
      ensures rep.lo <= pts <= rep.hi ==>
                && out.value.0 == pts + rep.offset
                && seek.start <= out.value.0 <= Stop(seek)
                && out.value.0 % Period(duration) == pts
      ensures rep.lo <= pts <= rep.hi && rep.lo <= dts <= rep.hi ==>
                out.value.1 - out.value.0 == dts - pts
    {
      out := ProbeBuffer(pts, dts);
      if rep.lo <= pts <= rep.hi {
        ShiftKeepsFileTime(rep, q, seek.start, Stop(seek), duration, pts);
      }
      if rep.lo <= dts <= rep.hi {
        ShiftKeepsFileTime(rep, q, seek.start, Stop(seek), duration, dts);
      }
    }
  }
}
