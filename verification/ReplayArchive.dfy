/**
 The replay bin of the ONVIF server example: one recorded file, repeated with a gap of
 five seconds in between, is made to look like an archive that goes on for 100 years.

 Times are nanoseconds. The archive time t shows the file at t modulo one period (the
 file and a gap), unless that falls into the gap.
 */
module ReplayArchive {
  import opened Basics

  const INTERVAL := 5_000_000_000
  const END_DATE := 3_155_673_600_000_000_000
  const MAX_DURATION := 0x4000_0000_0000_0000
  const TIME_NONE := 0xFFFF_FFFF_FFFF_FFFF

  type int64 = n: int | -0x8000_0000_0000_0000 <= n < 0x8000_0000_0000_0000
  type uint64 = n: int | 0 <= n < 0x1_0000_0000_0000_0000

  /** A duration of the file for which no sum below leaves 64 bits (146 years). */
  type Duration = n: int | 0 <= n < MAX_DURATION

  /** C's conversion to guint64. */
  function U64(n: int): (r: uint64)
    ensures 0 <= n < 0x1_0000_0000_0000_0000 ==> r == n
  {
    n % 0x1_0000_0000_0000_0000
  }

  function Min(a: int, b: int): int { if a < b then a else b }
  function Max(a: int, b: int): int { if a > b then a else b }

  /** C's remainder, which has the sign of the dividend. */
  function CMod(a: int, p: int): int
    requires p > 0
  {
    if a >= 0 then a % p else -(-a % p)
  }

  /** A seek; a time is -1 when it is not given, as in a reverse seek of an open range. */
  datatype Seek = Seek(forward: bool, start: int64, stop: int64)

  datatype Segment = Segment(forward: bool, start: int, stop: int)

  function Stop(seek: Seek): int { if seek.stop == -1 then END_DATE else seek.stop }

  function Period(duration: Duration): int { duration + INTERVAL }

  /** Where in the archive the playback enters. */
  function Entry(seek: Seek): int { if seek.forward then seek.start else Stop(seek) }

  /** Where in its period that is. */
  function EntryAt(seek: Seek, duration: Duration): int { CMod(Entry(seek), Period(duration)) }

  /** The entry falls between two repetitions of the file. */
  predicate EntersGap(seek: Seek, duration: Duration) {
    EntryAt(seek, duration) > duration
  }

  /** What the playback skips, to leave the gap. */
  function GapSkip(seek: Seek, duration: Duration): int {
    if EntersGap(seek, duration) then EntryAt(seek, duration) - duration else 0
  }

  /** The part of the file that is played first: `ostart` and `ostop` of translate_seek. */
  function FirstSpan(seek: Seek, duration: Duration): (int, int) {
    var start, stop, at := seek.start, Stop(seek), EntryAt(seek, duration);
    var length := stop - start - GapSkip(seek, duration);
    if seek.forward then
      var ostart := if at > duration then 0 else at;
      (ostart, Min(duration, ostart + length))
    else
      var ostop := if at > duration then duration else at;
      (Max(0, ostop - length), ostop)
  }

  /** Nothing is left to play: `istart > istop` of translate_seek. */
  predicate NothingToPlay(seek: Seek, duration: Duration) {
    seek.start + GapSkip(seek, duration) > Stop(seek)
  }

  function FirstOffset(seek: Seek, duration: Duration): int {
    var (ostart, ostop) := FirstSpan(seek, duration);
    if seek.forward then seek.start - ostart else Stop(seek) - ostop
  }

  function FirstRemainder(seek: Seek, duration: Duration): int {
    var (ostart, ostop) := FirstSpan(seek, duration);
    Max(0, (Stop(seek) - seek.start) - (ostop - ostart))
  }

  /** One repetition: the part lo..hi of the file, shifted by `offset` in the archive. */
  datatype Rep = Rep(offset: int, lo: int, hi: int)

  function FirstRep(seek: Seek, duration: Duration): Rep {
    Rep(FirstOffset(seek, duration), FirstSpan(seek, duration).0, FirstSpan(seek, duration).1)
  }

  /** The next part of the file and what remains after it, when at least a gap remains. */
  function NextSpan(forward: bool, remainder: int, duration: Duration): (r: (int, int, int)) {
    var rest := remainder - INTERVAL;
    var lo := if forward then 0 else Max(duration - rest, 0);
    var hi := if forward then Min(duration, rest) else duration;
    (lo, hi, Max(rest - hi - lo, 0))
  }

  function Shift(forward: bool, duration: Duration): int {
    if forward then Period(duration) else -Period(duration)
  }

  /** All repetitions after one at `offset` that leaves `remainder`. */
  function Repetitions(forward: bool, remainder: int, offset: int, duration: Duration): seq<Rep>
    decreases remainder
  {
    if remainder < INTERVAL then []
    else
      var (lo, hi, rest) := NextSpan(forward, remainder, duration);
      var next := offset + Shift(forward, duration);
      [Rep(next, lo, hi)] + Repetitions(forward, rest, next, duration)
  }

  /** What remains after the first part: that of the seek, or else what an earlier seek left. */
  function Remaining(seek: Seek, duration: Duration, pending: int): int {
    if FirstRemainder(seek, duration) > 0 then FirstRemainder(seek, duration) else pending
  }

  /** Everything the bin plays for a seek that it forwards, when `pending` was left over. */
  function Playback(seek: Seek, duration: Duration, pending: int): seq<Rep> {
    [FirstRep(seek, duration)]
    + Repetitions(seek.forward, Remaining(seek, duration, pending), FirstOffset(seek, duration), duration)
  }

  /** The times of the seek are times or not given, and no signed sum of translate_seek
      leaves 64 bits. */
  predicate SeekOk(seek: Seek, duration: Duration) {
    && -1 <= seek.start && -1 <= seek.stop
    && Stop(seek) - seek.start < 0x8000_0000_0000_0000
    && (seek.forward ==> seek.start + GapSkip(seek, duration) < 0x8000_0000_0000_0000)
  }

  /** The seeks that are forwarded to the file and say where the playback enters. */
  predicate Forwarded(seek: Seek, duration: Duration) {
    && -1 <= seek.start && -1 <= seek.stop && (seek.forward ==> 0 <= seek.start)
    && !NothingToPlay(seek, duration)
  }

  /** Nothing from an earlier seek is going to be played. */
  predicate NothingPending(seek: Seek, duration: Duration, pending: int) {
    FirstRemainder(seek, duration) > 0 || pending < INTERVAL
  }

  /** The seeks for which the bin shows the archive. */
  predicate Clean(seek: Seek, duration: Duration, pending: int) {
    !EntersGap(seek, duration) && NothingPending(seek, duration, pending)
  }

  // ------------------------------------------------------------- division by a variable

  lemma MulOrder(a: int, b: int, p: int)
    requires a <= b && p > 0
    ensures a * p <= b * p
  {
  }

  lemma Distribute(a: int, b: int, p: int)
    ensures (a + b) * p == a * p + b * p
  {
  }

  lemma NonNegativeFactor(q: int, p: int)
    requires p > 0 && q * p > -p
    ensures q >= 0 && q * p >= 0
  {
    if q < 0 {
      MulOrder(q, -1, p);
    } else {
      MulOrder(0, q, p);
    }
  }

  lemma DivMod(t: int, p: int)
    requires p > 0
    ensures t == (t / p) * p + t % p && 0 <= t % p < p
  {
  }

  lemma ModUnique(t: int, p: int, q: int, f: int)
    requires p > 0 && 0 <= f < p && t == q * p + f
    ensures t / p == q && t % p == f
  {
    var d := t / p - q;
    DivMod(t, p);
    Distribute(q, d, p);
    assert d * p == f - t % p;
    if d >= 1 {
      MulOrder(1, d, p);
    } else if d <= -1 {
      MulOrder(d, -1, p);
    }
  }

  lemma DivMonotone(a: int, b: int, p: int)
    requires p > 0 && a <= b
    ensures a / p <= b / p
  {
    DivMod(a, p);
    DivMod(b, p);
    if a / p > b / p {
      MulOrder(b / p + 1, a / p, p);
      Distribute(b / p, 1, p);
    }
  }

  /** The place of the entry in its period is one, or -1 if the start is not given. */
  lemma EntryAtFits(seek: Seek, duration: Duration)
    requires -1 <= seek.start && -1 <= seek.stop
    ensures -1 <= EntryAt(seek, duration) < Period(duration) && EntryAt(seek, duration) <= Entry(seek)
    ensures EntryAt(seek, duration) < 0 ==> EntryAt(seek, duration) == Entry(seek)
  {
    var e, p := Entry(seek), Period(duration);
    if e < 0 {
      ModUnique(1, p, 0, 1);
    } else {
      DivMod(e, p);
      DivMonotone(0, e, p);
      MulOrder(0, e / p, p);
    }
  }

  // -------------------------------------------------------------- what a playback shows

  ghost predicate Shows(rep: Rep, t: int) {
    rep.offset + rep.lo <= t <= rep.offset + rep.hi
  }

  /** The archive has a picture at t. */
  ghost predicate Recorded(t: int, duration: Duration) {
    t % Period(duration) <= duration
  }

  /** Repetition `rep` shows exactly what the archive has in period q between the limits. */
  ghost predicate ShowsPeriod(rep: Rep, q: int, start: int, stop: int, duration: Duration) {
    && rep.offset == q * Period(duration)
    && 0 <= rep.lo && rep.hi <= duration
    && forall t :: Shows(rep, t) <==>
         start <= t <= stop && t / Period(duration) == q && Recorded(t, duration)
  }

  lemma ShowsPeriodIf(rep: Rep, q: int, start: int, stop: int, duration: Duration)
    requires rep.offset == q * Period(duration) && 0 <= rep.lo && rep.hi <= duration
    requires rep.lo == Max(0, start - rep.offset) && rep.hi == Min(duration, stop - rep.offset)
    ensures ShowsPeriod(rep, q, start, stop, duration)
  {
    var p := Period(duration);
    forall t ensures Shows(rep, t) <==> start <= t <= stop && t / p == q && Recorded(t, duration) {
      DivMod(t, p);
      if Shows(rep, t) {
        ModUnique(t, p, q, t - rep.offset);
      }
    }
  }

  /** Shifting by whole periods keeps the file time of every buffer. */
  lemma ShiftKeepsFileTime(rep: Rep, q: int, start: int, stop: int, duration: Duration, fileTime: int)
    requires ShowsPeriod(rep, q, start, stop, duration) && rep.lo <= fileTime <= rep.hi
    ensures (fileTime + rep.offset) % Period(duration) == fileTime
    ensures start <= fileTime + rep.offset <= stop
  {
    assert Shows(rep, fileTime + rep.offset);
    ModUnique(fileTime + rep.offset, Period(duration), q, fileTime);
  }

  /** The position after a repetition in period q: what remains lies beyond that period,
      in the direction of the playback. */
  ghost predicate Position(forward: bool, remainder: int, q: int, start: int, stop: int, duration: Duration) {
    && 0 <= remainder
    && start <= stop && -1 <= start
    && (forward ==> start <= q * Period(duration) + duration)
    && 0 <= q * Period(duration) <= stop
    && if forward
       then if remainder > 0 then stop == q * Period(duration) + duration + remainder
            else stop <= q * Period(duration) + duration
       else if remainder > 0 then start == q * Period(duration) - remainder
            else start >= q * Period(duration)
  }

  function Step(forward: bool): int { if forward then 1 else -1 }

  lemma NextPosition(forward: bool, remainder: int, q: int, start: int, stop: int, duration: Duration)
    requires Position(forward, remainder, q, start, stop, duration) && remainder >= INTERVAL
    ensures var (lo, hi, rest) := NextSpan(forward, remainder, duration);
            var next := q + Step(forward);
            var rep := Rep(next * Period(duration), lo, hi);
            && next * Period(duration) == q * Period(duration) + Shift(forward, duration)
            && Position(forward, rest, next, start, stop, duration)
            && ShowsPeriod(rep, next, start, stop, duration)
            && next >= 0
  {
    var p := Period(duration);
    Distribute(q, Step(forward), p);
    var off := q * p;
    var next := (q + Step(forward)) * p;
    assert next == off + Shift(forward, duration);
    var (lo, hi, rest) := NextSpan(forward, remainder, duration);
    if forward {
      NextForward(remainder, off, start, stop, duration);
    } else {
      NextBackward(remainder, off, start, stop, duration);
    }
    assert next > -p;
    NonNegativeFactor(q + Step(forward), p);
    ShowsPeriodIf(Rep(next, lo, hi), q + Step(forward), start, stop, duration);
  }

  lemma NextForward(remainder: int, offset: int, start: int, stop: int, duration: Duration)
    requires remainder >= INTERVAL && -1 <= start <= offset + duration
    requires 0 <= offset && stop == offset + duration + remainder
    ensures var (lo, hi, rest) := NextSpan(true, remainder, duration);
            var next := offset + Period(duration);
            && 0 <= next <= stop && start <= next + duration
            && lo == Max(0, start - next) && hi == Min(duration, stop - next)
            && (if rest > 0 then stop == next + duration + rest else stop <= next + duration)
            && 0 <= rest
  {
  }

  lemma NextBackward(remainder: int, offset: int, start: int, stop: int, duration: Duration)
    requires remainder >= INTERVAL && -1 <= start
    requires offset <= stop && start == offset - remainder
    ensures var (lo, hi, rest) := NextSpan(false, remainder, duration);
            var next := offset - Period(duration);
            && next + duration >= -1 && next <= stop
            && lo == Max(0, start - next) && hi == Min(duration, stop - next)
            && (if rest > 0 then start == next - rest else start >= next)
            && 0 <= rest
  {
  }

  /** Each later repetition shows exactly one period, one after the other. */
  lemma {:induction false} RepetitionsShowPeriods(forward: bool, remainder: int, q: int,
                                                  start: int, stop: int, duration: Duration, j: nat)
    requires Position(forward, remainder, q, start, stop, duration)
    requires j < |Repetitions(forward, remainder, q * Period(duration), duration)|
    ensures ShowsPeriod(Repetitions(forward, remainder, q * Period(duration), duration)[j],
                        q + Step(forward) * (j + 1), start, stop, duration)
    ensures q + Step(forward) * (j + 1) >= 0
    decreases remainder
  {
    NextPosition(forward, remainder, q, start, stop, duration);
    if j > 0 {
      var rest := NextSpan(forward, remainder, duration).2;
      RepetitionsShowPeriods(forward, rest, q + Step(forward), start, stop, duration, j - 1);
    }
  }

  /** When less than a gap remains, nothing is left in any other period. */
  lemma NothingBeyond(forward: bool, remainder: int, q: int,
                      start: int, stop: int, duration: Duration, t: int)
    requires Position(forward, remainder, q, start, stop, duration) && remainder < INTERVAL
    requires start <= t <= stop && Recorded(t, duration)
    ensures forward ==> t / Period(duration) <= q
    ensures !forward ==> t / Period(duration) >= q
  {
    var p := Period(duration);
    var u := t / p;
    DivMod(t, p);
    Distribute(q, 1, p);
    Distribute(q, -1, p);
    if forward && u > q {
      MulOrder(q + 1, u, p);
    }
    if !forward && u < q {
      MulOrder(u, q - 1, p);
    }
  }

  /** The later repetitions show everything that the archive has beyond period q. */
  lemma {:induction false} RepetitionsReachTheEnd(forward: bool, remainder: int, q: int,
                                                  start: int, stop: int, duration: Duration, t: int)
    requires Position(forward, remainder, q, start, stop, duration)
    requires start <= t <= stop && Recorded(t, duration)
    requires forward ==> t / Period(duration) > q
    requires !forward ==> t / Period(duration) < q
    ensures exists rep :: rep in Repetitions(forward, remainder, q * Period(duration), duration) && Shows(rep, t)
    decreases remainder
  {
    var p := Period(duration);
    if remainder < INTERVAL {
      NothingBeyond(forward, remainder, q, start, stop, duration, t);
    } else {
      NextPosition(forward, remainder, q, start, stop, duration);
      var (lo, hi, rest) := NextSpan(forward, remainder, duration);
      var next := q + Step(forward);
      var rep := Rep(next * p, lo, hi);
      var later := Repetitions(forward, rest, next * p, duration);
      assert Repetitions(forward, remainder, q * p, duration) == [rep] + later;
      if t / p == next {
        assert Shows(rep, t) && rep in [rep] + later;
      } else {
        RepetitionsReachTheEnd(forward, rest, next, start, stop, duration, t);
        var r :| r in later && Shows(r, t);
        assert r in [rep] + later;
      }
    }
  }

  /** The first repetition, when the entry is not in a gap. */
  lemma FirstPosition(seek: Seek, duration: Duration)
    requires Forwarded(seek, duration) && !EntersGap(seek, duration)
    ensures var q := Entry(seek) / Period(duration);
            && q >= 0
            && FirstOffset(seek, duration) == q * Period(duration)
            && Position(seek.forward, FirstRemainder(seek, duration), q, seek.start, Stop(seek), duration)
            && ShowsPeriod(FirstRep(seek, duration), q, seek.start, Stop(seek), duration)
  {
    var p := Period(duration);
    var q := Entry(seek) / p;
    var off := q * p;
    DivMod(Entry(seek), p);
    DivMonotone(0, Entry(seek), p);
    MulOrder(0, q, p);
    var rep := FirstRep(seek, duration);
    assert rep.offset == off;
    assert rep.lo == Max(0, seek.start - off) && rep.hi == Min(duration, Stop(seek) - off);
    ShowsPeriodIf(rep, q, seek.start, Stop(seek), duration);
  }

  /**
   Whatever is played, repetition j is shifted by j whole periods from the first one; so
   the timestamps are shifted by whole periods if and only if the entry is not in a gap.
   */
  lemma PlaybackOffsets(seek: Seek, duration: Duration, pending: int)
    requires Forwarded(seek, duration)
    ensures forall j :: 0 <= j < |Playback(seek, duration, pending)| ==>
              var offset := Playback(seek, duration, pending)[j].offset;
              && offset == FirstOffset(seek, duration) + j * Shift(seek.forward, duration)
              && (offset % Period(duration) == 0 <==> !EntersGap(seek, duration))
  {
    var first := FirstOffset(seek, duration);
    OffsetIsWholePeriods(seek, duration);
    forall j | 0 <= j < |Playback(seek, duration, pending)|
      ensures var offset := Playback(seek, duration, pending)[j].offset;
              && offset == first + j * Shift(seek.forward, duration)
              && offset % Period(duration) == first % Period(duration)
    {
      OffsetOfRepetition(seek, duration, pending, j);
      ManyShifts(seek.forward, duration, j);
      ShiftKeepsMod(first, Periods(seek.forward, j), Period(duration));
    }
  }

  lemma OffsetOfRepetition(seek: Seek, duration: Duration, pending: int, j: nat)
    requires j < |Playback(seek, duration, pending)|
    ensures Playback(seek, duration, pending)[j].offset
         == FirstOffset(seek, duration) + j * Shift(seek.forward, duration)
  {
    if j > 0 {
      RepetitionOffsets(seek.forward, Remaining(seek, duration, pending), FirstOffset(seek, duration), duration, j - 1);
    }
  }

  /** How many periods j repetitions are away, with a sign. */
  function Periods(forward: bool, j: int): int { if forward then j else -j }

  lemma ManyShifts(forward: bool, duration: Duration, j: int)
    ensures j * Shift(forward, duration) == Periods(forward, j) * Period(duration)
  {
    var p := Period(duration);
    assert forward || j * -p == -(j * p) == (-j) * p;
  }

  lemma {:induction false} RepetitionOffsets(forward: bool, remainder: int, offset: int, duration: Duration, j: nat)
    requires j < |Repetitions(forward, remainder, offset, duration)|
    ensures Repetitions(forward, remainder, offset, duration)[j].offset == offset + (j + 1) * Shift(forward, duration)
    decreases j
  {
    var s := Shift(forward, duration);
    if j > 0 {
      RepetitionOffsets(forward, NextSpan(forward, remainder, duration).2, offset + s, duration, j - 1);
      Distribute(j, 1, s);
    }
  }

  lemma ShiftKeepsMod(t: int, k: int, p: int)
    requires p > 0
    ensures (t + k * p) % p == t % p
  {
    DivMod(t, p);
    Distribute(t / p, k, p);
    ModUnique(t + k * p, p, t / p + k, t % p);
  }

  /** The place of repetition j in the archive: its period, forwards or backwards. */
  function PeriodOf(seek: Seek, duration: Duration, j: nat): int {
    Entry(seek) / Period(duration) + Step(seek.forward) * j
  }

  /** Repetition j shows exactly what the archive has in its period between start and stop. */
  ghost predicate ShowsItsPeriod(seek: Seek, duration: Duration, pending: int, j: nat)
    requires j < |Playback(seek, duration, pending)|
  {
    ShowsPeriod(Playback(seek, duration, pending)[j], PeriodOf(seek, duration, j), seek.start, Stop(seek), duration)
  }

  /**
   Each repetition shows exactly what the archive has in its period, k + j or k - j and
   never below 0, if and only if the entry is not in a gap and nothing else was pending.
   */
  lemma PlaybackShowsPeriods(seek: Seek, duration: Duration, pending: int)
    requires Forwarded(seek, duration) && pending >= 0
    ensures (forall j :: 0 <= j < |Playback(seek, duration, pending)| ==> ShowsItsPeriod(seek, duration, pending, j))
       <==> Clean(seek, duration, pending)
    ensures Clean(seek, duration, pending) ==>
              forall j :: 0 <= j < |Playback(seek, duration, pending)| ==> PeriodOf(seek, duration, j) >= 0
  {
    if Clean(seek, duration, pending) {
      forall j | 0 <= j < |Playback(seek, duration, pending)|
        ensures ShowsItsPeriod(seek, duration, pending, j) && PeriodOf(seek, duration, j) >= 0
      {
        CleanShowsPeriods(seek, duration, pending, j);
      }
    } else if EntersGap(seek, duration) {
      GapShowsEntry(seek, duration, pending);
      assert !ShowsItsPeriod(seek, duration, pending, 0);
    } else {
      var t := PendingShowsMore(seek, duration, pending);
      assert !ShowsItsPeriod(seek, duration, pending, 1);
    }
  }

  lemma CleanShowsPeriods(seek: Seek, duration: Duration, pending: int, j: nat)
    requires Forwarded(seek, duration) && pending >= 0 && Clean(seek, duration, pending)
    requires j < |Playback(seek, duration, pending)|
    ensures ShowsItsPeriod(seek, duration, pending, j) && PeriodOf(seek, duration, j) >= 0
  {
    FirstPosition(seek, duration);
    if j > 0 {
      RepetitionsShowPeriods(seek.forward, FirstRemainder(seek, duration), Entry(seek) / Period(duration),
                             seek.start, Stop(seek), duration, j - 1);
    }
  }

  /** A playback that enters in a gap shows something right there. */
  lemma GapShowsEntry(seek: Seek, duration: Duration, pending: int)
    requires Forwarded(seek, duration) && EntersGap(seek, duration)
    ensures Shows(Playback(seek, duration, pending)[0], Entry(seek))
    ensures Playback(seek, duration, pending)[0] == FirstRep(seek, duration)
    ensures !Recorded(Entry(seek), duration)
  {
  }

  /** What was pending is played in the next period, outside of what the seek asks for. */
  lemma PendingShowsMore(seek: Seek, duration: Duration, pending: int) returns (t: int)
    requires Forwarded(seek, duration) && pending >= 0
    requires !EntersGap(seek, duration) && !NothingPending(seek, duration, pending)
    ensures |Playback(seek, duration, pending)| > 1 && Shows(Playback(seek, duration, pending)[1], t)
    ensures !(seek.start <= t <= Stop(seek))
  {
    FirstPosition(seek, duration);
    var next := FirstOffset(seek, duration) + Shift(seek.forward, duration);
    t := if seek.forward then next else next + duration;
    var reps := Repetitions(seek.forward, pending, FirstOffset(seek, duration), duration);
    assert Playback(seek, duration, pending)[1] == reps[0];
    assert reps[0].offset == next;
  }

  ghost predicate Shown(seek: Seek, duration: Duration, pending: int, t: int) {
    exists j :: 0 <= j < |Playback(seek, duration, pending)| && Shows(Playback(seek, duration, pending)[j], t)
  }

  /**
   What is shown is exactly what the archive has between start and stop, if and only if the
   entry is not in a gap and nothing else was pending.
   */
  lemma PlaybackIsComplete(seek: Seek, duration: Duration, pending: int)
    requires Forwarded(seek, duration) && pending >= 0
    ensures (forall t :: Shown(seek, duration, pending, t) <==> seek.start <= t <= Stop(seek) && Recorded(t, duration))
       <==> Clean(seek, duration, pending)
  {
    if Clean(seek, duration, pending) {
      forall t
        ensures Shown(seek, duration, pending, t) <==> seek.start <= t <= Stop(seek) && Recorded(t, duration)
      {
        CleanIsComplete(seek, duration, pending, t);
      }
    } else if EntersGap(seek, duration) {
      GapShowsEntry(seek, duration, pending);
      assert Shown(seek, duration, pending, Entry(seek));
    } else {
      var t := PendingShowsMore(seek, duration, pending);
      assert Shown(seek, duration, pending, t);
    }
  }

  lemma CleanIsComplete(seek: Seek, duration: Duration, pending: int, t: int)
    requires Forwarded(seek, duration) && pending >= 0 && Clean(seek, duration, pending)
    ensures Shown(seek, duration, pending, t) <==> seek.start <= t <= Stop(seek) && Recorded(t, duration)
  {
    var p := Period(duration);
    var q := Entry(seek) / p;
    var reps := Playback(seek, duration, pending);
    if j :| 0 <= j < |reps| && Shows(reps[j], t) {
      CleanShowsPeriods(seek, duration, pending, j);
    }
    if seek.start <= t <= Stop(seek) && Recorded(t, duration) {
      FirstPosition(seek, duration);
      if t / p == q {
        assert Shows(reps[0], t);
      } else {
        EntryBoundsPeriods(seek, duration, t);
        RepetitionsReachTheEnd(seek.forward, FirstRemainder(seek, duration), q,
                               seek.start, Stop(seek), duration, t);
        var later := Repetitions(seek.forward, FirstRemainder(seek, duration), q * p, duration);
        var r :| r in later && Shows(r, t);
        var k :| 0 <= k < |later| && later[k] == r;
        NoLaterWithoutRemainder(seek.forward, FirstRemainder(seek, duration), q * p, duration, k);
        assert reps[k + 1] == r;
      }
    }
  }

  lemma NoLaterWithoutRemainder(forward: bool, remainder: int, offset: int, duration: Duration, k: nat)
    requires k < |Repetitions(forward, remainder, offset, duration)|
    ensures remainder >= INTERVAL
  {
  }

  lemma EntryBoundsPeriods(seek: Seek, duration: Duration, t: int)
    requires seek.start <= t <= Stop(seek)
    ensures seek.forward ==> t / Period(duration) >= Entry(seek) / Period(duration)
    ensures !seek.forward ==> t / Period(duration) <= Entry(seek) / Period(duration)
  {
    if seek.forward {
      DivMonotone(seek.start, t, Period(duration));
    } else {
      DivMonotone(t, Stop(seek), Period(duration));
    }
  }

  // -------------------------------------------------------------------- conservation

  ghost function Length(reps: seq<Rep>): int {
    if reps == [] then 0 else reps[0].hi - reps[0].lo + Length(reps[1..])
  }

  /** What remains when the last repetition is done. */
  ghost function Residue(forward: bool, remainder: int, duration: Duration): int
    decreases remainder
  {
    if remainder < INTERVAL then remainder
    else Residue(forward, NextSpan(forward, remainder, duration).2, duration)
  }

  lemma {:induction false} RepetitionsConserve(forward: bool, remainder: int, offset: int, duration: Duration)
    requires remainder >= 0
    ensures var reps := Repetitions(forward, remainder, offset, duration);
            && Length(reps) + INTERVAL * |reps| + Residue(forward, remainder, duration) == remainder
            && 0 <= Residue(forward, remainder, duration) < INTERVAL
    decreases remainder
  {
    if remainder >= INTERVAL {
      var (lo, hi, rest) := NextSpan(forward, remainder, duration);
      var next := offset + Shift(forward, duration);
      RepetitionsConserve(forward, rest, next, duration);
      assert Repetitions(forward, remainder, offset, duration)[1..] == Repetitions(forward, rest, next, duration);
    }
  }

  /**
   Played time, one gap between any two repetitions, and less than one gap of residue add
   up to what was asked for, if and only if nothing else was pending at all.
   */
  lemma PlaybackConserves(seek: Seek, duration: Duration, pending: int)
    requires Forwarded(seek, duration) && pending >= 0
    ensures var reps := Playback(seek, duration, pending);
            var residue := Residue(seek.forward, Remaining(seek, duration, pending), duration);
            && 0 <= residue < INTERVAL
            && (Length(reps) + INTERVAL * (|reps| - 1) + residue == Stop(seek) - seek.start <==>
                FirstRemainder(seek, duration) > 0 || pending == 0)
  {
    var left := Remaining(seek, duration, pending);
    RepetitionsConserve(seek.forward, left, FirstOffset(seek, duration), duration);
    var reps := Playback(seek, duration, pending);
    assert reps[1..] == Repetitions(seek.forward, left, FirstOffset(seek, duration), duration);
    FirstSpanFits(seek, duration);
  }

  lemma FirstSpanFits(seek: Seek, duration: Duration)
    requires Forwarded(seek, duration)
    ensures var (ostart, ostop) := FirstSpan(seek, duration);
            && 0 <= ostart <= ostop <= duration
            && ostop - ostart <= Stop(seek) - seek.start
            && FirstRemainder(seek, duration) == (Stop(seek) - seek.start) - (ostop - ostart)
  {
  }

  /** The timestamps of the first repetition are shifted by whole periods if and only if
      the playback does not enter in a gap. */
  lemma OffsetIsWholePeriods(seek: Seek, duration: Duration)
    requires Forwarded(seek, duration)
    ensures FirstOffset(seek, duration) % Period(duration) == 0 <==> !EntersGap(seek, duration)
  {
    var p := Period(duration);
    var e := Entry(seek);
    DivMod(e, p);
    if !EntersGap(seek, duration) {
      ModUnique(FirstOffset(seek, duration), p, e / p, 0);
    } else if !seek.forward {
      ModUnique(FirstOffset(seek, duration), p, e / p, e % p - duration);
    }
  }

  /** A playback that enters in a gap shows the file from its own edge right at the entry, and
      as much of it as is asked for behind the gap. */
  lemma GapStartsFile(seek: Seek, duration: Duration)
    requires Forwarded(seek, duration) && EntersGap(seek, duration)
    ensures var rep, behind := FirstRep(seek, duration), Entry(seek) % Period(duration) - duration;
            && 0 < behind < INTERVAL
            && rep.hi - rep.lo == Min(duration, Stop(seek) - seek.start - behind)
            && (if seek.forward then rep.lo == 0 && rep.offset + rep.lo == seek.start
                else rep.hi == duration && rep.offset + rep.hi == Stop(seek))
  {
    DivMod(Entry(seek), Period(duration));
  }

  /** A seek to second 12 of an archive of a 10 second file: in the gap, and forwarded. The
      file starts there, shifted by 12 seconds, where the archive has nothing. */
  lemma GapSeek()
    ensures var seek := Seek(true, 12_000_000_000, 30_000_000_000);
            var duration: Duration := 10_000_000_000;
            && Forwarded(seek, duration) && EntersGap(seek, duration)
            && FirstRep(seek, duration) == Rep(12_000_000_000, 0, 10_000_000_000)
            && 12_000_000_000 % Period(duration) != 0
            && Shown(seek, duration, 0, 12_000_000_000) && !Recorded(12_000_000_000, duration)
  {
    var seek := Seek(true, 12_000_000_000, 30_000_000_000);
    GapShowsEntry(seek, 10_000_000_000, 0);
  }

  /** Half a minute of the archive is asked for, and before it is played, only the first five
      seconds: the rest of the first seek is played behind those. */
  lemma StaleRemainder()
    ensures var first, second := Seek(true, 0, 30_000_000_000), Seek(true, 0, 5_000_000_000);
            var duration: Duration := 10_000_000_000;
            && Forwarded(first, duration) && Forwarded(second, duration)
            && var pending := Remaining(first, duration, 0);
            && pending == 20_000_000_000 && FirstRemainder(second, duration) == 0
            && Shown(second, duration, pending, 15_000_000_000)
  {
    var second := Seek(true, 0, 5_000_000_000);
    var duration: Duration := 10_000_000_000;
    var pending := Remaining(Seek(true, 0, 30_000_000_000), duration, 0);
    var later := Repetitions(true, pending, 0, duration);
    assert later[0] == Rep(15_000_000_000, 0, 10_000_000_000);
    assert Playback(second, duration, pending)[1] == later[0];
  }

  // ------------------------------------------------------------- offsets in 64 bits

  /** How many repetitions follow the first one. */
  lemma {:induction false} RepetitionCount(forward: bool, remainder: int, offset: int, duration: Duration)
    requires remainder >= 0
    ensures |Repetitions(forward, remainder, offset, duration)| == (remainder + duration) / Period(duration)
    decreases remainder
  {
    var p := Period(duration);
    if remainder < INTERVAL {
      ModUnique(remainder + duration, p, 0, remainder + duration);
    } else {
      var rest := NextSpan(forward, remainder, duration).2;
      RepetitionCount(forward, rest, offset + Shift(forward, duration), duration);
      assert rest == Max(remainder - p, 0);
      var f := (rest + duration) % p;
      DivMod(rest + duration, p);
      if remainder >= p {
        Distribute((rest + duration) / p, 1, p);
        ModUnique(remainder + duration, p, (rest + duration) / p + 1, f);
      } else {
        ModUnique(duration, p, 0, duration);
        ModUnique(remainder + duration, p, 1, remainder + duration - p);
      }
    }
  }

  /** The number of repetitions after the first one, in closed form. */
  function LaterCount(seek: Seek, duration: Duration, pending: int): int {
    (Remaining(seek, duration, pending) + duration) / Period(duration)
  }

  /** The offset of the last repetition, without playing any. */
  function LastOffset(seek: Seek, duration: Duration, pending: int): int {
    var later := LaterCount(seek, duration, pending) * Period(duration);
    if seek.forward then FirstOffset(seek, duration) + later else FirstOffset(seek, duration) - later
  }

  /** The 64-bit offset of the bin is the offset of every repetition. */
  ghost predicate OffsetsIn64Bits(seek: Seek, duration: Duration, pending: int) {
    forall j :: 0 <= j < |Playback(seek, duration, pending)| ==>
      0 <= Playback(seek, duration, pending)[j].offset < 0x1_0000_0000_0000_0000
  }

  lemma FirstOffsetFits(seek: Seek, duration: Duration)
    requires Forwarded(seek, duration)
    ensures 0 <= FirstOffset(seek, duration) <= Stop(seek)
    ensures FirstRemainder(seek, duration) >= 0
  {
    var p := Period(duration);
    DivMod(Entry(seek), p);
    DivMonotone(0, Entry(seek), p);
    MulOrder(0, Entry(seek) / p, p);
  }

  lemma PlaybackCount(seek: Seek, duration: Duration, pending: int)
    requires Forwarded(seek, duration) && pending >= 0
    ensures |Playback(seek, duration, pending)| == 1 + LaterCount(seek, duration, pending)
    ensures LaterCount(seek, duration, pending) >= 0
  {
    RepetitionCount(seek.forward, Remaining(seek, duration, pending), FirstOffset(seek, duration), duration);
  }

  /** Every offset lies between the first and the last one. */
  lemma OffsetsBetween(seek: Seek, duration: Duration, pending: int, j: nat)
    requires Forwarded(seek, duration) && pending >= 0 && j < |Playback(seek, duration, pending)|
    ensures var offset := Playback(seek, duration, pending)[j].offset;
            var first, last := FirstOffset(seek, duration), LastOffset(seek, duration, pending);
            && (if seek.forward then first <= offset <= last else last <= offset <= first)
            && (j == |Playback(seek, duration, pending)| - 1 ==> offset == last)
  {
    var p, n := Period(duration), LaterCount(seek, duration, pending);
    PlaybackCount(seek, duration, pending);
    OffsetAt(seek, duration, pending, j);
    MulOrder(0, j, p);
    MulOrder(j, n, p);
  }

  lemma OffsetAt(seek: Seek, duration: Duration, pending: int, j: nat)
    requires j < |Playback(seek, duration, pending)|
    ensures Playback(seek, duration, pending)[j].offset
         == if seek.forward then FirstOffset(seek, duration) + j * Period(duration)
            else FirstOffset(seek, duration) - j * Period(duration)
  {
    OffsetOfRepetition(seek, duration, pending, j);
    MinusProduct(j, Period(duration));
  }

  lemma MinusProduct(j: int, p: int)
    ensures j * -p == -(j * p)
  {
  }

  /**
   No offset wraps if and only if the last one does not; whatever was pending, and in either
   direction.
   */
  lemma OffsetsFitExactly(seek: Seek, duration: Duration, pending: int)
    requires Forwarded(seek, duration) && pending >= 0
    ensures OffsetsIn64Bits(seek, duration, pending)
       <==> 0 <= LastOffset(seek, duration, pending) < 0x1_0000_0000_0000_0000
  {
    var reps := Playback(seek, duration, pending);
    FirstOffsetFits(seek, duration);
    OffsetsBetween(seek, duration, pending, |reps| - 1);
    forall j | 0 <= j < |reps| && 0 <= LastOffset(seek, duration, pending) < 0x1_0000_0000_0000_0000
      ensures 0 <= reps[j].offset < 0x1_0000_0000_0000_0000
    {
      OffsetsBetween(seek, duration, pending, j);
    }
  }

  /** The start is not given, and the entry is the last instant of a gap. */
  predicate EntersLastInstant(seek: Seek, duration: Duration) {
    seek.start == -1 && EntryAt(seek, duration) == Period(duration) - 1
  }

  /**
   When nothing else was pending, no offset leaves 0..stop, in either direction and with or
   without a gap; except that of a seek without a start that enters in the last instant of a
   gap, whose last repetition lies before the beginning of time.
   */
  lemma OffsetsFit(seek: Seek, duration: Duration, pending: int)
    requires Forwarded(seek, duration) && pending >= 0 && NothingPending(seek, duration, pending)
    ensures OffsetsIn64Bits(seek, duration, pending) <==> !EntersLastInstant(seek, duration)
    ensures OffsetsIn64Bits(seek, duration, pending) ==>
              forall j :: 0 <= j < |Playback(seek, duration, pending)| ==>
                0 <= Playback(seek, duration, pending)[j].offset <= Stop(seek)
  {
    OffsetsFitExactly(seek, duration, pending);
    FirstOffsetFits(seek, duration);
    if seek.forward {
      LastForward(seek, duration, pending);
    } else {
      LastBackward(seek, duration, pending);
    }
    forall j | 0 <= j < |Playback(seek, duration, pending)| && LastOffset(seek, duration, pending) >= 0
      ensures 0 <= Playback(seek, duration, pending)[j].offset <= Stop(seek)
    {
      OffsetsBetween(seek, duration, pending, j);
    }
  }

  /** The periods that are played later and what does not fill another one. */
  lemma LaterPeriods(seek: Seek, duration: Duration, pending: int)
    requires Forwarded(seek, duration) && pending >= 0
    ensures var left, n := Remaining(seek, duration, pending), LaterCount(seek, duration, pending);
            && n >= 0 && 0 <= left + duration - n * Period(duration) < Period(duration)
            && (left < INTERVAL <==> n == 0)
  {
    var left, p := Remaining(seek, duration, pending), Period(duration);
    PlaybackCount(seek, duration, pending);
    DivMod(left + duration, p);
    if left < INTERVAL {
      ModUnique(left + duration, p, 0, left + duration);
    }
  }

  lemma LastForward(seek: Seek, duration: Duration, pending: int)
    requires Forwarded(seek, duration) && pending >= 0 && NothingPending(seek, duration, pending) && seek.forward
    ensures 0 <= LastOffset(seek, duration, pending) <= Stop(seek)
  {
    FirstOffsetFits(seek, duration);
    LaterPeriods(seek, duration, pending);
    MulOrder(0, LaterCount(seek, duration, pending), Period(duration));
  }

  lemma LastBackward(seek: Seek, duration: Duration, pending: int)
    requires Forwarded(seek, duration) && pending >= 0 && NothingPending(seek, duration, pending) && !seek.forward
    ensures LastOffset(seek, duration, pending) <= FirstOffset(seek, duration)
    ensures LastOffset(seek, duration, pending) >= 0 <==> !EntersLastInstant(seek, duration)
  {
    var p, n, q := Period(duration), LaterCount(seek, duration, pending), Entry(seek) / Period(duration);
    LaterPeriods(seek, duration, pending);
    FirstOffsetParts(seek, duration);
    BackwardRemainder(seek, duration);
    MulOrder(0, n, p);
    if n > 0 {
      PeriodsFit(n, q, p);
    }
  }

  /** n periods either fit into q, or take at least one more. */
  lemma PeriodsFit(n: int, q: int, p: int)
    requires p > 0
    ensures if n <= q then n * p <= q * p else n * p >= q * p + p
  {
    if n > q {
      MulOrder(q + 1, n, p);
      Distribute(q, 1, p);
    } else {
      MulOrder(n, q, p);
    }
  }

  /** Backwards, the first offset is a whole number of periods and what the gap took. */
  lemma FirstOffsetParts(seek: Seek, duration: Duration)
    requires Forwarded(seek, duration) && !seek.forward
    ensures var q := Entry(seek) / Period(duration);
            && q * Period(duration) >= 0 && 0 <= GapSkip(seek, duration) < INTERVAL
            && FirstOffset(seek, duration) == q * Period(duration) + GapSkip(seek, duration)
    ensures EntersLastInstant(seek, duration) <==> seek.start == -1 && GapSkip(seek, duration) == INTERVAL - 1
  {
    var p := Period(duration);
    DivMod(Entry(seek), p);
    DivMonotone(0, Entry(seek), p);
    MulOrder(0, Entry(seek) / p, p);
  }

  /** What remains backwards, if at least a gap does: everything down to the start. */
  lemma BackwardRemainder(seek: Seek, duration: Duration)
    requires Forwarded(seek, duration) && !seek.forward
    ensures FirstRemainder(seek, duration) >= INTERVAL ==>
              FirstRemainder(seek, duration) == FirstOffset(seek, duration) - seek.start
    ensures seek.start == -1 ==> FirstRemainder(seek, duration) == FirstOffset(seek, duration) + 1
  {
    FirstOffsetParts(seek, duration);
  }

  /** A reverse seek without a start, from the last instant of the gap behind a 10 second file:
      the last frame of the file is asked for once more, one instant before the beginning,
      and its timestamp wraps to what stands for none. */
  lemma LastInstantWraps()
    ensures var seek := Seek(false, -1, 14_999_999_999);
            var duration: Duration := 10_000_000_000;
            var reps := Playback(seek, duration, 0);
            && Forwarded(seek, duration) && NothingPending(seek, duration, 0)
            && FirstRemainder(seek, duration) == INTERVAL
            && |reps| == 2 && reps[1] == Rep(-10_000_000_001, 10_000_000_000, 10_000_000_000)
            && U64(10_000_000_000 + U64(reps[1].offset)) == TIME_NONE
  {
    var seek := Seek(false, -1, 14_999_999_999);
    var duration: Duration := 10_000_000_000;
    var later := Repetitions(false, INTERVAL, 4_999_999_999, duration);
    assert later == [Rep(-10_000_000_001, 10_000_000_000, 10_000_000_000)];
    assert Playback(seek, duration, 0)[1] == later[0];
  }

  /** Half a minute of the archive is asked for, and before it is played, its first five
      seconds in reverse: the rest of the first seek is played before the beginning, and the
      offsets wrap. */
  lemma StaleRemainderWraps()
    ensures var first, second := Seek(true, 0, 30_000_000_000), Seek(false, 0, 5_000_000_000);
            var duration: Duration := 10_000_000_000;
            var pending := Remaining(first, duration, 0);
            && Forwarded(first, duration) && Forwarded(second, duration)
            && LastOffset(second, duration, pending) == -30_000_000_000
            && !OffsetsIn64Bits(second, duration, pending)
  {
    var second := Seek(false, 0, 5_000_000_000);
    assert Remaining(Seek(true, 0, 30_000_000_000), 10_000_000_000, 0) == 20_000_000_000;
    assert FirstOffset(second, 10_000_000_000) == 0 && LaterCount(second, 10_000_000_000, 20_000_000_000) == 2;
    OffsetsFitExactly(second, 10_000_000_000, 20_000_000_000);
  }
}
