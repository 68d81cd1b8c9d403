/** Linear accrual and its checkpoints. */
module StreamAccrual {
  import opened Common
  import opened Conversion
  import Sums
  import opened StreamLedger

  /** What an uninterrupted stream has released by `t`, on the straight line from 0 at its start
      to all of it at its end, rounded down. */
  function Released(stream: Stream, t: int): int
    requires stream.start < stream.end
  {
    if t <= stream.start then 0
    else if t >= stream.end then stream.amount
    else
      MulMono(0, t - stream.start, stream.amount);
      Quotient(stream.amount * (t - stream.start), stream.end - stream.start, Floor)
  }

  /** Streams as `DistributeYield` starts them and checkpoints leave them: the time span fits the
      clock, and an unfinished stream still has something to release. */
  predicate WellFormed(stream: Stream) {
    if stream.amount == 0 then stream == IDLE
    else
      && stream.start + MIN_STREAM_DURATION <= stream.end <= stream.start + I64_MAX
      && stream.distributed < stream.amount
  }

  /** The vault holds its base, the rest of the stream, and what was given to it outside. */
  ghost predicate Backed(s: State, donated: nat) {
    && WellFormed(s.stream)
    && s.base + (s.stream.amount - s.stream.distributed) + donated == s.balance
    && s.supply == Sums.Sum(s.holdings, Sums.Amount)
  }

  /** No checkpoint of this stream was taken at a later time than `t`. */
  predicate Timely(s: State, t: int) {
    s.stream.amount == 0 || (s.stream.start < s.stream.end && s.stream.distributed <= Released(s.stream, t))
  }

  /** The base and what was released since the last checkpoint. */
  function Worth(s: State, t: int): int {
    if s.stream.amount == 0 || s.stream.start >= s.stream.end then s.base
    else s.base + Released(s.stream, t) - s.stream.distributed
  }

  lemma PartOf(x: nat, part: nat, whole: nat)
    requires 0 < x && part < whole && 0 <= x * part
    ensures Quotient(x * part, whole, Floor) < x
  {
    MulLess(part, whole, x);
    CancelLess(Quotient(x * part, whole, Floor), x, whole);
  }

  lemma ReleasedBounds(stream: Stream, t: int)
    requires stream.start < stream.end && stream.amount > 0
    ensures 0 <= Released(stream, t) <= stream.amount
    ensures Released(stream, t) == stream.amount <==> t >= stream.end
  {
    if stream.start < t < stream.end {
      var d := stream.end - stream.start;
      PartOf(stream.amount, t - stream.start, d);
    }
  }

  lemma QuotientMonotone(n0: nat, n1: nat, d: nat)
    requires d > 0 && n0 <= n1
    ensures Quotient(n0, d, Floor) <= Quotient(n1, d, Floor)
  {
    CancelLess(Quotient(n0, d, Floor), Quotient(n1, d, Floor) + 1, d);
  }

  lemma ProductMonotone(x: nat, y0: nat, y1: nat)
    requires y0 <= y1
    ensures 0 <= x * y0 <= x * y1
  {
    MulMono(y0, y1, x);
  }

  lemma ReleasedMonotone(stream: Stream, t0: int, t1: int)
    requires stream.start < stream.end && stream.amount > 0 && t0 <= t1
    ensures Released(stream, t0) <= Released(stream, t1)
  {
    ReleasedBounds(stream, t0);
    ReleasedBounds(stream, t1);
    if stream.start < t0 && t1 < stream.end {
      ProductMonotone(stream.amount, t0 - stream.start, t1 - stream.start);
      QuotientMonotone(stream.amount * (t0 - stream.start), stream.amount * (t1 - stream.start), stream.end - stream.start);
    }
  }

  lemma LineComputed(amount: u64, elapsed: u64, duration: u64)
    requires elapsed < duration
    ensures 0 <= amount * elapsed
    ensures MulDiv(amount, elapsed, duration, Floor) == Ok(Quotient(amount * elapsed, duration, Floor))
  {
    MulMono(0, elapsed, amount);
    var q := Quotient(amount * elapsed, duration, Floor);
    MulMono(elapsed, duration, amount);
    assert amount * elapsed <= amount * duration;
    MulMono(amount, U64_MAX, duration);
    CancelLess(q, U64_MAX + 1, duration);
  }

  /** Between its ends, what the program computes of a stream is what it has released. */
  lemma InterpolationIsReleased(stream: Stream, now: i64)
    requires WellFormed(stream) && stream.start < now < stream.end
    ensures Interpolate(stream, now) == Ok(Released(stream, now))
  {
    LineComputed(stream.amount, now - stream.start, stream.end - stream.start);
  }

  lemma EffectiveFrom(s: State, now: i64, accrued: Result<u64>)
    requires s.stream.amount > 0 && s.stream.start < now < s.stream.end && Interpolate(s.stream, now) == accrued
    ensures EffectiveTotalAssets(s, now) == (if accrued.Err? then Err(accrued.error) else OnTopOf(s.base, accrued.value, s.stream.distributed))
  {}

  /** The program's interpolation is the line, and in a backed vault it never overflows. */
  lemma EffectiveIsWorth(s: State, now: i64, donated: nat)
    requires Backed(s, donated) && Timely(s, now)
    ensures EffectiveTotalAssets(s, now) == Ok(Worth(s, now))
    ensures s.base <= Worth(s, now) <= s.base + (s.stream.amount - s.stream.distributed)
  {
    var stream := s.stream;
    if stream.amount > 0 {
      ReleasedBounds(stream, now);
      if stream.start < now < stream.end {
        InterpolationIsReleased(stream, now);
        EffectiveFrom(s, now, Ok(Released(stream, now)));
      }
    }
  }

  /** Within a stream, a price is only refused if the clock has run backwards past a checkpoint. */
  lemma RefusedOnlyBackwards(s: State, now: i64, donated: nat)
    requires Backed(s, donated) && now > s.stream.start
    ensures EffectiveTotalAssets(s, now).Ok? <==> Timely(s, now)
  {
    var stream := s.stream;
    if Timely(s, now) {
      EffectiveIsWorth(s, now, donated);
    } else {
      ReleasedBounds(stream, now);
      LineComputed(stream.amount, now - stream.start, stream.end - stream.start);
    }
  }

  /** A checkpoint succeeds, moves exactly what was released to the base, and changes no later
      price: it can be taken by anyone at any moment to no effect on the holders. */
  lemma CheckpointKeepsWorth(s: State, now: i64, donated: nat)
    requires Backed(s, donated) && Timely(s, now)
    ensures Checkpoint(s, now).Ok?
    ensures var c := Checkpoint(s, now).value;
            && Backed(c, donated) && c == s.(base := c.base, stream := c.stream, lastCheckpoint := c.lastCheckpoint)
            && c.base == Worth(s, now)
            && (now >= s.stream.end ==> c.stream == IDLE)
            && (forall t | now <= t :: Timely(c, t) && Worth(c, t) == Worth(s, t))
  {
    EffectiveIsWorth(s, now, donated);
    var c := Checkpoint(s, now).value;
    if s.stream.amount > 0 {
      ReleasedBounds(s.stream, now);
      forall t | now <= t ensures Timely(c, t) && Worth(c, t) == Worth(s, t) {
        ReleasedMonotone(s.stream, now, t);
        ReleasedBounds(s.stream, t);
        SameLine(s.stream, c.stream, t);
      }
    }
  }

  lemma SameLine(a: Stream, b: Stream, t: int)
    requires a.start < a.end && b.start < b.end ==> a.amount == b.amount && a.start == b.start && a.end == b.end
    ensures a.start < a.end && b.start < b.end ==> Released(a, t) == Released(b, t)
  {}

  predicate Ascending(times: seq<i64>, from: int) {
    forall i | 0 <= i < |times| :: (if i == 0 then from else times[i - 1]) <= times[i]
  }

  function Checkpoints(times: seq<i64>): seq<Op> {
    seq(|times|, i requires 0 <= i < |times| => CheckpointOp(times[i]))
  }

  /** Any number of checkpoints, at any times, move to the base exactly what one checkpoint at
      the last of those times would: no rounding is lost on the way. */
  lemma {:induction false} CheckpointsCompose(s: State, times: seq<i64>, donated: nat)
    requires Backed(s, donated) && times != [] && Timely(s, times[0]) && Ascending(times, times[0])
    ensures Run(s, Checkpoints(times)).Ok?
    ensures var c, last := Run(s, Checkpoints(times)).value, times[|times| - 1];
            && Checkpoint(s, last).Ok? && c.base == Checkpoint(s, last).value.base == Worth(s, last)
            && c.balance == s.balance && c.supply == s.supply && Backed(c, donated)
            && (forall t | last <= t :: Worth(c, t) == Worth(s, t))
    decreases |times|
  {
    var t0, rest, last := times[0], times[1..], times[|times| - 1];
    CheckpointKeepsWorth(s, t0, donated);
    var c := Checkpoint(s, t0).value;
    assert Checkpoints(times)[1..] == Checkpoints(rest);
    assert Step(s, CheckpointOp(t0)) == Ok(Commit(c, 0, 0));
    if rest == [] {
      assert Run(c, Checkpoints(rest)) == Ok(c);
    } else {
      assert t0 <= rest[0];
      assert Ascending(rest, rest[0]) by {
        forall i | 0 <= i < |rest| ensures (if i == 0 then rest[0] else rest[i - 1]) <= rest[i] {
          assert times[i] <= times[i + 1];
        }
      }
      CheckpointsCompose(c, rest, donated);
      AscendingLast(times, 0);
      TimelyLater(s, t0, last);
      CheckpointKeepsWorth(s, last, donated);
    }
  }

  lemma {:induction false} AscendingLast(times: seq<i64>, i: nat)
    requires i < |times| && Ascending(times, times[0])
    ensures times[i] <= times[|times| - 1]
    decreases |times| - i
  {
    if i + 1 < |times| {
      assert times[i] <= times[i + 1];
      AscendingLast(times, i + 1);
    }
  }

  lemma TimelyLater(s: State, t0: int, t1: int)
    requires Timely(s, t0) && t0 <= t1
    ensures Timely(s, t1) && Worth(s, t0) <= Worth(s, t1)
  {
    if s.stream.amount > 0 {
      ReleasedMonotone(s.stream, t0, t1);
    }
  }

  /** A new stream is only started over a finished one: the program's provision for an unreleased
      remainder is never used. */
  lemma NothingLeftToReplace(s: State, now: i64, donated: nat)
    requires Backed(s, donated) && (now >= s.stream.end || s.stream.amount == 0)
    ensures Checkpoint(s, now).Ok? && Checkpoint(s, now).value.stream == IDLE
  {
    if s.stream.amount > 0 {
      ReleasedBounds(s.stream, now);
      CheckpointKeepsWorth(s, now, donated);
    }
  }
}
