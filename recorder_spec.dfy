/**
 * What the session recorder computes, stated on the sequence of samples it
 * has accepted, and the window operations it performs.
 *
 * Power is a step function: the power reported by one sample holds until the
 * next sample, so the interval between two accepted samples carries the
 * earlier sample's power. Energy is in watt-hours, time in milliseconds;
 * reals are exact here (the source uses IEEE doubles).
 */
module RecorderSpec {
  import opened JsValues

  /** The span of the rolling window (`windowSecs` in the source, in ms). */
  const WindowMs: int := 60000

  datatype Sample = Sample(ts: int, power: real)

  /** One interval of the window: from `start` to `end` at constant `power`, holding `wh`. */
  datatype Segment = Segment(start: int, end: int, power: real, wh: real)

  function Max(a: real, b: real): real { if a >= b then a else b }

  /** `power * ms / 3600000`: watts over milliseconds, in watt-hours. */
  function Energy(power: real, ms: int): real {
    power * (ms as real) / 3600000.0
  }

  /** A sample the recorder takes into account: `power >= 0` and `ts > 0`. */
  predicate Accepted(ts: int, power: real) {
    power >= 0.0 && ts > 0
  }

  predicate AllAccepted(h: seq<Sample>) {
    forall i | 0 <= i < |h| :: Accepted(h[i].ts, h[i].power)
  }

  /** A segment of positive length, non-negative power, and the energy that power delivers over it. */
  predicate WellFormed(s: Segment) {
    s.start < s.end && s.power >= 0.0 && s.wh == Energy(s.power, s.end - s.start)
  }

  predicate AllWellFormed(w: seq<Segment>) {
    forall i | 0 <= i < |w| :: WellFormed(w[i])
  }

  /** Each segment ends where the next one starts. */
  predicate Contiguous(w: seq<Segment>) {
    forall i | 0 <= i < |w| - 1 :: w[i].end == w[i + 1].start
  }

  function SumWh(w: seq<Segment>): real {
    if w == [] then 0.0 else w[0].wh + SumWh(w[1..])
  }

  // ---------------------------------------------------------------------------
  // The window operations

  /** Front eviction: drops leading segments that end at or before the cutoff `c`. */
  function DropEnded(w: seq<Segment>, c: int): seq<Segment> {
    if w != [] && w[0].end <= c then DropEnded(w[1..], c) else w
  }

  /** The part of `s` after the cutoff `c`, with the energy of that part. */
  function Clip(s: Segment, c: int): Segment {
    Segment(c, s.end, s.power, Energy(s.power, s.end - c))
  }

  /** Clips the front segment when it straddles the cutoff. */
  function ClipFront(w: seq<Segment>, c: int): seq<Segment> {
    if w != [] && w[0].start < c && w[0].end > c then [Clip(w[0], c)] + w[1..] else w
  }

  /** What the recorder does to its queue for the cutoff `c`: evict, then clip the front. */
  function Slide(w: seq<Segment>, c: int): seq<Segment> {
    ClipFront(DropEnded(w, c), c)
  }

  // ---------------------------------------------------------------------------
  // The statistics, as functions of the accepted samples

  function LastTs(h: seq<Sample>): Option<int> {
    if h == [] then None else Some(h[|h| - 1].ts)
  }

  function LastPower(h: seq<Sample>): real {
    if h == [] then 0.0 else h[|h| - 1].power
  }

  /** The larger of 0 and every power in `h`. */
  function Peak(h: seq<Sample>): real {
    if h == [] then 0.0 else Max(Peak(h[..|h| - 1]), h[|h| - 1].power)
  }

  /** The interval sample `s` closes after sample `p`: none unless `s` is later. */
  function Step(p: Sample, s: Sample): seq<Segment> {
    if s.ts > p.ts then [Segment(p.ts, s.ts, p.power, Energy(p.power, s.ts - p.ts))] else []
  }

  /** Every interval the samples of `h` close, in order. */
  function Intervals(h: seq<Sample>): seq<Segment> {
    if |h| < 2 then [] else Intervals(h[..|h| - 1]) + Step(h[|h| - 2], h[|h| - 1])
  }

  function TotalEnergy(h: seq<Sample>): real {
    SumWh(Intervals(h))
  }

  /** Timestamps never decrease along `h`. */
  predicate Chained(h: seq<Sample>) {
    forall i | 0 < i < |h| :: h[i - 1].ts <= h[i].ts
  }

  /** The trailing 60-second window after the last sample of `h`. */
  function WindowAt(h: seq<Sample>): seq<Segment> {
    if h == [] then [] else Slide(Intervals(h), h[|h| - 1].ts - WindowMs)
  }

  function WindowEnergy(h: seq<Sample>): real {
    SumWh(WindowAt(h))
  }

  /** The largest trailing-window energy seen after any prefix of `h`. */
  function Best(h: seq<Sample>): real {
    if h == [] then 0.0 else Max(Best(h[..|h| - 1]), WindowEnergy(h))
  }

  /** The energy over consecutive pairs of samples, each at the earlier sample's power. */
  function PairwiseEnergy(h: seq<Sample>): real {
    if |h| < 2 then 0.0 else Energy(h[0].power, h[1].ts - h[0].ts) + PairwiseEnergy(h[1..])
  }

  /** `toFixed1(n)`: `Math.round(n * 10) / 10`, where `Math.round(x)` is `floor(x + 0.5)`. */
  function ToFixed1(n: real): (r: real)
    ensures n - 0.05 < r <= n + 0.05
    ensures (r * 10.0).Floor as real == r * 10.0
  {
    ((n * 10.0 + 0.5).Floor as real) / 10.0
  }

  // ---------------------------------------------------------------------------
  // Energy and sums

  lemma {:induction false} EnergyNonNegative(power: real, ms: int)
    requires power >= 0.0 && ms >= 0
    ensures Energy(power, ms) >= 0.0
  {
    assert power * (ms as real) >= 0.0;
  }

  lemma {:induction false} EnergyMonotone(power: real, a: int, b: int)
    requires power >= 0.0 && a <= b
    ensures Energy(power, a) <= Energy(power, b)
  {
    assert power * (b as real) - power * (a as real) == power * ((b - a) as real);
    assert power * ((b - a) as real) >= 0.0;
  }

  lemma {:induction false} SumWhAppend(a: seq<Segment>, b: seq<Segment>)
    ensures SumWh(a + b) == SumWh(a) + SumWh(b)
  {
    if a == [] {
      assert a + b == b;
    } else {
      assert (a + b)[1..] == a[1..] + b;
      SumWhAppend(a[1..], b);
    }
  }

  lemma {:induction false} SumWhNonNegative(w: seq<Segment>)
    requires AllWellFormed(w)
    ensures SumWh(w) >= 0.0
  {
    if w != [] {
      EnergyNonNegative(w[0].power, w[0].end - w[0].start);
      SumWhNonNegative(w[1..]);
    }
  }

  // ---------------------------------------------------------------------------
  // The window operations

  /** How many leading segments `DropEnded` removes. */
  function Evicted(w: seq<Segment>, c: int): (k: nat)
    ensures k <= |w|
  {
    if w != [] && w[0].end <= c then 1 + Evicted(w[1..], c) else 0
  }

  /** Eviction removes exactly the leading segments that end by the cutoff, and no other. */
  lemma {:induction false} DropEndedIsSuffix(w: seq<Segment>, c: int)
    ensures DropEnded(w, c) == w[Evicted(w, c)..]
    ensures forall i | 0 <= i < Evicted(w, c) :: w[i].end <= c
    ensures Evicted(w, c) < |w| ==> w[Evicted(w, c)].end > c
  {
    if w != [] && w[0].end <= c {
      DropEndedIsSuffix(w[1..], c);
      var k := Evicted(w[1..], c);
      assert w[1..][k..] == w[k + 1..];
      forall i | 0 <= i < k + 1 ensures w[i].end <= c {
        if i > 0 {
          assert w[i] == w[1..][i - 1];
        }
      }
    } else {
      assert w == w[0..];
    }
  }

  /** Eviction keeps a suffix: well formed, contiguous when the input is, and with no more energy. */
  lemma {:induction false} DropEndedProperties(w: seq<Segment>, c: int)
    requires AllWellFormed(w)
    ensures AllWellFormed(DropEnded(w, c))
    ensures Contiguous(w) ==> Contiguous(DropEnded(w, c))
    ensures SumWh(DropEnded(w, c)) <= SumWh(w)
    ensures w != [] && w[|w| - 1].end > c ==>
              DropEnded(w, c) != [] && DropEnded(w, c)[|DropEnded(w, c)| - 1] == w[|w| - 1]
  {
    DropEndedIsSuffix(w, c);
    var k := Evicted(w, c);
    var d := w[k..];
    assert w == w[..k] + d;
    SumWhAppend(w[..k], d);
    assert AllWellFormed(w[..k]);
    SumWhNonNegative(w[..k]);
  }

  /** Clipping the front of a queue whose front ends after the cutoff. */
  lemma {:induction false} ClipFrontProperties(d: seq<Segment>, c: int)
    requires AllWellFormed(d) && (d != [] ==> d[0].end > c)
    ensures AllWellFormed(ClipFront(d, c))
    ensures Contiguous(d) ==> Contiguous(ClipFront(d, c))
    ensures SumWh(ClipFront(d, c)) <= SumWh(d)
    ensures |ClipFront(d, c)| == |d|
    ensures d != [] ==> ClipFront(d, c)[0].end > c && ClipFront(d, c)[0].start >= c
    ensures d != [] ==> ClipFront(d, c)[|d| - 1].end == d[|d| - 1].end
  {
    if d != [] && d[0].start < c {
      var h := d[0];
      var r := [Clip(h, c)] + d[1..];
      EnergyMonotone(h.power, h.end - c, h.end - h.start);
      assert r[1..] == d[1..];
      assert SumWh(r) == Clip(h, c).wh + SumWh(d[1..]);
    }
  }

  /** Eviction and clipping leave well-formed segments well formed, contiguous ones contiguous, and never add energy. */
  lemma {:induction false} SlideProperties(w: seq<Segment>, c: int)
    requires AllWellFormed(w)
    ensures AllWellFormed(Slide(w, c))
    ensures Contiguous(w) ==> Contiguous(Slide(w, c))
    ensures SumWh(Slide(w, c)) <= SumWh(w)
    ensures Slide(w, c) != [] ==> Slide(w, c)[0].end > c && Slide(w, c)[0].start >= c
    ensures w != [] && w[|w| - 1].end > c ==>
              Slide(w, c) != [] && Slide(w, c)[|Slide(w, c)| - 1].end == w[|w| - 1].end
  {
    DropEndedIsSuffix(w, c);
    DropEndedProperties(w, c);
    ClipFrontProperties(DropEnded(w, c), c);
  }

  lemma {:induction false} DropEndedAppendLive(t: seq<Segment>, u: seq<Segment>, c: int)
    requires u != [] ==> u[0].end > c
    ensures DropEnded(t + u, c) == DropEnded(t, c) + u
  {
    if t == [] {
      assert t + u == u;
    } else if t[0].end <= c {
      assert (t + u)[1..] == t[1..] + u;
      DropEndedAppendLive(t[1..], u, c);
    } else {
      assert (t + u)[0] == t[0];
    }
  }

  /** Segments that lie wholly after the cutoff survive a slide untouched, in order, at the back. */
  lemma {:induction false} SlideAppendLive(t: seq<Segment>, u: seq<Segment>, c: int)
    requires forall i | 0 <= i < |u| :: u[i].start >= c && u[i].end > c
    ensures Slide(t + u, c) == Slide(t, c) + u
  {
    DropEndedAppendLive(t, u, c);
    var d := DropEnded(t, c);
    if d == [] {
      assert d + u == u;
    } else {
      assert (d + u)[0] == d[0] && (d + u)[1..] == d[1..] + u;
    }
  }

  lemma {:induction false} DropEndedTwice(w: seq<Segment>, c: int, c': int)
    requires c <= c'
    ensures DropEnded(DropEnded(w, c), c') == DropEnded(w, c')
  {
    if w != [] && w[0].end <= c {
      DropEndedTwice(w[1..], c, c');
    } else if w != [] && w[0].end <= c' {
    }
  }

  /** Sliding to a cutoff and then to a later one is the same as sliding to the later one. */
  lemma {:induction false} SlideTwice(w: seq<Segment>, c: int, c': int)
    requires c <= c'
    ensures Slide(Slide(w, c), c') == Slide(w, c')
  {
    var d := DropEnded(w, c);
    DropEndedTwice(w, c, c');
    DropEndedIsSuffix(w, c);
    if d != [] {
      var d' := ClipFront(d, c);
      assert d'[1..] == d[1..] && d'[0].end == d[0].end;
      if d[0].end <= c' {
        assert DropEnded(d', c') == DropEnded(d'[1..], c');
        assert DropEnded(d, c') == DropEnded(d[1..], c');
      }
    }
  }

  /**
   * What one interval update does to the window of a chained history: the
   * new window is the old one with the new interval appended, slid to the new cutoff.
   */
  lemma {:induction false} WindowAtStep(h: seq<Sample>, s: Sample)
    requires h != [] && s.ts > h[|h| - 1].ts
    ensures Intervals(h + [s]) == Intervals(h) + Step(h[|h| - 1], s)
    ensures WindowAt(h + [s]) == Slide(WindowAt(h) + Step(h[|h| - 1], s), s.ts - WindowMs)
  {
    var h' := h + [s];
    assert h'[..|h'| - 1] == h;
    var p := h[|h| - 1];
    var seg := Step(p, s);
    var c, c' := p.ts - WindowMs, s.ts - WindowMs;
    SlideAppendLive(Intervals(h), seg, c);
    SlideTwice(Intervals(h) + seg, c, c');
  }

  /** A sample with the same timestamp as the last one closes no interval (and, chained, moves no cutoff). */
  lemma {:induction false} IntervalsNoStep(h: seq<Sample>, s: Sample)
    requires h == [] || s.ts <= h[|h| - 1].ts
    ensures Intervals(h + [s]) == Intervals(h)
  {
    var h' := h + [s];
    assert h'[..|h'| - 1] == h;
    if h != [] {
      assert Intervals(h') == Intervals(h) + Step(h[|h| - 1], s);
      assert Intervals(h) + [] == Intervals(h);
    }
  }

  // ---------------------------------------------------------------------------
  // The intervals of a history

  lemma {:induction false} IntervalsWellFormed(h: seq<Sample>)
    requires AllAccepted(h)
    ensures AllWellFormed(Intervals(h))
  {
    if |h| >= 2 {
      IntervalsWellFormed(h[..|h| - 1]);
    }
  }

  /** The intervals up to sample `i` followed by those from sample `i` on are all the intervals. */
  lemma {:induction false} IntervalsSplit(h: seq<Sample>, i: nat)
    requires i < |h|
    ensures Intervals(h) == Intervals(h[..i + 1]) + Intervals(h[i..])
  {
    var x, y := h[..i + 1], h[i + 1..];
    assert h == x + y;
    assert h[i..] == [x[|x| - 1]] + y;
    IntervalsConcat(x, y);
  }

  /** The intervals of `x + y` are those of `x` followed by those from the last sample of `x` through `y`. */
  lemma {:induction false} IntervalsConcat(x: seq<Sample>, y: seq<Sample>)
    requires x != []
    ensures Intervals(x + y) == Intervals(x) + Intervals([x[|x| - 1]] + y)
    decreases |y|
  {
    var xl := x[|x| - 1];
    if y == [] {
      assert x + y == x;
      assert [xl] + y == [xl];
      assert Intervals(x) + [] == Intervals(x);
    } else {
      var y', s := y[..|y| - 1], y[|y| - 1];
      var p := if |y| == 1 then xl else y[|y| - 2];
      IntervalsConcat(x, y');
      SnocParts(x, y);
      SnocParts([xl], y);
      IntervalsSnoc(x + y', s);
      IntervalsSnoc([xl] + y', s);
      SegmentsAssoc(Intervals(x), Intervals([xl] + y'), Step(p, s));
    }
  }

  lemma {:induction false} SnocParts(x: seq<Sample>, y: seq<Sample>)
    requires x != [] && y != []
    ensures x + y == (x + y[..|y| - 1]) + [y[|y| - 1]]
    ensures x + y[..|y| - 1] != []
    ensures (x + y[..|y| - 1])[|x| + |y| - 2] == if |y| == 1 then x[|x| - 1] else y[|y| - 2]
  {
    assert x + y == (x + y[..|y| - 1]) + [y[|y| - 1]];
  }

  lemma SegmentsAssoc(a: seq<Segment>, b: seq<Segment>, c: seq<Segment>)
    ensures (a + b) + c == a + (b + c)
  {
  }

  /** Appending a sample appends the interval it closes. */
  lemma {:induction false} IntervalsSnoc(x: seq<Sample>, s: Sample)
    requires x != []
    ensures Intervals(x + [s]) == Intervals(x) + Step(x[|x| - 1], s)
  {
    var y := x + [s];
    assert y[..|y| - 1] == x;
  }

  /** With strictly increasing timestamps, the total energy is the sum over consecutive pairs, each at the earlier power. */
  lemma {:induction false} TotalIsPairwise(h: seq<Sample>)
    requires forall i | 0 < i < |h| :: h[i - 1].ts < h[i].ts
    ensures TotalEnergy(h) == PairwiseEnergy(h)
  {
    if |h| >= 2 {
      var t := h[1..];
      IntervalsSplit(h, 1);
      IntervalsOfPair(h);
      SumWhAppend(Step(h[0], h[1]), Intervals(t));
      forall i | 0 < i < |t| ensures t[i - 1].ts < t[i].ts {
        assert t[i - 1] == h[i] && t[i] == h[i + 1];
      }
      TotalIsPairwise(t);
    }
  }

  lemma {:induction false} IntervalsOfPair(h: seq<Sample>)
    requires |h| >= 2
    ensures Intervals(h[..2]) == Step(h[0], h[1])
  {
    var p := h[..2];
    assert p[..|p| - 1] == [h[0]];
    assert Intervals(p) == Intervals([h[0]]) + Step(h[0], h[1]);
  }

  lemma {:induction false} IntervalsOfPrefix(h: seq<Sample>, k: nat)
    requires 0 < k <= |h|
    ensures Intervals(h[..k]) <= Intervals(h)
  {
    IntervalsSplit(h, k - 1);
  }

  /** Under chained timestamps the intervals are contiguous and the last ends at the last sample. */
  lemma {:induction false} ChainedIntervals(h: seq<Sample>)
    requires Chained(h) && AllAccepted(h)
    ensures Contiguous(Intervals(h))
    ensures Intervals(h) != [] ==> Intervals(h)[|Intervals(h)| - 1].end == h[|h| - 1].ts
  {
    if |h| >= 2 {
      var init := h[..|h| - 1];
      ChainedIntervals(init);
      IntervalsWellFormed(h);
    }
  }

  // ---------------------------------------------------------------------------
  // The three statistics

  /** `peakW` is the largest accepted power (and 0 before any): every sample is below it, and it is 0 or one of them. */
  lemma {:induction false} PeakIsMaximum(h: seq<Sample>)
    ensures Peak(h) >= 0.0
    ensures forall i | 0 <= i < |h| :: h[i].power <= Peak(h)
    ensures Peak(h) == 0.0 || exists i | 0 <= i < |h| :: h[i].power == Peak(h)
  {
    if h != [] {
      var init := h[..|h| - 1];
      PeakIsMaximum(init);
      assert forall i | 0 <= i < |init| :: h[i] == init[i];
      if Peak(h) != 0.0 && Peak(h) != h[|h| - 1].power {
        var i :| 0 <= i < |init| && init[i].power == Peak(init);
        assert h[i].power == Peak(h);
      }
    }
  }

  lemma {:induction false} PeakMonotone(h: seq<Sample>, k: nat)
    requires k <= |h|
    ensures Peak(h[..k]) <= Peak(h)
  {
    if k < |h| {
      assert h[..|h| - 1][..k] == h[..k];
      PeakMonotone(h[..|h| - 1], k);
    } else {
      assert h[..k] == h;
    }
  }

  /** Energy only accumulates: the total after a prefix is at most the total after the whole. */
  lemma {:induction false} TotalMonotone(h: seq<Sample>, k: nat)
    requires AllAccepted(h) && 0 < k <= |h|
    ensures TotalEnergy(h[..k]) <= TotalEnergy(h)
  {
    IntervalsSplit(h, k - 1);
    SumWhAppend(Intervals(h[..k]), Intervals(h[k - 1..]));
    IntervalsWellFormed(h);
    var all := Intervals(h);
    assert Intervals(h[k - 1..]) == all[|Intervals(h[..k])|..];
    assert AllWellFormed(all[|Intervals(h[..k])|..]);
    SumWhNonNegative(Intervals(h[k - 1..]));
  }

  lemma {:induction false} BestMonotone(h: seq<Sample>, k: nat)
    requires k <= |h|
    ensures Best(h[..k]) <= Best(h)
  {
    if k < |h| {
      assert h[..|h| - 1][..k] == h[..k];
      BestMonotone(h[..|h| - 1], k);
    } else {
      assert h[..k] == h;
    }
  }

  /** The trailing window never holds more than the whole session. */
  lemma {:induction false} WindowWithinTotal(h: seq<Sample>)
    requires AllAccepted(h)
    ensures 0.0 <= WindowEnergy(h) <= TotalEnergy(h)
  {
    IntervalsWellFormed(h);
    if h != [] {
      SlideProperties(Intervals(h), h[|h| - 1].ts - WindowMs);
      SumWhNonNegative(WindowAt(h));
    }
  }

  /** `bestWh60 <= totalWh`: the best window cannot exceed the whole session. */
  lemma {:induction false} BestWithinTotal(h: seq<Sample>)
    requires AllAccepted(h)
    ensures 0.0 <= Best(h) <= TotalEnergy(h)
  {
    if h != [] {
      var init := h[..|h| - 1];
      assert AllAccepted(init);
      BestWithinTotal(init);
      WindowWithinTotal(h);
      if init != [] {
        TotalMonotone(h, |h| - 1);
      }
    }
  }

  /**
   * The shape of the window of a chained history: well formed, contiguous,
   * inside the last 60 seconds and ending at the last sample.
   */
  lemma {:induction false} WindowAtShape(h: seq<Sample>)
    requires Chained(h) && AllAccepted(h) && h != []
    ensures AllWellFormed(WindowAt(h)) && Contiguous(WindowAt(h))
    ensures forall i | 0 <= i < |WindowAt(h)| ::
              h[|h| - 1].ts - WindowMs < WindowAt(h)[i].end <= h[|h| - 1].ts
    ensures WindowAt(h) != [] ==> WindowAt(h)[0].start >= h[|h| - 1].ts - WindowMs
    ensures WindowAt(h) != [] ==> WindowAt(h)[|WindowAt(h)| - 1].end == h[|h| - 1].ts
  {
    var c, t := h[|h| - 1].ts - WindowMs, h[|h| - 1].ts;
    var all := Intervals(h);
    IntervalsWellFormed(h);
    ChainedIntervals(h);
    SlideProperties(all, c);
    var w := WindowAt(h);
    if w != [] {
      assert all != [] by {
        DropEndedIsSuffix(all, c);
      }
      assert w[|w| - 1].end == t;
      EndsIncrease(w);
    }
  }

  lemma {:induction false} EndsIncrease(w: seq<Segment>)
    requires AllWellFormed(w) && Contiguous(w) && w != []
    ensures forall i | 0 <= i < |w| :: w[0].end <= w[i].end <= w[|w| - 1].end
  {
    if |w| > 1 {
      EndsIncrease(w[1..]);
      assert w[1..][0] == w[1] && w[1..][|w| - 2] == w[|w| - 1];
      assert w[0].end == w[1].start < w[1].end;
    }
  }

  /** The intervals of a chained run that spans at most 60 seconds all lie after the cutoff of its last sample. */
  lemma {:induction false} RecentIntervalsLive(r: seq<Sample>, c: int)
    requires Chained(r) && AllAccepted(r) && r != [] && r[0].ts >= c
    ensures forall k | 0 <= k < |Intervals(r)| :: Intervals(r)[k].start >= c && Intervals(r)[k].end > c
  {
    forall k | 0 <= k < |Intervals(r)| ensures Intervals(r)[k].start >= c && Intervals(r)[k].end > c {
      RunIntervalsAfter(r, k);
    }
  }

  /** The trailing window of a chained history holds every interval that starts within 60 seconds of its last sample. */
  lemma {:induction false} WindowCoversRecentSuffix(p: seq<Sample>, i: nat)
    requires Chained(p) && AllAccepted(p)
    requires i < |p| && p[|p| - 1].ts - p[i].ts <= WindowMs
    ensures TotalEnergy(p[i..]) <= WindowEnergy(p)
  {
    var c := p[|p| - 1].ts - WindowMs;
    var r := p[i..];
    IntervalsSplit(p, i);
    var t, u := Intervals(p[..i + 1]), Intervals(r);
    SuffixChained(p, i);
    RecentIntervalsLive(r, c);
    SlideAppendLive(t, u, c);
    assert WindowAt(p) == Slide(t, c) + u;
    SumWhAppend(Slide(t, c), u);
    PrefixSlideNonNegative(p, i, c);
  }

  lemma {:induction false} SuffixChained(p: seq<Sample>, i: nat)
    requires Chained(p) && AllAccepted(p) && i < |p|
    ensures Chained(p[i..]) && AllAccepted(p[i..]) && p[i..] != [] && p[i..][0].ts == p[i].ts
  {
    var r := p[i..];
    forall k | 0 < k < |r| ensures r[k - 1].ts <= r[k].ts {
      assert r[k - 1] == p[i + k - 1] && r[k] == p[i + k];
    }
    forall k | 0 <= k < |r| ensures Accepted(r[k].ts, r[k].power) {
      assert r[k] == p[i + k];
    }
  }

  lemma {:induction false} PrefixSlideNonNegative(p: seq<Sample>, i: nat, c: int)
    requires AllAccepted(p) && i < |p|
    ensures 0.0 <= SumWh(Slide(Intervals(p[..i + 1]), c))
  {
    var q := p[..i + 1];
    forall k | 0 <= k < |q| ensures Accepted(q[k].ts, q[k].power) {
      assert q[k] == p[k];
    }
    IntervalsWellFormed(q);
    SlideProperties(Intervals(q), c);
    SumWhNonNegative(Slide(Intervals(q), c));
  }

  /**
   * `bestWh60` is at least the energy of any run of consecutive samples that
   * spans at most 60 seconds, when timestamps never decrease.
   */
  lemma {:induction false} BestCoversShortRuns(h: seq<Sample>, i: nat, j: nat)
    requires Chained(h) && AllAccepted(h)
    requires i <= j < |h| && h[j].ts - h[i].ts <= WindowMs
    ensures TotalEnergy(h[i..j + 1]) <= Best(h)
  {
    var p := h[..j + 1];
    BestMonotone(h, j + 1);
    assert p[..|p| - 1] == h[..j];
    assert Best(p) >= WindowEnergy(p);
    assert p[i..] == h[i..j + 1];
    assert Chained(p) && AllAccepted(p);
    WindowCoversRecentSuffix(p, i);
  }

  /** Every interval of a chained run starts no earlier than its first sample. */
  lemma {:induction false} RunIntervalsAfter(r: seq<Sample>, k: nat)
    requires Chained(r) && AllAccepted(r) && r != []
    requires k < |Intervals(r)|
    ensures r[0].ts <= Intervals(r)[k].start < Intervals(r)[k].end <= r[|r| - 1].ts
  {
    var w := Intervals(r);
    IntervalsWellFormed(r);
    ChainedIntervals(r);
    EndsIncrease(w);
    assert w[0].start >= r[0].ts by { FirstIntervalStart(r); }
    if k > 0 {
      assert w[k - 1].end == w[k].start;
      assert w[0].end <= w[k - 1].end;
    }
  }

  lemma {:induction false} FirstIntervalStart(r: seq<Sample>)
    requires Chained(r) && r != [] && Intervals(r) != []
    ensures Intervals(r)[0].start >= r[0].ts
  {
    var init := r[..|r| - 1];
    assert |r| >= 2;
    if Intervals(init) != [] {
      FirstIntervalStart(init);
      assert Intervals(r)[0] == Intervals(init)[0];
    } else {
      assert Intervals(r) == Step(r[|r| - 2], r[|r| - 1]);
      ChainedFirst(r, |r| - 2);
    }
  }

  lemma {:induction false} ChainedFirst(r: seq<Sample>, k: nat)
    requires Chained(r) && k < |r|
    ensures r[0].ts <= r[k].ts
  {
    if k > 0 {
      ChainedFirst(r, k - 1);
    }
  }

  // ---------------------------------------------------------------------------
  // Rounding

  lemma {:induction false} ToFixed1Monotone(a: real, b: real)
    requires a <= b
    ensures ToFixed1(a) <= ToFixed1(b)
  {
    assert (a * 10.0 + 0.5).Floor <= (b * 10.0 + 0.5).Floor;
  }

  lemma {:induction false} ToFixed1Idempotent(n: real)
    ensures ToFixed1(ToFixed1(n)) == ToFixed1(n)
  {
    var k := (n * 10.0 + 0.5).Floor;
    assert ToFixed1(n) * 10.0 == k as real;
    assert (k as real + 0.5).Floor == k;
  }
}
