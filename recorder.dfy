/**
 * The session recorder of the ANT+ bridge: one object per riding session,
 * fed `(ts, power)` samples, keeping the energy integral, a trailing
 * 60-second window of intervals with its running sum, the best window energy
 * and the peak power.
 *
 * The ghost `history` holds the accepted samples; `Valid()` ties every field
 * to the functions of RecorderSpec evaluated on it.
 */
module Recorder {
  import opened JsValues
  import opened RecorderSpec

  /** What `snapshot()` returns: identity and the three statistics rounded to one decimal. */
  datatype RecorderSnapshot = RecorderSnapshot(
    id: int, name: string, gender: string, startTs: int,
    peakW: real, bestWh60: real, totalWh: real)

  class SessionRecorder {
    const id: int
    const name: string
    const gender: string
    const startTs: int
    var lastTs: Option<int>
    var lastPower: real
    var peakW: real
    var totalWh: real
    var window: seq<Segment>
    var windowWh: real
    var bestWh60: real
    ghost var history: seq<Sample>

    ghost predicate Valid()
      reads this
    {
      Consistent(history, lastTs, lastPower, peakW, totalWh, window, windowWh, bestWh60)
    }

    /** A recorder with no samples yet; `startTs` is the clock reading at creation. */
    constructor (id: int, name: string, gender: string, startTs: int)
      ensures Valid() && history == []
      ensures this.id == id && this.name == name && this.gender == gender && this.startTs == startTs
      ensures lastTs == None && lastPower == 0.0 && peakW == 0.0 && totalWh == 0.0
      ensures window == [] && windowWh == 0.0 && bestWh60 == 0.0
    {
      this.id := id;
      this.name := name;
      this.gender := gender;
      this.startTs := startTs;
      lastTs := None;
      lastPower := 0.0;
      peakW := 0.0;
      totalWh := 0.0;
      window := [];
      windowWh := 0.0;
      bestWh60 := 0.0;
      history := [];
    }

    /**
     * `onPowerSample(ts, power)`. A rejected sample changes nothing. A sample
     * later than the previous one closes the interval since it at the
     * previous power: the interval is appended to the window, which is then
     * evicted and clipped to the new cutoff. Every accepted sample updates
     * the peak and becomes the previous sample.
     */
    method OnPowerSample(ts: int, power: real)
      requires Valid()
      modifies this
      ensures Valid()
      ensures !Accepted(ts, power) ==> unchanged(this)
      ensures Accepted(ts, power) ==>
                && history == old(history) + [Sample(ts, power)]
                && lastTs == Some(ts) && lastPower == power
                && peakW == Max(old(peakW), power)
      ensures Accepted(ts, power) && old(lastTs).Some? && ts > old(lastTs).value ==>
                var seg := Segment(old(lastTs).value, ts, old(lastPower), Energy(old(lastPower), ts - old(lastTs).value));
                && window == Slide(old(window) + [seg], ts - WindowMs)
                && totalWh == old(totalWh) + seg.wh
                && bestWh60 == Max(old(bestWh60), windowWh)
      ensures Accepted(ts, power) && !(old(lastTs).Some? && ts > old(lastTs).value) ==>
                window == old(window) && windowWh == old(windowWh)
                && totalWh == old(totalWh) && bestWh60 == old(bestWh60)
      ensures old(peakW) <= peakW && old(totalWh) <= totalWh && old(bestWh60) <= bestWh60
    {
      if !(power >= 0.0) || !(ts > 0) {
        return;
      }
      ghost var h, lt, lp, pk, tot, w, ww, best :=
        history, lastTs, lastPower, peakW, totalWh, window, windowWh, bestWh60;
      if lastTs.Some? && ts > lastTs.value {
        CloseInterval(ts);
      }
      if power > peakW {
        peakW := power;
      }
      history, lastTs, lastPower := h + [Sample(ts, power)], Some(ts), power;
      if lt.Some? && ts > lt.value {
        IntervalStepConsistent(h, lt, lp, pk, tot, w, ww, best, ts, power, peakW, totalWh, window, windowWh, bestWh60);
      } else {
        NoStepConsistent(h, lt, lp, pk, tot, w, ww, best, ts, power, peakW);
      }
    }

    /**
     * The interval part of `onPowerSample`: the energy at the previous power
     * since the previous sample is added to the total and pushed onto the
     * window, and the best window energy is raised to the new window sum.
     */
    method CloseInterval(ts: int)
      requires lastTs.Some? && ts > lastTs.value && windowWh == SumWh(window)
      modifies this`totalWh, this`window, this`windowWh, this`bestWh60
      ensures var seg := Segment(lastTs.value, ts, lastPower, Energy(lastPower, ts - lastTs.value));
              && totalWh == old(totalWh) + seg.wh
              && window == Slide(old(window) + [seg], ts - WindowMs)
              && windowWh == SumWh(window)
              && bestWh60 == Max(old(bestWh60), windowWh)
    {
      var dt := ts - lastTs.value;
      var wh := Energy(lastPower, dt);
      totalWh := totalWh + wh;
      AdvanceWindow(Segment(lastTs.value, ts, lastPower, wh), ts - WindowMs);
      if windowWh > bestWh60 {
        bestWh60 := windowWh;
      }
    }

    /**
     * The window part of `onPowerSample`: push the new interval, evict from
     * the front every interval that ends by the cutoff, then clip a front
     * interval that straddles it, keeping `windowWh` equal to the queue's sum.
     */
    method AdvanceWindow(seg: Segment, cutoff: int)
      requires windowWh == SumWh(window)
      modifies this`window, this`windowWh
      ensures window == Slide(old(window) + [seg], cutoff)
      ensures windowWh == SumWh(window)
    {
      ghost var pushed := window + [seg];
      SumWhAppend(window, [seg]);
      window := window + [seg];
      windowWh := windowWh + seg.wh;
      while window != [] && window[0].end <= cutoff
        invariant DropEnded(window, cutoff) == DropEnded(pushed, cutoff)
        invariant windowWh == SumWh(window)
        decreases |window|
      {
        windowWh := windowWh - window[0].wh;
        window := window[1..];
      }
      ghost var live := window;
      if window != [] {
        var front := window[0];
        if front.start < cutoff && front.end > cutoff {
          var overlap := front.end - cutoff;
          var keepWh := front.power * (overlap as real) / 3600000.0;
          assert keepWh == Energy(front.power, front.end - cutoff);
          windowWh := windowWh - front.wh;
          window := [Segment(cutoff, front.end, front.power, keepWh)] + window[1..];
          windowWh := windowWh + keepWh;
          assert window == [Clip(front, cutoff)] + live[1..];
        }
      }
    }

    /** `snapshot()`: the identity fields and `toFixed1` of the three statistics. */
    function Snapshot(): (r: RecorderSnapshot)
      reads this
      requires Valid()
      ensures r.id == id && r.name == name && r.gender == gender && r.startTs == startTs
      ensures Peak(history) - 0.05 < r.peakW <= Peak(history) + 0.05
      ensures Chained(history) ==> Best(history) - 0.05 < r.bestWh60 <= Best(history) + 0.05
      ensures TotalEnergy(history) - 0.05 < r.totalWh <= TotalEnergy(history) + 0.05
      ensures 0.0 <= r.bestWh60 <= r.totalWh
    {
      ToFixed1Monotone(0.0, bestWh60);
      ToFixed1Monotone(bestWh60, totalWh);
      RecorderSnapshot(id, name, gender, startTs, ToFixed1(peakW), ToFixed1(bestWh60), ToFixed1(totalWh))
    }
  }

  /**
   * The recorder's fields agree with its accepted samples `h`: the previous
   * sample, the peak and the total are functions of `h`; the window is well
   * formed, its sum is `windowWh`, its front lies after the cutoff of the
   * previous sample, `windowWh <= bestWh60 <= totalWh`; and when the samples
   * came in timestamp order, the window and the best are exactly those of `h`.
   */
  ghost predicate Consistent(h: seq<Sample>, lastTs: Option<int>, lastPower: real, peakW: real,
                             totalWh: real, window: seq<Segment>, windowWh: real, bestWh60: real)
  {
    && AllAccepted(h)
    && lastTs == LastTs(h)
    && lastPower == LastPower(h)
    && peakW == Peak(h)
    && totalWh == TotalEnergy(h)
    && AllWellFormed(window)
    && windowWh == SumWh(window)
    && (window != [] ==>
          && lastTs.Some?
          && window[0].start >= lastTs.value - WindowMs
          && window[0].end > lastTs.value - WindowMs)
    && 0.0 <= windowWh <= bestWh60 <= totalWh
    && (Chained(h) ==> window == WindowAt(h) && bestWh60 == Best(h))
  }

  lemma {:induction false} PeakStep(h: seq<Sample>, s: Sample)
    ensures Peak(h + [s]) == Max(Peak(h), s.power)
  {
    assert (h + [s])[..|h + [s]| - 1] == h;
  }

  lemma {:induction false} ChainedPrefix(h: seq<Sample>, s: Sample)
    requires Chained(h + [s])
    ensures Chained(h) && (h != [] ==> h[|h| - 1].ts <= s.ts)
  {
    var h' := h + [s];
    forall i | 0 < i < |h| ensures h[i - 1].ts <= h[i].ts {
      assert h'[i] == h[i] && h'[i - 1] == h[i - 1];
    }
    if h != [] {
      assert h'[|h| - 1] == h[|h| - 1] && h'[|h|] == s;
    }
  }

  /** A sample later than the previous one keeps the fields consistent with the longer history. */
  lemma {:induction false} IntervalStepConsistent(h: seq<Sample>, lastTs: Option<int>, lastPower: real, peakW: real,
                                                  totalWh: real, window: seq<Segment>, windowWh: real, bestWh60: real,
                                                  ts: int, power: real,
                                                  peakW': real, totalWh': real, window': seq<Segment>, windowWh': real, bestWh60': real)
    requires Consistent(h, lastTs, lastPower, peakW, totalWh, window, windowWh, bestWh60)
    requires Accepted(ts, power) && lastTs.Some? && ts > lastTs.value
    requires peakW' == Max(peakW, power)
    requires totalWh' == totalWh + Energy(lastPower, ts - lastTs.value)
    requires window' == Slide(window + [Segment(lastTs.value, ts, lastPower, Energy(lastPower, ts - lastTs.value))], ts - WindowMs)
    requires windowWh' == SumWh(window') && bestWh60' == Max(bestWh60, windowWh')
    ensures Consistent(h + [Sample(ts, power)], Some(ts), power, peakW', totalWh', window', windowWh', bestWh60')
  {
    var h' := h + [Sample(ts, power)];
    var seg := Segment(lastTs.value, ts, lastPower, Energy(lastPower, ts - lastTs.value));
    IntervalStepHistory(h, ts, power);
    assert AllAccepted(h') && LastTs(h') == Some(ts) && LastPower(h') == power;
    assert Peak(h') == peakW' && TotalEnergy(h') == totalWh' && seg.wh >= 0.0;
    IntervalStepWindow(window, seg, ts - WindowMs);
    assert AllWellFormed(window') && (window' != [] ==> window'[0].start >= ts - WindowMs && window'[0].end > ts - WindowMs);
    assert 0.0 <= windowWh' <= bestWh60' <= totalWh';
    if Chained(h') {
      IntervalStepChained(h, window, bestWh60, ts, power);
      assert window' == WindowAt(h') && bestWh60' == Best(h');
    }
  }

  /** The history functions after a sample later than the previous one. */
  lemma {:induction false} IntervalStepHistory(h: seq<Sample>, ts: int, power: real)
    requires AllAccepted(h) && LastTs(h).Some? && ts > LastTs(h).value && Accepted(ts, power)
    ensures var h' := h + [Sample(ts, power)];
            var seg := Segment(LastTs(h).value, ts, LastPower(h), Energy(LastPower(h), ts - LastTs(h).value));
            && AllAccepted(h') && LastTs(h') == Some(ts) && LastPower(h') == power
            && Peak(h') == Max(Peak(h), power)
            && Intervals(h') == Intervals(h) + [seg]
            && TotalEnergy(h') == TotalEnergy(h) + seg.wh
            && seg.wh >= 0.0
  {
    var s := Sample(ts, power);
    var h' := h + [s];
    var seg := Segment(LastTs(h).value, ts, LastPower(h), Energy(LastPower(h), ts - LastTs(h).value));
    assert h'[..|h'| - 1] == h;
    PeakStep(h, s);
    WindowAtStep(h, s);
    assert Step(h[|h| - 1], s) == [seg];
    SumWhAppend(Intervals(h), [seg]);
    EnergyNonNegative(LastPower(h), ts - LastTs(h).value);
    assert AllAccepted(h');
  }

  /** Pushing a well-formed interval and sliding keeps the window well formed, its sum non-negative and its front after the cutoff. */
  lemma {:induction false} IntervalStepWindow(window: seq<Segment>, seg: Segment, c: int)
    requires AllWellFormed(window) && WellFormed(seg)
    ensures var w' := Slide(window + [seg], c);
            && AllWellFormed(w')
            && SumWh(w') <= SumWh(window) + seg.wh
            && 0.0 <= SumWh(w')
            && (w' != [] ==> w'[0].start >= c && w'[0].end > c)
  {
    var pushed := window + [seg];
    SumWhAppend(window, [seg]);
    assert AllWellFormed(pushed);
    SlideProperties(pushed, c);
    SumWhNonNegative(Slide(pushed, c));
  }

  /** Under chained timestamps the slid window and the raised best are those of the longer history. */
  lemma {:induction false} IntervalStepChained(h: seq<Sample>, window: seq<Segment>, bestWh60: real, ts: int, power: real)
    requires Chained(h + [Sample(ts, power)]) && LastTs(h).Some? && ts > LastTs(h).value
    requires Chained(h) ==> window == WindowAt(h) && bestWh60 == Best(h)
    ensures var seg := Segment(LastTs(h).value, ts, LastPower(h), Energy(LastPower(h), ts - LastTs(h).value));
            var w' := Slide(window + [seg], ts - WindowMs);
            && w' == WindowAt(h + [Sample(ts, power)])
            && Max(bestWh60, SumWh(w')) == Best(h + [Sample(ts, power)])
  {
    var s := Sample(ts, power);
    var h' := h + [s];
    var seg := Segment(LastTs(h).value, ts, LastPower(h), Energy(LastPower(h), ts - LastTs(h).value));
    ChainedPrefix(h, s);
    WindowAtStep(h, s);
    assert Step(h[|h| - 1], s) == [seg];
    assert h'[..|h'| - 1] == h;
    assert Best(h') == Max(Best(h), WindowEnergy(h'));
  }

  /** The first sample, or one not later than the previous, keeps the window and the totals. */
  lemma {:induction false} NoStepConsistent(h: seq<Sample>, lastTs: Option<int>, lastPower: real, peakW: real,
                                            totalWh: real, window: seq<Segment>, windowWh: real, bestWh60: real,
                                            ts: int, power: real, peakW': real)
    requires Consistent(h, lastTs, lastPower, peakW, totalWh, window, windowWh, bestWh60)
    requires Accepted(ts, power) && !(lastTs.Some? && ts > lastTs.value)
    requires peakW' == Max(peakW, power)
    ensures Consistent(h + [Sample(ts, power)], Some(ts), power, peakW', totalWh, window, windowWh, bestWh60)
  {
    var s := Sample(ts, power);
    var h' := h + [s];
    assert h'[..|h'| - 1] == h;
    PeakStep(h, s);
    IntervalsNoStep(h, s);
    assert AllAccepted(h');
    if window != [] {
      assert ts <= lastTs.value;
    }
    if Chained(h') {
      ChainedPrefix(h, s);
      if h != [] {
        assert ts == h[|h| - 1].ts;
        assert WindowAt(h') == WindowAt(h);
      }
    }
  }
}
