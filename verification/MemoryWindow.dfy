/**
 * The sample window and the diagnostics loops of api/src/memoryMonitor.ts. Times are milliseconds
 * and sizes bytes, both as integers; percentages are exact reals.
 */
module MemoryWindow {
  import opened Prelude

  datatype Sample = Sample(atMs: int, rss: int, heapUsed: int)

  const SHORT_WINDOW_MS: int := 30_000
  const LONG_WINDOW_MS: int := 10 * 60 * 1_000

  predicate InOrder(samples: seq<Sample>) {
    forall i, j :: 0 <= i <= j < |samples| ==> samples[i].atMs <= samples[j].atMs
  }

  /** The filter that `computeMemoryDiagnostics` applies for its ten-minute averages. */
  function Recent(nowMs: int): Sample -> bool {
    (sample: Sample) => nowMs - sample.atMs <= LONG_WINDOW_MS
  }

  /** What the shifting loop leaves. */
  function DropOld(samples: seq<Sample>, cutoff: int): seq<Sample> {
    if |samples| > 1 && samples[0].atMs < cutoff then DropOld(samples[1..], cutoff) else samples
  }

  /** Every sample after a recent one is recent. */
  predicate RecentLast(samples: seq<Sample>, nowMs: int) {
    forall i, j :: 0 <= i < j < |samples| && Recent(nowMs)(samples[i]) ==> Recent(nowMs)(samples[j])
  }

  /** What shifting drops was not recent. */
  lemma {:induction false} DropIsSuffix(samples: seq<Sample>, nowMs: int) returns (k: nat)
    ensures k <= |samples| && DropOld(samples, nowMs - LONG_WINDOW_MS) == samples[k..]
    ensures forall i :: 0 <= i < k ==> !Recent(nowMs)(samples[i])
    ensures samples != [] ==> k < |samples|
    ensures k < |samples| - 1 ==> Recent(nowMs)(samples[k])
  {
    if |samples| > 1 && samples[0].atMs < nowMs - LONG_WINDOW_MS {
      var j := DropIsSuffix(samples[1..], nowMs);
      k := j + 1;
    } else {
      k := 0;
    }
  }

  /**
   * Shifting from the front until one sample is recent leaves exactly the recent samples if and only if
   * every sample after a recent one is recent.
   */
  lemma DropExact(samples: seq<Sample>, nowMs: int)
    requires samples != [] && samples[|samples| - 1].atMs == nowMs
    ensures DropOld(samples, nowMs - LONG_WINDOW_MS) == Filter(Recent(nowMs), samples) <==> RecentLast(samples, nowMs)
  {
    hide Filter, DropOld, Recent, RecentLast;
    var k := DropIsSuffix(samples, nowMs);
    assert samples == samples[..k] + samples[k..];
    FilterAppend(Recent(nowMs), samples[..k], samples[k..]);
    FilterNone(Recent(nowMs), samples[..k]);
    LastIsRecent(samples, nowMs);
    if RecentLast(samples, nowMs) {
      SuffixIsRecent(samples, nowMs, k);
      FilterAll(Recent(nowMs), samples[k..]);
    }
    if samples[k..] == Filter(Recent(nowMs), samples) {
      FilterElements(Recent(nowMs), samples);
      OnlySuffixIsRecent(samples, nowMs, k);
    }
  }

  lemma LastIsRecent(samples: seq<Sample>, nowMs: int)
    requires samples != [] && samples[|samples| - 1].atMs == nowMs
    ensures Recent(nowMs)(samples[|samples| - 1])
  {
  }

  lemma SuffixIsRecent(samples: seq<Sample>, nowMs: int, k: nat)
    requires k < |samples| && RecentLast(samples, nowMs) && Recent(nowMs)(samples[k])
    ensures forall i :: 0 <= i < |samples[k..]| ==> Recent(nowMs)(samples[k..][i])
  {
    forall i | 0 <= i < |samples[k..]|
      ensures Recent(nowMs)(samples[k..][i])
    {
      assert samples[k..][i] == samples[k + i];
    }
  }

  lemma OnlySuffixIsRecent(samples: seq<Sample>, nowMs: int, k: nat)
    requires k <= |samples|
    requires forall i :: 0 <= i < |samples[k..]| ==> Recent(nowMs)(samples[k..][i])
    requires forall i :: 0 <= i < k ==> !Recent(nowMs)(samples[i])
    ensures RecentLast(samples, nowMs)
  {
    forall i, j | 0 <= i < j < |samples| && Recent(nowMs)(samples[i])
      ensures Recent(nowMs)(samples[j])
    {
      assert samples[k..][j - k] == samples[j];
    }
  }

  /** Times that never go back satisfy the condition. */
  lemma InOrderIsRecentLast(samples: seq<Sample>, nowMs: int)
    requires InOrder(samples)
    ensures RecentLast(samples, nowMs)
  {
  }

  /** The part of the history within ten minutes of its newest sample. */
  function Window(history: seq<Sample>): seq<Sample> {
    if history == [] then [] else Filter(Recent(history[|history| - 1].atMs), history)
  }

  /**
   * What one more sample needs for the buffer to stay the window: in the buffer every sample after a
   * recent one is recent, and no sample that had left the window is recent again.
   */
  predicate KeepsWindow(history: seq<Sample>, sample: Sample) {
    && RecentLast(Window(history) + [sample], sample.atMs)
    && forall i :: 0 <= i < |history| && Recent(sample.atMs)(history[i]) ==> Recent(history[|history| - 1].atMs)(history[i])
  }

  class MemoryMonitor {
    var samples: seq<Sample>
    /** Every sample ever recorded. */
    ghost var history: seq<Sample>

    /** The buffer is exactly the part of the history within ten minutes of the newest sample. */
    ghost predicate Valid()
      reads this
    {
      samples == Window(history)
    }

    constructor ()
      ensures Valid() && history == []
    {
      samples, history := [], [];
    }

    /**
     * The buffer then holds exactly the recent ones of the samples it held and the new one, if and only
     * if every one after a recent one is recent; and it stays the window if and only if the new sample
     * keeps it. A clock that never goes back always does.
     */
    method Record(sample: Sample)
      modifies this
      ensures history == old(history) + [sample]
      ensures samples == DropOld(old(samples) + [sample], sample.atMs - LONG_WINDOW_MS)
      ensures samples == Filter(Recent(sample.atMs), old(samples) + [sample]) <==> RecentLast(old(samples) + [sample], sample.atMs)
      ensures old(Valid()) ==> (Valid() <==> KeepsWindow(old(history), sample))
      ensures old(Valid()) && InOrder(history) ==> Valid()
    {
      ghost var pushed := samples + [sample];
      samples := samples + [sample];
      var cutoff := sample.atMs - LONG_WINDOW_MS;
      while |samples| > 1 && samples[0].atMs < cutoff
        invariant history == old(history) && samples != [] && DropOld(samples, cutoff) == DropOld(pushed, cutoff)
      {
        samples := samples[1..];
      }
      history := history + [sample];
      DropExact(pushed, sample.atMs);
      if old(Valid()) {
        WindowMovesExactly(old(history), sample);
        if InOrder(history) {
          InOrderKeepsWindow(old(history), sample);
        }
      }
    }

    /** So the ten-minute filter of the diagnostics removes nothing. */
    lemma FilterIsIdle()
      requires Valid() && samples != []
      ensures history != [] && samples[|samples| - 1] == history[|history| - 1]
      ensures Filter(Recent(samples[|samples| - 1].atMs), samples) == samples
    {
      hide Filter;
      var n := |history|;
      assert history != [];
      var last := history[n - 1];
      FilterAppend(Recent(last.atMs), history[..n - 1], [last]);
      FilterAll(Recent(last.atMs), [last]);
      assert history == history[..n - 1] + [last];
      FilterElements(Recent(last.atMs), history);
      FilterAll(Recent(last.atMs), samples);
    }
  }

  /** Exactly when one more sample, pushed and trimmed, makes the old window the new one. */
  lemma WindowMovesExactly(history: seq<Sample>, sample: Sample)
    ensures DropOld(Window(history) + [sample], sample.atMs - LONG_WINDOW_MS) == Window(history + [sample])
       <==> KeepsWindow(history, sample)
  {
    hide DropOld;
    var recent, before := Recent(sample.atMs), Window(history);
    var pushed, all := before + [sample], history + [sample];
    DropExact(pushed, sample.atMs);
    FilterAppend(recent, before, [sample]);
    FilterAppend(recent, history, [sample]);
    assert Window(all) == Filter(recent, history) + Filter(recent, [sample]);
    if history != [] {
      RefilterExact(Recent(history[|history| - 1].atMs), recent, history);
    }
    var k := DropIsSuffix(pushed, sample.atMs);
    FilterElements(recent, all);
    Trimmed(pushed, k, sample, Window(all));
  }

  /** Filtering what a first filter left loses nothing if and only if the first dropped nothing the second wants. */
  lemma {:induction false} RefilterExact<T>(p: T -> bool, q: T -> bool, s: seq<T>)
    ensures |Filter(q, Filter(p, s))| <= |Filter(q, s)|
    ensures Filter(q, Filter(p, s)) == Filter(q, s) <==> |Filter(q, Filter(p, s))| == |Filter(q, s)|
    ensures Filter(q, Filter(p, s)) == Filter(q, s) <==> forall i :: 0 <= i < |s| && q(s[i]) ==> p(s[i])
  {
    if s != [] {
      RefilterExact(p, q, s[1..]);
      FilterAppend(q, if p(s[0]) then [s[0]] else [], Filter(p, s[1..]));
      assert (forall i :: 0 <= i < |s| && q(s[i]) ==> p(s[i]))
        <==> (q(s[0]) ==> p(s[0])) && forall i :: 0 <= i < |s[1..]| && q(s[1..][i]) ==> p(s[1..][i]);
      if forall i :: 0 <= i < |s| && q(s[i]) ==> p(s[i]) {
        FilterAbsorb(p, q, s);
      }
    }
  }

  /** A trimmed buffer that equals a list of recent samples consists of recent samples. */
  lemma Trimmed(pushed: seq<Sample>, k: nat, sample: Sample, target: seq<Sample>)
    requires k <= |pushed|
    requires forall i :: 0 <= i < |target| ==> Recent(sample.atMs)(target[i])
    requires forall i :: 0 <= i < k ==> !Recent(sample.atMs)(pushed[i])
    ensures pushed[k..] == target ==> pushed[k..] == Filter(Recent(sample.atMs), pushed)
  {
    if pushed[k..] == target {
      assert pushed == pushed[..k] + pushed[k..];
      FilterAppend(Recent(sample.atMs), pushed[..k], pushed[k..]);
      FilterNone(Recent(sample.atMs), pushed[..k]);
      FilterAll(Recent(sample.atMs), pushed[k..]);
    }
  }

  lemma InOrderKeepsWindow(history: seq<Sample>, sample: Sample)
    requires InOrder(history + [sample])
    ensures KeepsWindow(history, sample)
  {
    var all := history + [sample];
    assert all[|history|] == sample;
    assert forall i :: 0 <= i < |history| ==> all[i] == history[i];
    var pushed := Window(history) + [sample];
    if history != [] {
      assert all[|history| - 1].atMs <= all[|history|].atMs;
      FilterInOrder(Recent(history[|history| - 1].atMs), history, sample);
      InOrderIsRecentLast(pushed, sample.atMs);
    }
  }

  lemma {:induction false} FilterInOrder(keep: Sample -> bool, history: seq<Sample>, sample: Sample)
    requires InOrder(history + [sample])
    ensures InOrder(Filter(keep, history) + [sample])
  {
    hide Filter;
    var pushed := Filter(keep, history) + [sample];
    var origins := FilterOrigins(keep, history);
    var places := origins + [|history|];
    forall i, j | 0 <= i <= j < |pushed|
      ensures pushed[i].atMs <= pushed[j].atMs
    {
      assert pushed[i] == (history + [sample])[places[i]] && pushed[j] == (history + [sample])[places[j]];
    }
  }

  /** After the clock has stepped back by more than the window allows, a recorded sample does not keep it: the buffer holds an old one. */
  lemma SteppedClockKeepsOld()
    ensures var s := [Sample(100, 0, 0), Sample(0, 0, 0), Sample(LONG_WINDOW_MS + 50, 0, 0)];
            && Window(s[..2]) == s[..2] && !KeepsWindow(s[..2], s[2])
            && DropOld(s, s[2].atMs - LONG_WINDOW_MS) == s && Window(s) == [s[0], s[2]]
  {
    var s := [Sample(100, 0, 0), Sample(0, 0, 0), Sample(LONG_WINDOW_MS + 50, 0, 0)];
    FilterAll(Recent(0), s[..2]);
    assert s[..2] + [s[2]] == s && s == [s[0]] + ([s[1]] + [s[2]]);
    assert Recent(s[2].atMs)(s[0]) && !Recent(s[2].atMs)(s[1]);
    FilterAppend(Recent(s[2].atMs), [s[0]], [s[1]] + [s[2]]);
    FilterAppend(Recent(s[2].atMs), [s[1]], [s[2]]);
    assert ([s[0], s[1]] + [s[2]])[0] == s[0];
  }

  // ----- diagnostics

  /** `findSampleAtOrBefore`: the latest sample at or before the time, else the oldest. */
  method FindSampleAtOrBefore(samples: seq<Sample>, atMs: int) returns (found: Option<Sample>)
    ensures found.None? <==> samples == []
    ensures (exists i :: 0 <= i < |samples| && samples[i].atMs <= atMs) ==>
      exists k :: 0 <= k < |samples| && found == Some(samples[k]) && samples[k].atMs <= atMs
                  && forall i :: k < i < |samples| ==> samples[i].atMs > atMs
    ensures samples != [] && (forall i :: 0 <= i < |samples| ==> samples[i].atMs > atMs) ==> found == Some(samples[0])
  {
    var i := |samples| - 1;
    while i >= 0
      invariant -1 <= i < |samples|
      invariant forall j :: i < j < |samples| ==> samples[j].atMs > atMs
    {
      if samples[i].atMs <= atMs {
        return Some(samples[i]);
      }
      i := i - 1;
    }
    return if samples == [] then None else Some(samples[0]);
  }

  /** `samples[p]` is the latest of the largest. */
  predicate LatestPeak(samples: seq<Sample>, size: Sample -> int, p: nat) {
    && p < |samples|
    && (forall i :: 0 <= i < |samples| ==> size(samples[i]) <= size(samples[p]))
    && (forall i :: p < i < |samples| ==> size(samples[i]) < size(samples[p]))
  }

  method Peaks(samples: seq<Sample>) returns (peakHeap: Sample, peakRss: Sample)
    requires samples != []
    ensures exists p: nat :: LatestPeak(samples, (s: Sample) => s.heapUsed, p) && samples[p] == peakHeap
    ensures exists p: nat :: LatestPeak(samples, (s: Sample) => s.rss, p) && samples[p] == peakRss
  {
    peakHeap, peakRss := samples[0], samples[0];
    ghost var p, q := 0, 0;
    for i := 0 to |samples|
      invariant 0 <= p < |samples| && 0 <= q < |samples| && samples[p] == peakHeap && samples[q] == peakRss
      invariant if i == 0 then p == 0 && q == 0 else p < i && q < i
      invariant forall j :: 0 <= j < i ==> samples[j].heapUsed <= peakHeap.heapUsed && samples[j].rss <= peakRss.rss
      invariant forall j :: p < j < i ==> samples[j].heapUsed < peakHeap.heapUsed
      invariant forall j :: q < j < i ==> samples[j].rss < peakRss.rss
    {
      if samples[i].heapUsed >= peakHeap.heapUsed {
        peakHeap, p := samples[i], i;
      }
      if samples[i].rss >= peakRss.rss {
        peakRss, q := samples[i], i;
      }
    }
    assert LatestPeak(samples, (s: Sample) => s.heapUsed, p);
    assert LatestPeak(samples, (s: Sample) => s.rss, q);
  }

  /** `Math.max(1, Math.round(ms / 1000))`; halves round up. */
  function StepS(older: Sample, newer: Sample): (s: int)
    ensures s >= 1 && newer.atMs - older.atMs < 1000 * s + 500
    ensures s > 1 ==> 1000 * s - 500 <= newer.atMs - older.atMs
  {
    Max(1, (newer.atMs - older.atMs + 500) / 1000)
  }

  /** The seconds from sample k to the last one. */
  function Span(samples: seq<Sample>, k: nat): int
    requires k < |samples|
    decreases |samples| - k
  {
    if k == |samples| - 1 then 0 else StepS(samples[k], samples[k + 1]) + Span(samples, k + 1)
  }

  /** The longest strictly growing run that ends at the last sample starts at k. */
  predicate GrowsFrom(samples: seq<Sample>, size: Sample -> int, k: nat) {
    && k < |samples|
    && (forall i :: k < i < |samples| ==> size(samples[i]) > size(samples[i - 1]))
    && (k > 0 ==> size(samples[k]) <= size(samples[k - 1]))
  }

  /** There is only one such k, so the streak is determined. */
  lemma OneGrowStart(samples: seq<Sample>, size: Sample -> int, k: nat, j: nat)
    requires GrowsFrom(samples, size, k) && GrowsFrom(samples, size, j)
    ensures k == j
  {
  }

  method GrowStreak(samples: seq<Sample>, size: Sample -> int) returns (streakS: int)
    requires samples != []
    ensures exists k: nat :: GrowsFrom(samples, size, k) && streakS == Span(samples, k)
    ensures forall k: nat :: GrowsFrom(samples, size, k) ==> streakS == Span(samples, k)
  {
    streakS := 0;
    var i := |samples| - 1;
    while i > 0
      invariant 0 <= i < |samples| && streakS == Span(samples, i)
      invariant forall j :: i < j < |samples| ==> size(samples[j]) > size(samples[j - 1])
    {
      var newer, older := samples[i], samples[i - 1];
      var stepS := StepS(older, newer);
      if size(newer) > size(older) {
        streakS := streakS + stepS;
      } else {
        break;
      }
      i := i - 1;
    }
    assert GrowsFrom(samples, size, i);
    forall k: nat | GrowsFrom(samples, size, k)
      ensures k == i
    {
      OneGrowStart(samples, size, k, i);
    }
  }

  datatype Trend = Growing | Stable | Declining | Warming

  function PctChange(current: int, baseline: int): Option<real> {
    if baseline <= 0 then None else Some((current - baseline) as real / baseline as real * 100.0)
  }

  lemma PctAtLeast(change: int, baseline: int, pct: int)
    requires baseline > 0
    ensures change as real / baseline as real * 100.0 >= pct as real <==> 100 * change >= pct * baseline
    ensures change as real / baseline as real * 100.0 <= pct as real <==> 100 * change <= pct * baseline
  {
    var ratio := change as real / baseline as real;
    assert ratio * baseline as real == change as real;
    assert (ratio * 100.0) * baseline as real == (100 * change) as real;
    assert (pct * baseline) as real == pct as real * baseline as real;
  }

  /**
   * The trend over the last 30 seconds, without division: growing by at least one percent of an
   * earlier positive heap size, shrinking by at least one percent, or neither.
   */
  method HeapTrend(samples: seq<Sample>) returns (trend: Trend, shortWindowMs: int, ghost past: Sample)
    requires samples != []
    ensures var current, spanMs := samples[|samples| - 1], samples[|samples| - 1].atMs - samples[0].atMs;
            && past in samples
            && (trend == Warming <==> spanMs < SHORT_WINDOW_MS || past.heapUsed <= 0)
            && (trend == Growing <==> spanMs >= SHORT_WINDOW_MS && past.heapUsed > 0
                                      && 100 * (current.heapUsed - past.heapUsed) >= past.heapUsed)
            && (trend == Declining <==> spanMs >= SHORT_WINDOW_MS && past.heapUsed > 0
                                        && 100 * (current.heapUsed - past.heapUsed) <= -past.heapUsed)
    ensures samples[|samples| - 1].atMs - samples[0].atMs < SHORT_WINDOW_MS ==> trend == Warming && shortWindowMs == 0
    ensures samples[|samples| - 1].atMs - samples[0].atMs >= SHORT_WINDOW_MS ==>
              shortWindowMs == samples[|samples| - 1].atMs - past.atMs >= SHORT_WINDOW_MS
    ensures InOrder(samples) && samples[|samples| - 1].atMs - samples[0].atMs >= SHORT_WINDOW_MS ==>
              forall i :: 0 <= i < |samples| && past.atMs < samples[i].atMs ==>
                samples[i].atMs > samples[|samples| - 1].atMs - SHORT_WINDOW_MS
  {
    var current, first := samples[|samples| - 1], samples[0];
    var spanMs := current.atMs - first.atMs;
    trend, shortWindowMs, past := Warming, 0, first;
    if spanMs >= SHORT_WINDOW_MS {
      var found := FindSampleAtOrBefore(samples, current.atMs - SHORT_WINDOW_MS);
      past := found.value;
      shortWindowMs := current.atMs - found.value.atMs;
      var pct := PctChange(current.heapUsed, found.value.heapUsed);
      if pct.Some? {
        PctAtLeast(current.heapUsed - past.heapUsed, past.heapUsed, 1);
        PctAtLeast(current.heapUsed - past.heapUsed, past.heapUsed, -1);
        if pct.value >= 1.0 {
          trend := Growing;
        } else if pct.value <= -1.0 {
          trend := Declining;
        } else {
          trend := Stable;
        }
      }
    }
  }
}
