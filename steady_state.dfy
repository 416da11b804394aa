/** The steady-state detector for one process execution
    (warmup/summary_statistics.py, lines 53-83): a tolerance band around the
    last segment mean, a backward walk that absorbs segments while they lie in
    the band, the mean of the absorbed segments, the changepoint at which the
    steady state begins and the wallclock time spent before it. */
module SteadyState {
  import opened Wrappers
  import opened Numeric

  /** One process execution of a benchmark key, as the input JSON stores it.
      Changepoints and outliers are iteration indices. */
  datatype ProcessExecution = ProcessExecution(
    wallclockTimes: seq<real>,
    changepoints: seq<nat>,
    segmentMeans: seq<real>,
    outliers: seq<nat>,
    classification: string)

  /** The closed interval [lower, upper]. */
  datatype Band = Band(lower: real, upper: real)
  {
    predicate Contains(x: real)
    {
      lower <= x <= upper
    }
  }

  function Min(a: real, b: real): real { if a <= b then a else b }
  function Max(a: real, b: real): real { if a >= b then a else b }

  /** The tolerance band around the last segment mean: the hull of the
      relative band (half_bound) and the absolute band (delta). */
  function ToleranceBand(last: real, halfBound: real, delta: real): (b: Band)
    ensures forall x :: last - delta <= x <= last + delta ==> b.Contains(x)
    ensures forall x :: last * (1.0 - halfBound) <= x <= last * (1.0 + halfBound) ==> b.Contains(x)
    ensures b.lower == last - delta || b.lower == last * (1.0 - halfBound)
    ensures b.upper == last + delta || b.upper == last * (1.0 + halfBound)
    ensures delta >= 0.0 ==> b.Contains(last)
  {
    Band(Min(last * (1.0 - halfBound), last - delta), Max(last * (1.0 + halfBound), last + delta))
  }

  /** Where the backward walk stops when it is at segment i: segments i-1,
      i-2, ... are absorbed while they lie in the band, and the walk stops at
      the first one that does not. */
  function WalkBack(s: seq<real>, band: Band, i: nat): (f: nat)
    requires i < |s|
    ensures f <= i
    ensures forall j :: f <= j < i ==> band.Contains(s[j])
    ensures f > 0 ==> !band.Contains(s[f - 1])
  {
    if i == 0 || !band.Contains(s[i - 1]) then i else WalkBack(s, band, i - 1)
  }

  /** The band an execution's walk uses. */
  function BandOf(segmentMeans: seq<real>, halfBound: real, delta: real): Band
    requires |segmentMeans| >= 1
  {
    ToleranceBand(segmentMeans[|segmentMeans| - 1], halfBound, delta)
  }

  /** first_steady_segment: the index of the first steady-state segment. */
  function SteadyStart(segmentMeans: seq<real>, halfBound: real, delta: real): nat
    requires |segmentMeans| >= 1
  {
    WalkBack(segmentMeans, BandOf(segmentMeans, halfBound, delta), |segmentMeans| - 1)
  }

  /** The steady region is the longest run of trailing segments whose means,
      the last one apart, lie in the band: any index with that property is
      SteadyStart. */
  lemma SteadyStartUnique(segmentMeans: seq<real>, halfBound: real, delta: real, f: nat)
    requires |segmentMeans| >= 1 && f < |segmentMeans|
    requires forall j :: f <= j < |segmentMeans| - 1 ==> BandOf(segmentMeans, halfBound, delta).Contains(segmentMeans[j])
    requires f > 0 ==> !BandOf(segmentMeans, halfBound, delta).Contains(segmentMeans[f - 1])
    ensures f == SteadyStart(segmentMeans, halfBound, delta)
  {
  }

  /** Lines 58-69: the backward walk over the segment means. */
  method FindSteadyState(segmentMeans: seq<real>, halfBound: real, delta: real)
    returns (firstSteady: nat, numSteady: nat)
    requires |segmentMeans| >= 1
    ensures firstSteady == SteadyStart(segmentMeans, halfBound, delta)
    ensures numSteady >= 1 && firstSteady + numSteady == |segmentMeans|
  {
    firstSteady := |segmentMeans| - 1;
    numSteady := 1;
    var lastSegmentMean := segmentMeans[|segmentMeans| - 1];
    var band := ToleranceBand(lastSegmentMean, halfBound, delta);
    var index := |segmentMeans| - 2;
    while index >= 0
      invariant index == firstSteady - 1
      invariant firstSteady + numSteady == |segmentMeans|
      invariant WalkBack(segmentMeans, band, firstSteady) == WalkBack(segmentMeans, band, |segmentMeans| - 1)
    {
      if band.Contains(segmentMeans[index]) {
        firstSteady := firstSteady - 1;
        numSteady := numSteady + 1;
      } else {
        break;
      }
      index := index - 1;
    }
  }

  /** Every steady segment, the last one included, lies in the band when the
      absolute tolerance is not negative. */
  lemma SteadyRegionInBand(segmentMeans: seq<real>, halfBound: real, delta: real)
    requires |segmentMeans| >= 1 && delta >= 0.0
    ensures forall j :: SteadyStart(segmentMeans, halfBound, delta) <= j < |segmentMeans| ==>
      BandOf(segmentMeans, halfBound, delta).Contains(segmentMeans[j])
  {
  }

  /** When every segment mean lies in the band, all segments are steady. */
  lemma {:induction false} AllInBandAllSteady(s: seq<real>, band: Band, i: nat)
    requires i < |s|
    requires forall j :: 0 <= j < i ==> band.Contains(s[j])
    ensures WalkBack(s, band, i) == 0
  {
    if i > 0 {
      AllInBandAllSteady(s, band, i - 1);
    }
  }

  /** The steady-state mean: math.fsum of the steady segment means divided by
      their number (lines 70-71). */
  function SteadyMean(segmentMeans: seq<real>, firstSteady: nat): real
    requires firstSteady < |segmentMeans|
  {
    Sum(segmentMeans[firstSteady..]) / ((|segmentMeans| - firstSteady) as real)
  }

  /** The steady-state mean lies in the band, being an average of values in
      it, whenever the absolute tolerance is not negative. */
  lemma SteadyMeanInBand(segmentMeans: seq<real>, halfBound: real, delta: real)
    requires |segmentMeans| >= 1
    ensures delta >= 0.0 ==>
      BandOf(segmentMeans, halfBound, delta).Contains(SteadyMean(segmentMeans, SteadyStart(segmentMeans, halfBound, delta)))
  {
    if delta >= 0.0 {
      var band := BandOf(segmentMeans, halfBound, delta);
      var first := SteadyStart(segmentMeans, halfBound, delta);
      SteadyRegionInBand(segmentMeans, halfBound, delta);
      MeanWithin(segmentMeans[first..], band.lower, band.upper);
    }
  }

  /** Python's s[i] for -|s| <= i < |s|: a negative index counts from the end. */
  function PyIndex<T>(s: seq<T>, i: int): T
    requires -|s| <= i < |s|
  {
    if i < 0 then s[|s| + i] else s[i]
  }

  /** steady_iter = changepoints[first_steady_segment - 1] (line 76): the
      changepoint that opens the first steady segment, except that when every
      segment was absorbed the index is -1 and the LAST changepoint is taken. */
  function SteadyIteration(changepoints: seq<nat>, firstSteady: nat): (k: nat)
    requires 1 <= |changepoints| && firstSteady <= |changepoints|
    ensures firstSteady > 0 ==> k == changepoints[firstSteady - 1]
    ensures firstSteady == 0 ==> k == changepoints[|changepoints| - 1]
  {
    PyIndex(changepoints, firstSteady - 1)
  }

  /** Lines 78-81: the wallclock time spent in the iterations before the
      steady state. */
  method TimeToSteady(wallclockTimes: seq<real>, steadyIter: nat) returns (toSteady: real)
    requires steadyIter <= |wallclockTimes|
    ensures toSteady == Sum(wallclockTimes[..steadyIter])
  {
    toSteady := 0.0;
    var index := 0;
    while index < steadyIter
      invariant index <= steadyIter
      invariant toSteady == Sum(wallclockTimes[..index])
    {
      assert wallclockTimes[..index + 1][..index] == wallclockTimes[..index];
      toSteady := toSteady + wallclockTimes[index];
      index := index + 1;
    }
  }

  /** The time before the steady state and the time after it make up the
      whole run; with non-negative iteration times it is at most the whole. */
  lemma TimeToSteadyWithinRun(wallclockTimes: seq<real>, steadyIter: nat)
    requires steadyIter <= |wallclockTimes|
    requires forall i :: 0 <= i < |wallclockTimes| ==> wallclockTimes[i] >= 0.0
    ensures Sum(wallclockTimes[..steadyIter]) + Sum(wallclockTimes[steadyIter..]) == Sum(wallclockTimes)
    ensures 0.0 <= Sum(wallclockTimes[..steadyIter]) <= Sum(wallclockTimes)
  {
    assert wallclockTimes == wallclockTimes[..steadyIter] + wallclockTimes[steadyIter..];
    SumConcat(wallclockTimes[..steadyIter], wallclockTimes[steadyIter..]);
    SumNonNegative(wallclockTimes[..steadyIter]);
    SumNonNegative(wallclockTimes[steadyIter..]);
  }

  /** What the detector reports for one execution. */
  datatype ExecutionAnalysis = ExecutionAnalysis(steadyMean: real, steadyIter: Option<nat>, timeToSteady: real)

  /** What the model assumes of the changepoint analysis's output: one more
      segment mean than changepoints (so there is a last mean for line 60),
      and enough wallclock times for the steady iteration that line 80
      indexes. The source checks neither. */
  predicate ExecutionWellFormed(e: ProcessExecution, halfBound: real, delta: real)
  {
    && |e.segmentMeans| == |e.changepoints| + 1
    && (e.changepoints != [] ==>
          SteadyIteration(e.changepoints, SteadyStart(e.segmentMeans, halfBound, delta)) <= |e.wallclockTimes|)
  }

  /** The detector's result for one execution, as a function of the execution. */
  function Analyse(e: ProcessExecution, halfBound: real, delta: real): (a: ExecutionAnalysis)
    requires ExecutionWellFormed(e, halfBound, delta)
    ensures e.changepoints == [] <==> a.steadyIter == None
    ensures e.changepoints == [] ==> a.timeToSteady == 0.0 && a.steadyMean == e.segmentMeans[0]
    ensures a.steadyIter.Some? ==> a.steadyIter.value <= |e.wallclockTimes|
    ensures delta >= 0.0 ==> BandOf(e.segmentMeans, halfBound, delta).Contains(a.steadyMean)
  {
    var first := SteadyStart(e.segmentMeans, halfBound, delta);
    var mean := SteadyMean(e.segmentMeans, first);
    SteadyMeanInBand(e.segmentMeans, halfBound, delta);
    if e.changepoints == [] then
      assert e.segmentMeans[first..] == [e.segmentMeans[0]];
      assert Sum([e.segmentMeans[0]]) == Sum([]) + e.segmentMeans[0];
      ExecutionAnalysis(mean, None, 0.0)
    else
      var k := SteadyIteration(e.changepoints, first);
      ExecutionAnalysis(mean, Some(k), Sum(e.wallclockTimes[..k]))
  }

  /** Lines 58-83 for one process execution. */
  method AnalyseExecution(e: ProcessExecution, halfBound: real, delta: real) returns (a: ExecutionAnalysis)
    requires ExecutionWellFormed(e, halfBound, delta)
    ensures a == Analyse(e, halfBound, delta)
  {
    var firstSteady, numSteady := FindSteadyState(e.segmentMeans, halfBound, delta);
    var steadyStateMean := Sum(e.segmentMeans[firstSteady..]) / (numSteady as real);
    if e.changepoints != [] {
      var steadyIter := PyIndex(e.changepoints, firstSteady as int - 1);
      var toSteady := TimeToSteady(e.wallclockTimes, steadyIter);
      a := ExecutionAnalysis(steadyStateMean, Some(steadyIter), toSteady);
    } else {
      a := ExecutionAnalysis(steadyStateMean, None, 0.0);
    }
  }

  /** The worked example: means [10.0, 10.2, 9.9, 5.0] with half_bound 0.05
      and delta 0.1 give the band [4.75, 5.25]; 9.9 lies outside it, so the
      steady region is the last segment alone and its mean is 5.0. */
  lemma ExampleLastSegmentAlone()
    ensures BandOf([10.0, 10.2, 9.9, 5.0], 0.05, 0.1) == Band(4.75, 5.25)
    ensures SteadyStart([10.0, 10.2, 9.9, 5.0], 0.05, 0.1) == 3
    ensures SteadyMean([10.0, 10.2, 9.9, 5.0], 3) == 5.0
  {
    var s := [10.0, 10.2, 9.9, 5.0];
    assert s[3..] == [5.0];
  }
}
