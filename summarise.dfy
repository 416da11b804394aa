/** Per-benchmark aggregation and the corpus driver
    (collect_summary_statistics, warmup/summary_statistics.py lines 19-131). */
module Summarise {
  import opened Wrappers
  import opened Numeric
  import opened Text
  import opened Tally
  import opened SteadyState

  const Flat := "flat"
  const Warmup := "warmup"
  const Slowdown := "slowdown"
  const NoSteadyState := "no steady state"
  const GoodInconsistent := "good inconsistent"
  const BadInconsistent := "bad inconsistent"

  /** The labels every count table carries, seen or not. */
  const DefaultLabels: seq<string> := [Flat, Warmup, Slowdown, NoSteadyState]

  /** set(categories) */
  function LabelSet(cats: seq<string>): set<string>
  {
    set c | c in cats
  }

  lemma SingleLabel(cats: seq<string>)
    requires |cats| >= 1
    ensures |LabelSet(cats)| == 1 <==> forall i :: 0 <= i < |cats| ==> cats[i] == cats[0]
  {
    var labels := LabelSet(cats);
    if forall i :: 0 <= i < |cats| ==> cats[i] == cats[0] {
      assert labels == {cats[0]};
    } else {
      var i :| 0 <= i < |cats| && cats[i] != cats[0];
      var pair := {cats[0], cats[i]};
      assert labels == pair + (labels - pair);
      assert |pair| == 2;
    }
  }

  lemma FlatWarmupPair(cats: seq<string>)
    requires exists i :: 0 <= i < |cats| && cats[i] != cats[0]
    ensures LabelSet(cats) == {Flat, Warmup} <==> forall i :: 0 <= i < |cats| ==> cats[i] == Flat || cats[i] == Warmup
  {
    var i :| 0 <= i < |cats| && cats[i] != cats[0];
    if forall j :: 0 <= j < |cats| ==> cats[j] == Flat || cats[j] == Warmup {
      assert Flat in LabelSet(cats) && Warmup in LabelSet(cats) by {
        if cats[0] == Flat { assert cats[i] == Warmup; } else { assert cats[i] == Flat; }
      }
    }
    if LabelSet(cats) == {Flat, Warmup} {
      forall j | 0 <= j < |cats| ensures cats[j] == Flat || cats[j] == Warmup {
        assert cats[j] in LabelSet(cats);
      }
    }
  }

  /** The overall classification of a key (lines 85-91): the shared label when
      all executions agree, "good inconsistent" when they disagree but only
      between flat and warmup, "bad inconsistent" otherwise. */
  function Classify(cats: seq<string>): (r: string)
    requires |cats| >= 1
    ensures (forall i :: 0 <= i < |cats| ==> cats[i] == cats[0]) ==> r == cats[0]
    ensures ((exists i :: 0 <= i < |cats| && cats[i] != cats[0]) &&
             (forall i :: 0 <= i < |cats| ==> cats[i] == Flat || cats[i] == Warmup))
            ==> r == GoodInconsistent
    ensures ((exists i :: 0 <= i < |cats| && cats[i] != cats[0]) &&
             (exists i :: 0 <= i < |cats| && cats[i] != Flat && cats[i] != Warmup))
            ==> r == BadInconsistent
  {
    var labels := LabelSet(cats);
    SingleLabel(cats);
    if |labels| == 1 then cats[0]
    else
      FlatWarmupPair(cats);
      if labels == {Flat, Warmup} then GoodInconsistent
      else BadInconsistent
  }

  /** The detailed classification (lines 92-97): how many executions carry
      each label, with the four standard labels present even when unseen. */
  function CountTable(cats: seq<string>): Table
  {
    map c | c in LabelSet(cats) + (set l | l in DefaultLabels) :: multiset(cats)[c]
  }

  /** The counts add up to the number of process executions. */
  lemma {:induction false} CountTableTotal(cats: seq<string>)
    ensures Total(CountTable(cats)) == |cats|
  {
    if cats == [] {
      TotalZero(CountTable(cats));
    } else {
      var pre := cats[..|cats| - 1];
      var x := cats[|cats| - 1];
      assert cats == pre + [x];
      CountTableTotal(pre);
      CountTableSnoc(pre, x);
      TotalUpdate(CountTable(pre), x, multiset(pre)[x] + 1);
      if x !in CountTable(pre) {
        assert x !in pre;
      }
    }
  }

  lemma CountTableSnoc(pre: seq<string>, x: string)
    ensures CountTable(pre + [x]) == CountTable(pre)[x := multiset(pre)[x] + 1]
  {
    var a := CountTable(pre + [x]);
    var b := CountTable(pre)[x := multiset(pre)[x] + 1];
    assert LabelSet(pre + [x]) == LabelSet(pre) + {x};
    assert a.Keys == b.Keys;
    forall c | c in a ensures a[c] == b[c] {
      assert multiset(pre + [x]) == multiset(pre) + multiset{x};
    }
  }

  /** Every standard label is a key of the table, and every key counts the
      executions that carry it. */
  lemma CountTableEntries(cats: seq<string>)
    ensures forall l :: l in DefaultLabels ==> l in CountTable(cats)
    ensures forall c :: c in CountTable(cats) ==> CountTable(cats)[c] == multiset(cats)[c]
    ensures NoSteadyState in CountTable(cats) &&
            (CountTable(cats)[NoSteadyState] > 0 <==> NoSteadyState in cats)
  {
  }

  /** Lines 92-97: copy Counter(categories) into a dict, then add the missing
      standard labels with count zero. */
  method CountCategories(cats: seq<string>) returns (counts: Table)
    ensures counts == CountTable(cats)
  {
    var counter := multiset(cats);
    counts := map[];
    var labels := LabelSet(cats);
    while labels != {}
      invariant labels <= LabelSet(cats)
      invariant counts.Keys == LabelSet(cats) - labels
      invariant forall c :: c in counts ==> counts[c] == counter[c]
      decreases labels
    {
      var c :| c in labels;
      counts := counts[c := counter[c]];
      labels := labels - {c};
    }
    for i := 0 to |DefaultLabels|
      invariant forall c :: c in counts <==> c in cats || c in DefaultLabels[..i]
      invariant forall c :: c in counts ==> counts[c] == counter[c]
    {
      if DefaultLabels[i] !in counts {
        counts := counts[DefaultLabels[i] := 0];
      }
    }
    assert DefaultLabels[..|DefaultLabels|] == DefaultLabels;
    assert counts.Keys == CountTable(cats).Keys;
  }

  /** The three statistics of a summary; None is Python's None. Each present
      one is a (median, confidence half-width) pair. */
  datatype Statistics = Statistics(
    steadyIteration: Option<(int, int)>,
    timeToSteady: Option<(real, real)>,
    steadyTime: Option<(real, real)>)

  function AsReals(xs: seq<nat>): seq<real>
  {
    seq(|xs|, i requires 0 <= i < |xs| => xs[i] as real)
  }

  /** Lines 99-112, with bootstrap_confidence_interval as the parameter ci:
      one non-converging execution voids every statistic; otherwise the steady
      time is always computed, and the iteration statistics are ceilinged to
      integers, or default to (0, 0) with no time-to-steady when no execution
      has a changepoint. */
  function SteadyStatistics(counts: Table, means: seq<real>, iters: seq<nat>, times: seq<real>,
                            ci: seq<real> -> (real, real)): (s: Statistics)
    requires NoSteadyState in counts
    ensures counts[NoSteadyState] > 0 <==> s.steadyTime == None
    ensures counts[NoSteadyState] > 0 ==> s.steadyIteration == None && s.timeToSteady == None
    ensures counts[NoSteadyState] == 0 ==> s.steadyTime == Some(ci(means))
    ensures counts[NoSteadyState] == 0 && iters == [] ==>
      s.steadyIteration == Some((0, 0)) && s.timeToSteady == None
    ensures counts[NoSteadyState] == 0 && iters != [] ==>
      && s.steadyIteration.Some?
      && ci(AsReals(iters)).0 <= s.steadyIteration.value.0 as real < ci(AsReals(iters)).0 + 1.0
      && ci(AsReals(iters)).1 <= s.steadyIteration.value.1 as real < ci(AsReals(iters)).1 + 1.0
      && s.timeToSteady == Some(ci(times))
  {
    if counts[NoSteadyState] > 0 then
      Statistics(None, None, None)
    else
      var steadyTime := ci(means);
      if iters != [] then
        var (medianIter, errorIter) := ci(AsReals(iters));
        Statistics(Some((Ceil(medianIter), Ceil(errorIter))), Some(ci(times)), Some(steadyTime))
      else
        Statistics(Some((0, 0)), None, Some(steadyTime))
  }

  /** One machine's input: five dicts keyed by "benchmark:vm:variant", each
      holding one entry per process execution. */
  datatype MachineData = MachineData(
    wallclockTimes: map<string, seq<seq<real>>>,
    changepoints: map<string, seq<seq<nat>>>,
    changepointMeans: map<string, seq<seq<real>>>,
    allOutliers: map<string, seq<seq<nat>>>,
    classifications: map<string, seq<string>>)

  /** A key is summarised unless it has no executions or its first execution
      has no iterations (lines 30-35); later executions are not checked. */
  predicate Processed(data: MachineData, key: string)
    requires key in data.wallclockTimes
  {
    |data.wallclockTimes[key]| > 0 && |data.wallclockTimes[key][0]| > 0
  }

  /** The other four dicts have an entry for every execution of the key. */
  predicate KeyPresent(data: MachineData, key: string)
  {
    && key in data.wallclockTimes
    && key in data.changepoints && key in data.changepointMeans
    && key in data.allOutliers && key in data.classifications
    && |data.changepoints[key]| >= |data.wallclockTimes[key]|
    && |data.changepointMeans[key]| >= |data.wallclockTimes[key]|
    && |data.allOutliers[key]| >= |data.wallclockTimes[key]|
    && |data.classifications[key]| >= |data.wallclockTimes[key]|
  }

  /** The process executions of a key, gathered from the five dicts. */
  function ExecutionsOf(data: MachineData, key: string): (execs: seq<ProcessExecution>)
    requires KeyPresent(data, key)
    ensures |execs| == |data.wallclockTimes[key]|
  {
    var n := |data.wallclockTimes[key]|;
    seq(n, p requires 0 <= p < n =>
      ProcessExecution(data.wallclockTimes[key][p], data.changepoints[key][p],
                       data.changepointMeans[key][p], data.allOutliers[key][p],
                       data.classifications[key][p]))
  }

  /** What a summarised key must satisfy for the source not to raise: the
      entries exist, the key splits into three fields, and every execution is
      well formed. */
  predicate KeyWellFormed(data: MachineData, key: string, halfBound: real, delta: real)
    requires key in data.wallclockTimes
  {
    Processed(data, key) ==>
      && KeyPresent(data, key)
      && |Split(key, ':')| == 3
      && AllWellFormed(ExecutionsOf(data, key), halfBound, delta)
  }

  predicate WellFormed(data: MachineData, halfBound: real, delta: real)
  {
    forall key :: key in data.wallclockTimes ==> KeyWellFormed(data, key, halfBound, delta)
  }

  predicate AllWellFormed(execs: seq<ProcessExecution>, halfBound: real, delta: real)
  {
    forall i :: 0 <= i < |execs| ==> ExecutionWellFormed(execs[i], halfBound, delta)
  }

  function AnalysesOf(execs: seq<ProcessExecution>, halfBound: real, delta: real): seq<ExecutionAnalysis>
    requires AllWellFormed(execs, halfBound, delta)
  {
    seq(|execs|, i requires 0 <= i < |execs| => Analyse(execs[i], halfBound, delta))
  }

  function LabelsOf(execs: seq<ProcessExecution>): seq<string>
  {
    seq(|execs|, i requires 0 <= i < |execs| => execs[i].classification)
  }

  /** steady_state_means: one entry per execution. */
  function MeansOf(analyses: seq<ExecutionAnalysis>): seq<real>
  {
    if analyses == [] then []
    else MeansOf(analyses[..|analyses| - 1]) + [analyses[|analyses| - 1].steadyMean]
  }

  /** steady_iters: one entry per execution that has changepoints. */
  function ItersOf(analyses: seq<ExecutionAnalysis>): seq<nat>
  {
    if analyses == [] then []
    else
      var a := analyses[|analyses| - 1];
      ItersOf(analyses[..|analyses| - 1]) + (if a.steadyIter.Some? then [a.steadyIter.value] else [])
  }

  /** time_to_steadys: one entry per execution, 0.0 for those without changepoints. */
  function TimesOf(analyses: seq<ExecutionAnalysis>): seq<real>
  {
    if analyses == [] then []
    else TimesOf(analyses[..|analyses| - 1]) + [analyses[|analyses| - 1].timeToSteady]
  }

  lemma Snoc(analyses: seq<ExecutionAnalysis>, a: ExecutionAnalysis)
    ensures MeansOf(analyses + [a]) == MeansOf(analyses) + [a.steadyMean]
    ensures ItersOf(analyses + [a]) ==
            ItersOf(analyses) + (if a.steadyIter.Some? then [a.steadyIter.value] else [])
    ensures TimesOf(analyses + [a]) == TimesOf(analyses) + [a.timeToSteady]
  {
    assert (analyses + [a])[..|analyses|] == analyses;
  }

  /** time_to_steadys has an entry for every execution but steady_iters only
      for those with changepoints: the two lists have the same length exactly
      when every execution has a changepoint, and steady_iters is empty
      exactly when none has. */
  lemma {:induction false} ItersAndTimes(analyses: seq<ExecutionAnalysis>)
    ensures |TimesOf(analyses)| == |analyses|
    ensures |ItersOf(analyses)| <= |analyses|
    ensures |ItersOf(analyses)| == |TimesOf(analyses)| <==>
            forall i :: 0 <= i < |analyses| ==> analyses[i].steadyIter.Some?
    ensures ItersOf(analyses) == [] <==>
            forall i :: 0 <= i < |analyses| ==> analyses[i].steadyIter == None
  {
    if analyses != [] {
      var pre := analyses[..|analyses| - 1];
      var a := analyses[|analyses| - 1];
      ItersAndTimes(pre);
      assert forall i :: 0 <= i < |pre| ==> pre[i] == analyses[i];
      if a.steadyIter.Some? {
        assert ItersOf(analyses) == ItersOf(pre) + [a.steadyIter.value];
      } else {
        assert ItersOf(analyses) == ItersOf(pre);
        assert analyses[|analyses| - 1].steadyIter == None;
      }
    }
  }

  /** One record of process_executons (lines 124-129). */
  datatype ExecutionDetail = ExecutionDetail(
    index: nat,
    classification: string,
    outliers: seq<nat>,
    changepoints: seq<nat>,
    segmentMeans: seq<real>)

  function DetailsOf(execs: seq<ProcessExecution>): seq<ExecutionDetail>
  {
    seq(|execs|, i requires 0 <= i < |execs| =>
      ExecutionDetail(i, execs[i].classification, execs[i].outliers,
                      execs[i].changepoints, execs[i].segmentMeans))
  }

  /** The summary record of one key (current_benchmark, lines 114-123). */
  datatype BenchmarkSummary = BenchmarkSummary(
    benchmarkName: string,
    classification: string,
    detailedClassification: Table,
    steadyIteration: Option<(int, int)>,
    timeToSteady: Option<(real, real)>,
    steadyTime: Option<(real, real)>,
    processExecutions: seq<ExecutionDetail>)

  /** The summary of a benchmark run as the executions `execs` (lines 48-129). */
  function SummaryOf(bench: string, execs: seq<ProcessExecution>, halfBound: real, delta: real,
                     ci: seq<real> -> (real, real)): BenchmarkSummary
    requires |execs| >= 1 && AllWellFormed(execs, halfBound, delta)
  {
    var cats := LabelsOf(execs);
    var analyses := AnalysesOf(execs, halfBound, delta);
    var counts := CountTable(cats);
    CountTableEntries(cats);
    var stats := SteadyStatistics(counts, MeansOf(analyses), ItersOf(analyses), TimesOf(analyses), ci);
    BenchmarkSummary(bench, Classify(cats), counts,
                     stats.steadyIteration, stats.timeToSteady, stats.steadyTime, DetailsOf(execs))
  }

  /** The detailed classification counts every execution once and lists the
      four standard labels. */
  lemma SummaryCounts(bench: string, execs: seq<ProcessExecution>, halfBound: real, delta: real,
                      ci: seq<real> -> (real, real))
    requires |execs| >= 1 && AllWellFormed(execs, halfBound, delta)
    ensures var b := SummaryOf(bench, execs, halfBound, delta, ci);
      && Total(b.detailedClassification) == |execs|
      && (forall l :: l in DefaultLabels ==> l in b.detailedClassification)
      && b.classification == Classify(LabelsOf(execs))
  {
    CountTableTotal(LabelsOf(execs));
    CountTableEntries(LabelsOf(execs));
  }

  lemma NoSteadyStateLabel(execs: seq<ProcessExecution>)
    ensures NoSteadyState in LabelsOf(execs) <==>
            exists p :: 0 <= p < |execs| && execs[p].classification == NoSteadyState
  {
    var cats := LabelsOf(execs);
    if NoSteadyState in cats {
      var p :| 0 <= p < |cats| && cats[p] == NoSteadyState;
    }
    if exists p :: 0 <= p < |execs| && execs[p].classification == NoSteadyState {
      var p :| 0 <= p < |execs| && execs[p].classification == NoSteadyState;
      assert cats[p] == NoSteadyState;
    }
  }

  /** A single execution that never reached a steady state voids all three
      statistics; otherwise the steady time is present. */
  lemma SummaryNoSteadyState(bench: string, execs: seq<ProcessExecution>, halfBound: real, delta: real,
                             ci: seq<real> -> (real, real))
    requires |execs| >= 1 && AllWellFormed(execs, halfBound, delta)
    ensures var b := SummaryOf(bench, execs, halfBound, delta, ci);
      && ((exists p :: 0 <= p < |execs| && execs[p].classification == NoSteadyState) <==>
            b.steadyTime == None)
      && ((exists p :: 0 <= p < |execs| && execs[p].classification == NoSteadyState) ==>
            b.steadyIteration == None && b.timeToSteady == None)
  {
    CountTableEntries(LabelsOf(execs));
    NoSteadyStateLabel(execs);
  }

  /** steady_iters is empty exactly when no execution has a changepoint. */
  lemma ItersEmpty(execs: seq<ProcessExecution>, halfBound: real, delta: real)
    requires AllWellFormed(execs, halfBound, delta)
    ensures ItersOf(AnalysesOf(execs, halfBound, delta)) == [] <==>
            forall p :: 0 <= p < |execs| ==> execs[p].changepoints == []
  {
    var analyses := AnalysesOf(execs, halfBound, delta);
    ItersAndTimes(analyses);
    assert forall p :: 0 <= p < |execs| ==> analyses[p] == Analyse(execs[p], halfBound, delta);
  }

  /** When every execution converges without any changepoint, the iteration
      statistic defaults to (0, 0) and there is no time-to-steady. */
  lemma SummaryNoChangepoints(bench: string, execs: seq<ProcessExecution>, halfBound: real, delta: real,
                              ci: seq<real> -> (real, real))
    requires |execs| >= 1 && AllWellFormed(execs, halfBound, delta)
    requires forall p :: 0 <= p < |execs| ==>
      execs[p].classification != NoSteadyState && execs[p].changepoints == []
    ensures var b := SummaryOf(bench, execs, halfBound, delta, ci);
      b.steadyIteration == Some((0, 0)) && b.timeToSteady == None && b.steadyTime.Some?
  {
    CountTableEntries(LabelsOf(execs));
    NoSteadyStateLabel(execs);
    ItersEmpty(execs, halfBound, delta);
  }

  /** The summary of one key. */
  function KeySummary(data: MachineData, key: string, halfBound: real, delta: real,
                      ci: seq<real> -> (real, real)): BenchmarkSummary
    requires key in data.wallclockTimes && Processed(data, key)
    requires KeyWellFormed(data, key, halfBound, delta)
  {
    SummaryOf(Split(key, ':')[0], ExecutionsOf(data, key), halfBound, delta, ci)
  }

  /** Lines 48-83: the per-execution loop that fills categories,
      steady_state_means, steady_iters and time_to_steadys. */
  method AnalyseExecutions(execs: seq<ProcessExecution>, halfBound: real, delta: real)
    returns (categories: seq<string>, steadyStateMeans: seq<real>, steadyIters: seq<nat>, timeToSteadys: seq<real>)
    requires AllWellFormed(execs, halfBound, delta)
    ensures categories == LabelsOf(execs)
    ensures steadyStateMeans == MeansOf(AnalysesOf(execs, halfBound, delta))
    ensures steadyIters == ItersOf(AnalysesOf(execs, halfBound, delta))
    ensures timeToSteadys == TimesOf(AnalysesOf(execs, halfBound, delta))
  {
    categories, steadyStateMeans, steadyIters, timeToSteadys := [], [], [], [];
    PrefixStep(execs, 0, halfBound, delta);
    for p := 0 to |execs|
      invariant AllWellFormed(execs[..p], halfBound, delta)
      invariant categories == LabelsOf(execs[..p])
      invariant steadyStateMeans == MeansOf(AnalysesOf(execs[..p], halfBound, delta))
      invariant steadyIters == ItersOf(AnalysesOf(execs[..p], halfBound, delta))
      invariant timeToSteadys == TimesOf(AnalysesOf(execs[..p], halfBound, delta))
    {
      var a := AnalyseExecution(execs[p], halfBound, delta);
      categories := categories + [execs[p].classification];
      steadyStateMeans := steadyStateMeans + [a.steadyMean];
      if a.steadyIter.Some? {
        steadyIters := steadyIters + [a.steadyIter.value];
      }
      timeToSteadys := timeToSteadys + [a.timeToSteady];
      PrefixStep(execs, p + 1, halfBound, delta);
      Snoc(AnalysesOf(execs[..p], halfBound, delta), a);
    }
    assert execs[..|execs|] == execs;
  }

  /** Extending the prefix of executions by one extends the labels and the
      analyses by that execution's. */
  lemma PrefixStep(execs: seq<ProcessExecution>, p: nat, halfBound: real, delta: real)
    requires AllWellFormed(execs, halfBound, delta) && p <= |execs|
    ensures AllWellFormed(execs[..p], halfBound, delta)
    ensures p > 0 ==> LabelsOf(execs[..p]) == LabelsOf(execs[..p - 1]) + [execs[p - 1].classification]
    ensures p > 0 ==> AnalysesOf(execs[..p], halfBound, delta) ==
                      AnalysesOf(execs[..p - 1], halfBound, delta) + [Analyse(execs[p - 1], halfBound, delta)]
  {
    if p > 0 {
      assert AllWellFormed(execs[..p - 1], halfBound, delta);
      assert LabelsOf(execs[..p]) == LabelsOf(execs[..p - 1]) + [execs[p - 1].classification];
    }
  }

  /** Lines 48-129 for one key that is not skipped, given its name and its
      process executions. */
  method SummariseExecutions(bench: string, execs: seq<ProcessExecution>, halfBound: real, delta: real,
                             ci: seq<real> -> (real, real)) returns (b: BenchmarkSummary)
    requires |execs| >= 1 && AllWellFormed(execs, halfBound, delta)
    ensures b == SummaryOf(bench, execs, halfBound, delta, ci)
  {
    var categories, steadyStateMeans, steadyIters, timeToSteadys := AnalyseExecutions(execs, halfBound, delta);
    var reportedCategory := Classify(categories);
    var catCounts := CountCategories(categories);
    CountTableEntries(categories);
    var stats := SteadyStatistics(catCounts, steadyStateMeans, steadyIters, timeToSteadys, ci);
    var pexecs := ExecutionDetails(execs, categories);
    b := BenchmarkSummary(bench, reportedCategory, catCounts, stats.steadyIteration,
                          stats.timeToSteady, stats.steadyTime, pexecs);
  }

  /** Lines 124-129: one record per execution, numbered from 0, carrying
      its category, outliers, changepoints and segment means. */
  method ExecutionDetails(execs: seq<ProcessExecution>, categories: seq<string>)
    returns (pexecs: seq<ExecutionDetail>)
    requires categories == LabelsOf(execs)
    ensures pexecs == DetailsOf(execs)
  {
    pexecs := [];
    for index := 0 to |execs|
      invariant |pexecs| == index
      invariant forall i :: 0 <= i < index ==>
        pexecs[i] == ExecutionDetail(i, execs[i].classification, execs[i].outliers,
                                     execs[i].changepoints, execs[i].segmentMeans)
    {
      pexecs := pexecs + [ExecutionDetail(index, categories[index], execs[index].outliers,
                                          execs[index].changepoints, execs[index].segmentMeans)];
    }
    DetailsPointwise(execs, pexecs);
  }

  lemma DetailsPointwise(execs: seq<ProcessExecution>, details: seq<ExecutionDetail>)
    requires |details| == |execs|
    requires forall i :: 0 <= i < |execs| ==>
      details[i] == ExecutionDetail(i, execs[i].classification, execs[i].outliers,
                                    execs[i].changepoints, execs[i].segmentMeans)
    ensures details == DetailsOf(execs)
  {
  }

  function VmOf(key: string): string
    requires |Split(key, ':')| == 3
  {
    Split(key, ':')[1]
  }

  predicate KeysInData(data: MachineData, keys: seq<string>)
  {
    forall i :: 0 <= i < |keys| ==> keys[i] in data.wallclockTimes
  }

  /** The effect of visiting one key on the per-VM lists: a summarised key
      appends its summary to its VM's list, creating the list if needed. */
  function Visit(data: MachineData, before: map<string, seq<BenchmarkSummary>>, key: string,
                 halfBound: real, delta: real, ci: seq<real> -> (real, real)): map<string, seq<BenchmarkSummary>>
    requires key in data.wallclockTimes && KeyWellFormed(data, key, halfBound, delta)
  {
    if !Processed(data, key) then before
    else
      var vm := VmOf(key);
      var list := if vm in before then before[vm] else [];
      before[vm := list + [KeySummary(data, key, halfBound, delta, ci)]]
  }

  /** summary_data[machine] after visiting `keys` in order (lines 28-130). */
  function Corpus(data: MachineData, keys: seq<string>, halfBound: real, delta: real,
                  ci: seq<real> -> (real, real)): map<string, seq<BenchmarkSummary>>
    requires KeysInData(data, keys) && WellFormed(data, halfBound, delta)
  {
    if keys == [] then map[]
    else Visit(data, Corpus(data, keys[..|keys| - 1], halfBound, delta, ci), keys[|keys| - 1], halfBound, delta, ci)
  }

  predicate AllProcessed(data: MachineData, ks: seq<string>)
  {
    forall i :: 0 <= i < |ks| ==> ks[i] in data.wallclockTimes && Processed(data, ks[i])
  }

  /** The summaries of the keys `ks`, in order. */
  function SummariesOf(data: MachineData, ks: seq<string>, halfBound: real, delta: real,
                       ci: seq<real> -> (real, real)): seq<BenchmarkSummary>
    requires AllProcessed(data, ks) && WellFormed(data, halfBound, delta)
  {
    if ks == [] then []
    else SummariesOf(data, ks[..|ks| - 1], halfBound, delta, ci) +
           [KeySummary(data, ks[|ks| - 1], halfBound, delta, ci)]
  }

  /** The summarised keys among `keys` whose VM is vm, in the order visited. */
  function KeysOfVm(data: MachineData, keys: seq<string>, vm: string, halfBound: real, delta: real): (ks: seq<string>)
    requires KeysInData(data, keys) && WellFormed(data, halfBound, delta)
    ensures AllProcessed(data, ks)
    ensures forall i :: 0 <= i < |ks| ==> ks[i] in keys && VmOf(ks[i]) == vm
  {
    if keys == [] then []
    else
      var key := keys[|keys| - 1];
      KeysOfVm(data, keys[..|keys| - 1], vm, halfBound, delta) +
        (if Processed(data, key) && VmOf(key) == vm then [key] else [])
  }

  /** Grouping by VM: a VM has a list exactly when some summarised key names
      it, and its list holds the summaries of those keys in visiting order. */
  lemma {:induction false} CorpusGroupsByVm(data: MachineData, keys: seq<string>, vm: string,
                                            halfBound: real, delta: real, ci: seq<real> -> (real, real))
    requires KeysInData(data, keys) && WellFormed(data, halfBound, delta)
    ensures var c := Corpus(data, keys, halfBound, delta, ci);
            var ks := KeysOfVm(data, keys, vm, halfBound, delta);
      && (vm in c <==> ks != [])
      && (vm in c ==> c[vm] == SummariesOf(data, ks, halfBound, delta, ci))
  {
    if keys != [] {
      var pre := keys[..|keys| - 1];
      var key := keys[|keys| - 1];
      CorpusGroupsByVm(data, pre, vm, halfBound, delta, ci);
      var ks := KeysOfVm(data, pre, vm, halfBound, delta);
      var before := Corpus(data, pre, halfBound, delta, ci);
      var c := Corpus(data, keys, halfBound, delta, ci);
      assert c == Visit(data, before, key, halfBound, delta, ci);
      if Processed(data, key) && VmOf(key) == vm {
        var list := if vm in before then before[vm] else [];
        assert list == SummariesOf(data, ks, halfBound, delta, ci);
        var s := KeySummary(data, key, halfBound, delta, ci);
        assert c[vm] == list + [s];
        assert KeysOfVm(data, keys, vm, halfBound, delta) == ks + [key];
        assert (ks + [key])[..|ks|] == ks;
        assert SummariesOf(data, ks + [key], halfBound, delta, ci) == list + [s];
      } else {
        assert KeysOfVm(data, keys, vm, halfBound, delta) == ks;
        assert vm in c ==> c[vm] == before[vm];
      }
    }
  }

  /** Each VM's keys are visited in sorted order when the keys are. */
  lemma {:induction false} KeysOfVmSorted(data: MachineData, keys: seq<string>, vm: string, halfBound: real, delta: real)
    requires KeysInData(data, keys) && WellFormed(data, halfBound, delta)
    requires StrictlySorted(keys)
    ensures StrictlySorted(KeysOfVm(data, keys, vm, halfBound, delta))
  {
    if keys != [] {
      var pre := keys[..|keys| - 1];
      var key := keys[|keys| - 1];
      KeysOfVmSorted(data, pre, vm, halfBound, delta);
      var ks := KeysOfVm(data, pre, vm, halfBound, delta);
      forall i | 0 <= i < |ks| ensures Below(ks[i], key) {
        var j :| 0 <= j < |pre| && pre[j] == ks[i];
      }
    }
  }

  /** One step of the loop over the keys. */
  lemma CorpusSnoc(data: MachineData, keys: seq<string>, i: nat, halfBound: real, delta: real,
                   ci: seq<real> -> (real, real))
    requires KeysInData(data, keys) && WellFormed(data, halfBound, delta)
    requires i < |keys|
    ensures KeysInData(data, keys[..i]) && KeysInData(data, keys[..i + 1])
    ensures Corpus(data, keys[..i + 1], halfBound, delta, ci) ==
            Visit(data, Corpus(data, keys[..i], halfBound, delta, ci), keys[i], halfBound, delta, ci)
  {
    assert keys[..i + 1][..i] == keys[..i];
  }

  /** The body of the loop over the keys (lines 29-130): skip a key with no
      executions or whose first execution is empty, otherwise append its
      summary to its VM's list. */
  method VisitKey(data: MachineData, vms: map<string, seq<BenchmarkSummary>>, key: string,
                  halfBound: real, delta: real, ci: seq<real> -> (real, real))
    returns (after: map<string, seq<BenchmarkSummary>>)
    requires key in data.wallclockTimes && KeyWellFormed(data, key, halfBound, delta)
    ensures after == Visit(data, vms, key, halfBound, delta, ci)
  {
    after := vms;
    var wallclockTimes := data.wallclockTimes[key];
    if |wallclockTimes| == 0 {
      // skipped: no executions
    } else if |wallclockTimes[0]| == 0 {
      // skipped: the benchmark crashed
    } else {
      var parts := Split(key, ':');
      var vm := parts[1];
      if vm !in after {
        after := after[vm := []];
      }
      var b := SummariseExecutions(parts[0], ExecutionsOf(data, key), halfBound, delta, ci);
      VisitAppends(data, vms, after, key, b, halfBound, delta, ci);
      after := after[vm := after[vm] + [b]];
    }
  }

  lemma VisitAppends(data: MachineData, vms: map<string, seq<BenchmarkSummary>>,
                     withList: map<string, seq<BenchmarkSummary>>, key: string, b: BenchmarkSummary,
                     halfBound: real, delta: real, ci: seq<real> -> (real, real))
    requires key in data.wallclockTimes && KeyWellFormed(data, key, halfBound, delta) && Processed(data, key)
    requires VmOf(key) in withList
    requires withList == if VmOf(key) in vms then vms else vms[VmOf(key) := []]
    requires b == KeySummary(data, key, halfBound, delta, ci)
    ensures withList[VmOf(key) := withList[VmOf(key)] + [b]] == Visit(data, vms, key, halfBound, delta, ci)
  {
  }

  lemma SingletonKeys<T>(m: map<string, T>, k: string)
    requires |m| == 1 && k in m
    ensures m.Keys == {k}
  {
    var rest := m.Keys - {k};
    assert m.Keys == {k} + rest;
  }

  /** collect_summary_statistics: one machine's dicts in, summary_data out,
      keys visited in sorted order. */
  method CollectSummaryStatistics(dataDictionaries: map<string, MachineData>, halfBound: real, delta: real,
                                  ci: seq<real> -> (real, real))
    returns (summaryData: map<string, map<string, seq<BenchmarkSummary>>>)
    requires |dataDictionaries| == 1
    requires forall m :: m in dataDictionaries ==> WellFormed(dataDictionaries[m], halfBound, delta)
    ensures summaryData.Keys == dataDictionaries.Keys
    ensures forall m :: m in summaryData ==>
      summaryData[m] == Corpus(dataDictionaries[m], SortedEnumeration(dataDictionaries[m].wallclockTimes.Keys),
                               halfBound, delta, ci)
  {
    var machine :| machine in dataDictionaries;
    SingletonKeys(dataDictionaries, machine);
    var data := dataDictionaries[machine];
    var keys := SortStrings(data.wallclockTimes.Keys);
    var vms: map<string, seq<BenchmarkSummary>> := map[];
    assert KeysInData(data, keys);
    for i := 0 to |keys|
      invariant KeysInData(data, keys[..i])
      invariant vms == Corpus(data, keys[..i], halfBound, delta, ci)
    {
      CorpusSnoc(data, keys, i, halfBound, delta, ci);
      vms := VisitKey(data, vms, keys[i], halfBound, delta, ci);
    }
    assert keys[..|keys|] == keys;
    summaryData := map[machine := vms];
  }
}
