/** The LaTeX cell contents of each summary (convert_to_latex,
    warmup/summary_statistics.py lines 134-191). STYLE_SYMBOLS is the
    parameter `symbol` and format_median_error the parameter `format`. */
module LatexCells {
  import opened Wrappers
  import opened Text
  import opened Tally
  import opened SteadyState
  import opened Summarise

  /** The three ways format_median_error is called. */
  datatype FormatMode = AsInteger | Plain | Brief

  /** latex_summary[vm][bench]: the style and the three statistic cells. */
  datatype LatexEntry = LatexEntry(style: string, lastCpt: string, lastMean: string, timeToSteady: string)

  /** The count table's items, each label once, by non-increasing count:
      what sorted(..., key=count, reverse=True) returns, ties in whatever
      order the dict yields. */
  ghost predicate ByCountDescending(t: Table, pairs: seq<(string, nat)>)
  {
    && (forall i :: 0 <= i < |pairs| ==> pairs[i].0 in t && pairs[i].1 == t[pairs[i].0])
    && (forall i, j :: 0 <= i < j < |pairs| ==> pairs[i].0 != pairs[j].0)
    && (forall k :: k in t ==> exists i :: 0 <= i < |pairs| && pairs[i].0 == k)
    && (forall i, j :: 0 <= i < j < |pairs| ==> pairs[i].1 >= pairs[j].1)
  }

  lemma {:induction false} MaxKey(t: Table, rest: set<string>)
    requires rest != {} && rest <= t.Keys
    ensures exists k :: k in rest && forall j :: j in rest ==> t[j] <= t[k]
    decreases |rest|
  {
    var x :| x in rest;
    if rest != {x} {
      MaxKey(t, rest - {x});
      var k :| k in rest - {x} && forall j :: j in rest - {x} ==> t[j] <= t[k];
      if t[x] > t[k] {
        assert forall j :: j in rest ==> t[j] <= t[x];
      } else {
        assert forall j :: j in rest ==> t[j] <= t[k];
      }
    } else {
      assert forall j :: j in rest ==> t[j] <= t[x];
    }
  }

  /** The loop state of SortByCountDescending: `pairs` lists, by
      non-increasing count, the keys outside `rest`, and none of the keys in
      `rest` counts more than a listed one. */
  ghost predicate SortedSoFar(t: Table, pairs: seq<(string, nat)>, rest: set<string>)
  {
    && rest <= t.Keys
    && (forall i :: 0 <= i < |pairs| ==> pairs[i].0 in t && pairs[i].0 !in rest && pairs[i].1 == t[pairs[i].0])
    && (forall i, j :: 0 <= i < j < |pairs| ==> pairs[i].0 != pairs[j].0)
    && (forall k :: k in t && k !in rest ==> exists i :: 0 <= i < |pairs| && pairs[i].0 == k)
    && (forall i, j :: 0 <= i < j < |pairs| ==> pairs[i].1 >= pairs[j].1)
    && (forall i, k :: 0 <= i < |pairs| && k in rest ==> t[k] <= pairs[i].1)
  }

  /** Appending the largest remaining key keeps the listed keys counted,
      outside the remaining set and covering every key already taken. */
  lemma StepListed(t: Table, pairs: seq<(string, nat)>, rest: set<string>, k: string)
    requires SortedSoFar(t, pairs, rest) && k in rest
    ensures var next := pairs + [(k, t[k])];
      && (forall i :: 0 <= i < |next| ==> next[i].0 in t && next[i].0 !in rest - {k} && next[i].1 == t[next[i].0])
      && (forall k' :: k' in t && k' !in rest - {k} ==> exists i :: 0 <= i < |next| && next[i].0 == k')
  {
    var next := pairs + [(k, t[k])];
    forall i | 0 <= i < |next|
      ensures next[i].0 in t && next[i].0 !in rest - {k} && next[i].1 == t[next[i].0]
    {
      if i < |pairs| {
        assert next[i] == pairs[i];
      }
    }
    forall k' | k' in t && k' !in rest - {k} ensures exists i :: 0 <= i < |next| && next[i].0 == k' {
      if k' == k {
        assert next[|pairs|].0 == k;
      } else {
        var i :| 0 <= i < |pairs| && pairs[i].0 == k';
        assert next[i].0 == k';
      }
    }
  }

  /** Appending the largest remaining key keeps the list free of repeats, by
      non-increasing count, and above every key still remaining. */
  lemma StepOrdered(t: Table, pairs: seq<(string, nat)>, rest: set<string>, k: string)
    requires SortedSoFar(t, pairs, rest)
    requires k in rest && forall j :: j in rest ==> t[j] <= t[k]
    ensures var next := pairs + [(k, t[k])];
      && (forall i, j :: 0 <= i < j < |next| ==> next[i].0 != next[j].0)
      && (forall i, j :: 0 <= i < j < |next| ==> next[i].1 >= next[j].1)
      && (forall i, k' :: 0 <= i < |next| && k' in rest - {k} ==> t[k'] <= next[i].1)
  {
    var next := pairs + [(k, t[k])];
    forall i, j | 0 <= i < j < |next|
      ensures next[i].0 != next[j].0 && next[i].1 >= next[j].1
    {
      assert next[i] == pairs[i];
      if j < |pairs| {
        assert next[j] == pairs[j];
      }
    }
    forall i, k' | 0 <= i < |next| && k' in rest - {k}
      ensures t[k'] <= next[i].1
    {
      if i < |pairs| {
        assert next[i] == pairs[i];
      }
    }
  }

  lemma SortedSoFarStep(t: Table, pairs: seq<(string, nat)>, rest: set<string>, k: string)
    requires SortedSoFar(t, pairs, rest)
    requires k in rest && forall j :: j in rest ==> t[j] <= t[k]
    ensures SortedSoFar(t, pairs + [(k, t[k])], rest - {k})
  {
    StepListed(t, pairs, rest, k);
    StepOrdered(t, pairs, rest, k);
  }

  /** Lines 145-146: the table's items sorted by descending count. */
  method SortByCountDescending(t: Table) returns (pairs: seq<(string, nat)>)
    ensures ByCountDescending(t, pairs)
  {
    pairs := [];
    var rest := t.Keys;
    while rest != {}
      invariant SortedSoFar(t, pairs, rest)
      decreases rest
    {
      MaxKey(t, rest);
      var k :| k in rest && forall j :: j in rest ==> t[j] <= t[k];
      SortedSoFarStep(t, pairs, rest, k);
      pairs := pairs + [(k, t[k])];
      rest := rest - {k};
    }
  }

  /** The entries with a non-zero count, in order. */
  function NonZero(pairs: seq<(string, nat)>): seq<(string, nat)>
  {
    if pairs == [] then []
    else NonZero(pairs[..|pairs| - 1]) + (if pairs[|pairs| - 1].1 == 0 then [] else [pairs[|pairs| - 1]])
  }

  /** Distinct labels, by non-increasing count. */
  predicate Descending(pairs: seq<(string, nat)>)
  {
    forall i, j :: 0 <= i < j < |pairs| ==> pairs[i].0 != pairs[j].0 && pairs[i].1 >= pairs[j].1
  }

  /** An entry is kept exactly when it has a non-zero count. */
  lemma {:induction false} NonZeroMembers(pairs: seq<(string, nat)>)
    ensures forall x :: x in NonZero(pairs) <==> x in pairs && x.1 > 0
  {
    if pairs != [] {
      var pre := pairs[..|pairs| - 1];
      assert pairs == pre + [pairs[|pairs| - 1]];
      NonZeroMembers(pre);
    }
  }

  /** Appending an entry new and no larger than every listed one keeps the
      list descending. */
  lemma DescendingSnoc(pairs: seq<(string, nat)>, last: (string, nat))
    requires Descending(pairs)
    requires forall x :: x in pairs ==> x.0 != last.0 && x.1 >= last.1
    ensures Descending(pairs + [last])
  {
    var r := pairs + [last];
    forall i, j | 0 <= i < j < |r| ensures r[i].0 != r[j].0 && r[i].1 >= r[j].1 {
      assert r[i] == pairs[i];
      if j < |pairs| {
        assert r[j] == pairs[j];
      }
    }
  }

  lemma {:induction false} NonZeroDescending(pairs: seq<(string, nat)>)
    requires Descending(pairs)
    ensures Descending(NonZero(pairs))
    ensures forall x :: x in NonZero(pairs) <==> x in pairs && x.1 > 0
  {
    NonZeroMembers(pairs);
    if pairs != [] {
      var pre := pairs[..|pairs| - 1];
      var last := pairs[|pairs| - 1];
      assert Descending(pre) by {
        forall i, j | 0 <= i < j < |pre| ensures pre[i].0 != pre[j].0 && pre[i].1 >= pre[j].1 {
          assert pre[i] == pairs[i] && pre[j] == pairs[j];
        }
      }
      NonZeroDescending(pre);
      var nz := NonZero(pre);
      if last.1 != 0 {
        forall x | x in nz ensures x.0 != last.0 && x.1 >= last.1 {
          var k :| 0 <= k < |pre| && pre[k] == x;
          assert pairs[k] == x;
        }
        DescendingSnoc(nz, last);
        assert NonZero(pairs) == nz + [last];
      } else {
        assert NonZero(pairs) == nz;
      }
    }
  }

  /** The breakdown lists each label with a non-zero count exactly once,
      by non-increasing count, and no label with count zero. */
  lemma NonZeroBreakdown(t: Table, pairs: seq<(string, nat)>)
    requires ByCountDescending(t, pairs)
    ensures var nz := NonZero(pairs);
      && (forall i :: 0 <= i < |nz| ==> nz[i].0 in t && nz[i].1 == t[nz[i].0] && nz[i].1 > 0)
      && Descending(nz)
      && (forall k :: k in t && t[k] > 0 ==> exists i :: 0 <= i < |nz| && nz[i].0 == k)
  {
    NonZeroDescending(pairs);
    var nz := NonZero(pairs);
    forall i | 0 <= i < |nz| ensures nz[i].0 in t && nz[i].1 == t[nz[i].0] && nz[i].1 > 0 {
      assert nz[i] in pairs;
    }
    forall k | k in t && t[k] > 0 ensures exists i :: 0 <= i < |nz| && nz[i].0 == k {
      var i :| 0 <= i < |pairs| && pairs[i].0 == k;
      assert pairs[i] in nz;
    }
  }

  /** '$%d$%s' % (count, STYLE_SYMBOLS[category]) */
  function Part(p: (string, nat), symbol: string -> string): string
  {
    "$" + Decimal(p.1) + "$" + symbol(p.0)
  }

  function Parts(pairs: seq<(string, nat)>, symbol: string -> string): seq<string>
  {
    seq(|pairs|, i requires 0 <= i < |pairs| => Part(pairs[i], symbol))
  }

  /** Lines 147-151: one "$count$symbol" part per non-zero entry. */
  method Breakdown(pairs: seq<(string, nat)>, symbol: string -> string) returns (catCounts: seq<string>)
    ensures catCounts == Parts(NonZero(pairs), symbol)
  {
    catCounts := [];
    for i := 0 to |pairs|
      invariant catCounts == Parts(NonZero(pairs[..i]), symbol)
    {
      assert pairs[..i + 1][..i] == pairs[..i];
      if pairs[i].1 == 0 {
        continue;
      }
      catCounts := catCounts + [Part(pairs[i], symbol)];
    }
    assert pairs[..|pairs|] == pairs;
  }

  /** An inconsistent style: the symbol, then the breakdown in small type. */
  function InconsistentStyle(base: string, parts: seq<string>): string
  {
    base + " \\scriptsize(" + Join(parts, ", ") + ")"
  }

  /** A consistent style where some executions carry another label. */
  function ErroredStyle(base: string, count: nat): string
  {
    " " + base + "\\scriptsize{($" + Decimal(count) + "$)}"
  }

  predicate Inconsistent(cls: string)
  {
    cls == BadInconsistent || cls == GoodInconsistent
  }

  /** What the source needs to avoid a KeyError at line 164. */
  predicate StyleDefined(b: BenchmarkSummary)
  {
    Inconsistent(b.classification) || b.classification in b.detailedClassification
  }

  /** The styles convert_to_latex may produce for b (lines 143-170). */
  ghost predicate IsStyle(b: BenchmarkSummary, symbol: string -> string, style: string)
    requires StyleDefined(b)
  {
    var dc := b.detailedClassification;
    if Inconsistent(b.classification) then
      exists pairs :: ByCountDescending(dc, pairs) &&
        style == InconsistentStyle(symbol(b.classification), Parts(NonZero(pairs), symbol))
    else if Total(dc) == dc[b.classification] then
      style == symbol(b.classification)
    else
      style == ErroredStyle(symbol(b.classification), dc[b.classification])
  }

  /** Lines 143-170. */
  method StyleOf(b: BenchmarkSummary, symbol: string -> string) returns (style: string)
    requires StyleDefined(b)
    ensures IsStyle(b, symbol, style)
  {
    var dc := b.detailedClassification;
    if b.classification == BadInconsistent || b.classification == GoodInconsistent {
      // lines 144-152 and 153-161 differ only in the label
      var pairs := SortByCountDescending(dc);
      var catCounts := Breakdown(pairs, symbol);
      style := symbol(b.classification) + " \\scriptsize(" + Join(catCounts, ", ") + ")";
      assert style == InconsistentStyle(symbol(b.classification), Parts(NonZero(pairs), symbol));
    } else {
      var total := SumValues(dc);
      if total == dc[b.classification] {
        style := symbol(b.classification);
      } else {
        style := " " + symbol(b.classification) + "\\scriptsize{($" + Decimal(dc[b.classification]) + "$)}";
      }
    }
  }

  lemma AllSame(cats: seq<string>)
    requires |cats| >= 1
    requires forall i :: 0 <= i < |cats| ==> cats[i] == cats[0]
    ensures multiset(cats)[cats[0]] == |cats|
    decreases |cats|
  {
    if |cats| > 1 {
      AllSame(cats[1..]);
      assert cats == [cats[0]] + cats[1..];
    }
  }

  /** A collected summary whose classification is not inconsistent has every
      execution under that label, so its style is the bare symbol: the
      errored style of lines 167-170 never arises from collected data. */
  lemma ConsistentHasNoErrors(bench: string, execs: seq<ProcessExecution>, halfBound: real, delta: real,
                              ci: seq<real> -> (real, real), symbol: string -> string, style: string)
    requires |execs| >= 1 && AllWellFormed(execs, halfBound, delta)
    requires !Inconsistent(SummaryOf(bench, execs, halfBound, delta, ci).classification)
    ensures var b := SummaryOf(bench, execs, halfBound, delta, ci);
      && b.classification in b.detailedClassification
      && Total(b.detailedClassification) == b.detailedClassification[b.classification]
      && (IsStyle(b, symbol, style) <==> style == symbol(b.classification))
  {
    var cats := LabelsOf(execs);
    var b := SummaryOf(bench, execs, halfBound, delta, ci);
    SummaryCounts(bench, execs, halfBound, delta, ci);
    assert forall i :: 0 <= i < |cats| ==> cats[i] == cats[0];
    assert b.classification == cats[0];
    AllSame(cats);
    CountTableEntries(cats);
  }

  /** Every collected summary has a defined style. */
  lemma CollectedStyleDefined(bench: string, execs: seq<ProcessExecution>, halfBound: real, delta: real,
                              ci: seq<real> -> (real, real))
    requires |execs| >= 1 && AllWellFormed(execs, halfBound, delta)
    ensures StyleDefined(SummaryOf(bench, execs, halfBound, delta, ci))
  {
    if !Inconsistent(SummaryOf(bench, execs, halfBound, delta, ci).classification) {
      ConsistentHasNoErrors(bench, execs, halfBound, delta, ci, x => x, "");
    }
  }

  /** Every summary collect_summary_statistics files under any VM has a
      defined style, so converting collected data never raises at line 164. */
  lemma {:induction false} CorpusStyleDefined(data: MachineData, keys: seq<string>, halfBound: real, delta: real,
                                              ci: seq<real> -> (real, real))
    requires KeysInData(data, keys) && WellFormed(data, halfBound, delta)
    ensures forall vm :: vm in Corpus(data, keys, halfBound, delta, ci) ==>
      AllStyleDefined(Corpus(data, keys, halfBound, delta, ci)[vm])
    decreases |keys|
  {
    if keys != [] {
      var key := keys[|keys| - 1];
      var prefix := keys[..|keys| - 1];
      CorpusSnoc(data, keys, |keys| - 1, halfBound, delta, ci);
      assert keys[..|keys|] == keys;
      CorpusStyleDefined(data, prefix, halfBound, delta, ci);
      var before := Corpus(data, prefix, halfBound, delta, ci);
      assert Corpus(data, keys, halfBound, delta, ci) == Visit(data, before, key, halfBound, delta, ci);
      if Processed(data, key) {
        CollectedStyleDefined(Split(key, ':')[0], ExecutionsOf(data, key), halfBound, delta, ci);
        assert StyleDefined(KeySummary(data, key, halfBound, delta, ci));
      }
    }
  }

  /** Lines 171-187: a missing statistic gives an empty cell. */
  function EntryOf(b: BenchmarkSummary, style: string, format: (real, real, FormatMode) -> string): LatexEntry
  {
    LatexEntry(
      style,
      if b.steadyIteration.Some?
        then format(b.steadyIteration.value.0 as real, b.steadyIteration.value.1 as real, AsInteger) else "",
      if b.steadyTime.Some? then format(b.steadyTime.value.0, b.steadyTime.value.1, Plain) else "",
      if b.timeToSteady.Some? then format(b.timeToSteady.value.0, b.timeToSteady.value.1, Brief) else "")
  }

  /** One execution without a steady state blanks every statistic cell of its
      benchmark; a benchmark without changepoints has no time-to-steady cell. */
  lemma StatisticCells(bench: string, execs: seq<ProcessExecution>, halfBound: real, delta: real,
                       ci: seq<real> -> (real, real), style: string, format: (real, real, FormatMode) -> string)
    requires |execs| >= 1 && AllWellFormed(execs, halfBound, delta)
    ensures var e := EntryOf(SummaryOf(bench, execs, halfBound, delta, ci), style, format);
      && ((exists p :: 0 <= p < |execs| && execs[p].classification == NoSteadyState) <==>
            e.lastMean == "" && e.lastCpt == "" && e.timeToSteady == "" &&
            SummaryOf(bench, execs, halfBound, delta, ci).steadyTime == None)
      && ((forall p :: 0 <= p < |execs| ==>
             execs[p].classification != NoSteadyState && execs[p].changepoints == []) ==>
            e.timeToSteady == "" && e.lastCpt == format(0.0, 0.0, AsInteger))
  {
    SummaryNoSteadyState(bench, execs, halfBound, delta, ci);
    if forall p :: 0 <= p < |execs| ==> execs[p].classification != NoSteadyState && execs[p].changepoints == [] {
      SummaryNoChangepoints(bench, execs, halfBound, delta, ci);
    }
  }

  ghost predicate IsEntry(b: BenchmarkSummary, e: LatexEntry, symbol: string -> string,
                    format: (real, real, FormatMode) -> string)
    requires StyleDefined(b)
  {
    IsStyle(b, symbol, e.style) && e == EntryOf(b, e.style, format)
  }

  /** The position of the last summary named `name`, if any. */
  function LastWith(list: seq<BenchmarkSummary>, name: string): (r: Option<nat>)
    ensures r.Some? ==> r.value < |list| && list[r.value].benchmarkName == name &&
                        forall j :: r.value < j < |list| ==> list[j].benchmarkName != name
    ensures r.None? ==> forall j :: 0 <= j < |list| ==> list[j].benchmarkName != name
  {
    if list == [] then None
    else if list[|list| - 1].benchmarkName == name then Some(|list| - 1)
    else LastWith(list[..|list| - 1], name)
  }

  predicate AllStyleDefined(list: seq<BenchmarkSummary>)
  {
    forall i :: 0 <= i < |list| ==> StyleDefined(list[i])
  }

  /** latex_summary[vm] for the list of one VM: one entry per benchmark name,
      made from the last summary with that name. */
  ghost predicate VmTable(list: seq<BenchmarkSummary>, table: map<string, LatexEntry>,
                          symbol: string -> string, format: (real, real, FormatMode) -> string)
    requires AllStyleDefined(list)
  {
    forall name ::
      && (name in table <==> LastWith(list, name).Some?)
      && (name in table ==> IsEntry(list[LastWith(list, name).value], table[name], symbol, format))
  }

  function NamesOf(list: seq<BenchmarkSummary>): set<string>
  {
    set i | 0 <= i < |list| :: list[i].benchmarkName
  }

  lemma VmTableSnoc(list: seq<BenchmarkSummary>, table: map<string, LatexEntry>, b: BenchmarkSummary,
                    e: LatexEntry, symbol: string -> string, format: (real, real, FormatMode) -> string)
    requires AllStyleDefined(list) && StyleDefined(b)
    requires VmTable(list, table, symbol, format)
    requires IsEntry(b, e, symbol, format)
    ensures AllStyleDefined(list + [b])
    ensures VmTable(list + [b], table[b.benchmarkName := e], symbol, format)
  {
    assert (list + [b])[..|list|] == list;
    forall name ensures LastWith(list + [b], name) ==
      if name == b.benchmarkName then Some(|list|) else LastWith(list, name)
    {
    }
  }

  /** Lines 140-189 for one VM's list of summaries. */
  method ConvertVm(list: seq<BenchmarkSummary>, symbol: string -> string,
                   format: (real, real, FormatMode) -> string)
    returns (table: map<string, LatexEntry>, names: set<string>)
    requires AllStyleDefined(list)
    ensures VmTable(list, table, symbol, format)
    ensures names == NamesOf(list)
  {
    table := map[];
    names := {};
    for i := 0 to |list|
      invariant VmTable(list[..i], table, symbol, format)
      invariant names == NamesOf(list[..i])
    {
      var b := list[i];
      names := names + {b.benchmarkName};
      var style := StyleOf(b, symbol);
      assert list[..i + 1] == list[..i] + [b];
      VmTableSnoc(list[..i], table, b, EntryOf(b, style, format), symbol, format);
      table := table[b.benchmarkName := EntryOf(b, style, format)];
    }
    assert list[..|list|] == list;
  }

  /** The benchmark names of the VMs in `vms`. */
  function AllNames(summaries: map<string, seq<BenchmarkSummary>>, vms: set<string>): set<string>
  {
    set vm, i | vm in vms && vm in summaries && 0 <= i < |summaries[vm]| :: summaries[vm][i].benchmarkName
  }

  lemma AllNamesAdd(summaries: map<string, seq<BenchmarkSummary>>, vms: set<string>, vm: string)
    requires vm in summaries
    ensures AllNames(summaries, vms + {vm}) == AllNames(summaries, vms) + NamesOf(summaries[vm])
  {
    forall name | name in NamesOf(summaries[vm]) ensures name in AllNames(summaries, vms + {vm}) {
      var i :| 0 <= i < |summaries[vm]| && summaries[vm][i].benchmarkName == name;
    }
  }

  /** Every VM's table is made from that VM's list of summaries. */
  ghost predicate Tables(summaries: map<string, seq<BenchmarkSummary>>, latexSummary: map<string, map<string, LatexEntry>>,
                         symbol: string -> string, format: (real, real, FormatMode) -> string)
  {
    forall vm :: vm in latexSummary ==>
      vm in summaries && AllStyleDefined(summaries[vm]) &&
      VmTable(summaries[vm], latexSummary[vm], symbol, format)
  }

  lemma TablesAdd(summaries: map<string, seq<BenchmarkSummary>>, latexSummary: map<string, map<string, LatexEntry>>,
                  vm: string, table: map<string, LatexEntry>,
                  symbol: string -> string, format: (real, real, FormatMode) -> string)
    requires Tables(summaries, latexSummary, symbol, format)
    requires vm in summaries && AllStyleDefined(summaries[vm])
    requires VmTable(summaries[vm], table, symbol, format)
    ensures Tables(summaries, latexSummary[vm := table], symbol, format)
  {
  }

  /** Lines 137-189 for the VMs of one machine. */
  method ConvertMachine(summaries: map<string, seq<BenchmarkSummary>>,
                        symbol: string -> string, format: (real, real, FormatMode) -> string)
    returns (benchmarkNames: seq<string>, latexSummary: map<string, map<string, LatexEntry>>)
    requires forall vm :: vm in summaries ==> AllStyleDefined(summaries[vm])
    ensures benchmarkNames == SortedEnumeration(AllNames(summaries, summaries.Keys))
    ensures latexSummary.Keys == summaries.Keys
    ensures Tables(summaries, latexSummary, symbol, format)
  {
    var names: set<string> := {};
    latexSummary := map[];
    var rest := summaries.Keys;
    while rest != {}
      invariant rest <= summaries.Keys
      invariant latexSummary.Keys == summaries.Keys - rest
      invariant Tables(summaries, latexSummary, symbol, format)
      invariant names == AllNames(summaries, summaries.Keys - rest)
      decreases rest
    {
      var vm :| vm in rest;
      var table, vmNames := ConvertVm(summaries[vm], symbol, format);
      TablesAdd(summaries, latexSummary, vm, table, symbol, format);
      latexSummary := latexSummary[vm := table];
      names := names + vmNames;
      AllNamesAdd(summaries, summaries.Keys - rest, vm);
      assert summaries.Keys - (rest - {vm}) == (summaries.Keys - rest) + {vm};
      rest := rest - {vm};
    }
    assert summaries.Keys - rest == summaries.Keys;
    benchmarkNames := SortStrings(names);
  }

  /** convert_to_latex: the machine, the sorted set of benchmark names, and
      the cell contents per VM and benchmark. */
  method ConvertToLatex(summaryData: map<string, map<string, seq<BenchmarkSummary>>>,
                        symbol: string -> string, format: (real, real, FormatMode) -> string)
    returns (machine: string, benchmarkNames: seq<string>, latexSummary: map<string, map<string, LatexEntry>>)
    requires |summaryData| == 1
    requires forall m, vm :: m in summaryData && vm in summaryData[m] ==> AllStyleDefined(summaryData[m][vm])
    ensures machine in summaryData
    ensures benchmarkNames == SortedEnumeration(AllNames(summaryData[machine], summaryData[machine].Keys))
    ensures latexSummary.Keys == summaryData[machine].Keys
    ensures Tables(summaryData[machine], latexSummary, symbol, format)
  {
    machine :| machine in summaryData;
    benchmarkNames, latexSummary := ConvertMachine(summaryData[machine], symbol, format);
  }
}
