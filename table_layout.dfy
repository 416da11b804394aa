/** The column layout and cell fallback of write_latex_table
    (warmup/summary_statistics.py lines 194-299). */
module TableLayout {
  import opened Wrappers
  import opened Numeric
  import opened Text
  import opened Summarise
  import opened LatexCells

  /** The VM in slot v of the padded VM list, or None past its end. */
  function Slot(allVms: seq<string>, v: nat): Option<string>
  {
    if v < |allVms| then Some(allVms[v]) else None
  }

  /** The first `len` slots of split i when each split holds `per` slots. */
  function Chunk(allVms: seq<string>, i: nat, per: nat, len: nat): seq<Option<string>>
  {
    seq(len, j requires 0 <= j < len => Slot(allVms, i * per + j))
  }

  /** The layout: numSplits contiguous chunks of ceil(n / numSplits) slots. */
  function Layout(allVms: seq<string>, numSplits: nat): seq<seq<Option<string>>>
    requires numSplits > 0
  {
    var per := CeilDiv(|allVms|, numSplits);
    seq(numSplits, i requires 0 <= i < numSplits => Chunk(allVms, i, per, per))
  }

  /** How many slots of split i are filled while split s is being filled
      and already holds o slots. */
  function Filled(i: nat, s: nat, o: nat, per: nat): nat
  {
    if i < s then per else if i == s then o else 0
  }

  lemma MulAtLeast(k: int, per: nat)
    requires k >= 1
    ensures k * per >= per
  {
  }

  lemma MulMono(a: nat, b: nat, per: nat)
    requires a <= b
    ensures a * per <= b * per
  {
  }

  lemma MulSucc(a: nat, per: nat)
    ensures (a + 1) * per == a * per + per
  {
  }

  lemma MulGap(a: nat, b: nat, per: nat)
    requires a < b
    ensures a * per + per <= b * per
  {
    MulAtLeast(b - a, per);
    assert (b - a) * per == b * per - a * per;
  }

  lemma MulLess(a: nat, b: nat, per: nat)
    requires a * per < b * per
    ensures a < b
  {
  }

  /** Division with remainder has a unique quotient and remainder. */
  lemma DivUnique(x: nat, per: nat, q: nat, r: nat)
    requires per > 0 && r < per && x == q * per + r
    ensures x / per == q && x % per == r
  {
    var q0, r0 := x / per, x % per;
    assert (q - q0) * per == r0 - r;
    if q > q0 {
      MulAtLeast(q - q0, per);
    } else if q < q0 {
      MulAtLeast(q0 - q, per);
    }
  }

  /** The slot after slot s * per + o ends a split exactly when it is the
      per-th slot of split s. */
  lemma ModOffset(x: nat, per: nat, s: nat, o: nat)
    requires per > 0 && 0 < o <= per && x == s * per + o
    ensures x % per == 0 <==> o == per
  {
    if o == per {
      DivUnique(x, per, s + 1, 0);
    } else {
      DivUnique(x, per, s, o);
    }
  }

  /** Slot vmIdx is offset o of split s, and when splits are not empty,
      split s exists exactly while slots remain. */
  ghost predicate AtSlot(vmIdx: nat, per: nat, s: nat, o: nat, numSplits: nat)
  {
    && vmIdx == s * per + o
    && s <= numSplits && o <= per
    && (per > 0 ==> o < per && (s < numSplits <==> vmIdx < numSplits * per))
  }

  /** Placing one more slot: the position either stays in split s or moves to
      the start of split s + 1, and the end of the rounded list is reached
      only at the end of the last split. */
  lemma SlotAdvance(vmIdx: nat, per: nat, s: nat, o: nat, numSplits: nat)
    requires AtSlot(vmIdx, per, s, o, numSplits) && vmIdx < numSplits * per
    ensures s < numSplits && o < per
    ensures (vmIdx + 1) % per == 0 <==> o + 1 == per
    ensures AtSlot(vmIdx + 1, per, if o + 1 == per then s + 1 else s, if o + 1 == per then 0 else o + 1, numSplits)
  {
    ModOffset(vmIdx + 1, per, s, o + 1);
    MulSucc(s, per);
    if o + 1 == per {
      if s + 1 < numSplits {
        MulGap(s + 1, numSplits, per);
      }
    } else {
      MulMono(s + 1, numSplits, per);
    }
  }

  /** Splits 0 .. s-1 are full, split s holds its first o slots and the
      later splits are empty. */
  ghost predicate DealtUpTo(allVms: seq<string>, splits: seq<seq<Option<string>>>, numSplits: nat,
                            per: nat, s: nat, o: nat)
  {
    && |splits| == numSplits
    && forall i :: 0 <= i < numSplits ==> splits[i] == Chunk(allVms, i, per, Filled(i, s, o, per))
  }

  /** Dealing slot s * per + o into split s keeps the splits dealt up to the
      next position. */
  lemma DealStep(allVms: seq<string>, splits: seq<seq<Option<string>>>, numSplits: nat,
                 per: nat, s: nat, o: nat)
    requires DealtUpTo(allVms, splits, numSplits, per, s, o) && s < numSplits && o < per
    ensures var next := splits[s := splits[s] + [Slot(allVms, s * per + o)]];
      DealtUpTo(allVms, next, numSplits, per, if o + 1 == per then s + 1 else s, if o + 1 == per then 0 else o + 1)
  {
    var next := splits[s := splits[s] + [Slot(allVms, s * per + o)]];
    assert next[s] == Chunk(allVms, s, per, o + 1);
  }

  /** Once every split is full, the dealt splits are the layout. */
  lemma DealtAll(allVms: seq<string>, splits: seq<seq<Option<string>>>, numSplits: nat, s: nat, o: nat)
    requires numSplits > 0
    requires var per := CeilDiv(|allVms|, numSplits);
      DealtUpTo(allVms, splits, numSplits, per, s, o) && o <= per && (per > 0 ==> s >= numSplits)
    ensures splits == Layout(allVms, numSplits)
  {
    var layout := Layout(allVms, numSplits);
    forall i | 0 <= i < numSplits
      ensures splits[i] == layout[i]
    {
    }
  }

  /** Lines 202-203 in exact arithmetic: rounding the VM count up to a
      multiple of the split count and dividing back gives ceil(n / splits). */
  lemma RoundedPerSplit(numVms: nat, numSplits: nat)
    requires numSplits > 0
    ensures var rounded := Ceil(numVms as real / numSplits as real) * numSplits;
      && rounded == numSplits * CeilDiv(numVms, numSplits)
      && (rounded as real / numSplits as real).Floor == CeilDiv(numVms, numSplits)
  {
    CeilOfRatio(numVms, numSplits);
    var per := CeilDiv(numVms, numSplits);
    var rounded := Ceil(numVms as real / numSplits as real) * numSplits;
    assert rounded as real / numSplits as real == per as real;
  }

  /** Lines 200-203: decide how many slots each split holds, then deal the
      sorted VMs into the splits. */
  method SplitLayout(allVms: seq<string>, numSplits: nat)
    returns (splits: seq<seq<Option<string>>>, vmsPerSplit: nat)
    requires numSplits > 0
    ensures vmsPerSplit == CeilDiv(|allVms|, numSplits)
    ensures vmsPerSplit as real == Ceil(|allVms| as real / numSplits as real) as real
    ensures splits == Layout(allVms, numSplits)
  {
    var numVms := |allVms|;
    RoundedPerSplit(numVms, numSplits);
    CeilOfRatio(numVms, numSplits);
    var numVmsRounded: nat := Ceil(numVms as real / numSplits as real) * numSplits;
    vmsPerSplit := (numVmsRounded as real / numSplits as real).Floor;
    splits := Deal(allVms, numSplits, numVmsRounded, vmsPerSplit);
  }

  /** Lines 204-215: walk the rounded slot list, appending VM vmIdx (None past
      the end of the list) to the current split and moving to the next split
      after every vmsPerSplit slots. */
  method Deal(allVms: seq<string>, numSplits: nat, numVmsRounded: nat, vmsPerSplit: nat)
    returns (splits: seq<seq<Option<string>>>)
    requires numSplits > 0
    requires vmsPerSplit == CeilDiv(|allVms|, numSplits) && numVmsRounded == numSplits * vmsPerSplit
    ensures splits == Layout(allVms, numSplits)
  {
    ghost var per := vmsPerSplit;
    splits := seq(numSplits, i => []);
    var vmNum := 0;
    var splitIdx := 0;
    ghost var offset := 0;
    for vmIdx := 0 to numVmsRounded
      invariant vmNum == vmIdx
      invariant AtSlot(vmIdx, per, splitIdx, offset, numSplits)
      invariant DealtUpTo(allVms, splits, numSplits, per, splitIdx, offset)
    {
      SlotAdvance(vmIdx, per, splitIdx, offset, numSplits);
      DealStep(allVms, splits, numSplits, per, splitIdx, offset);
      var vm := if vmIdx < |allVms| then Some(allVms[vmIdx]) else None;
      splits := splits[splitIdx := splits[splitIdx] + [vm]];
      vmNum := vmNum + 1;
      if vmNum % vmsPerSplit == 0 {
        splitIdx := splitIdx + 1;
        offset := 0;
      } else {
        offset := offset + 1;
      }
    }
    DealtAll(allVms, splits, numSplits, splitIdx, offset);
  }

  /** Seven VMs in two splits: two splits of four slots, contiguous runs of
      the sorted VMs, the last slot of the second split padding. */
  lemma ExampleSevenVmsTwoSplits()
    ensures var s := Layout(["a", "b", "c", "d", "e", "f", "g"], 2);
      && CeilDiv(7, 2) == 4
      && s == [[Some("a"), Some("b"), Some("c"), Some("d")], [Some("e"), Some("f"), Some("g"), None]]
  {
    var vms := ["a", "b", "c", "d", "e", "f", "g"];
    var s := Layout(vms, 2);
    assert CeilDiv(7, 2) == 4;
    assert s[0] == Chunk(vms, 0, 4, 4);
    assert s[1] == Chunk(vms, 1, 4, 4);
    assert vms[0] == "a" && vms[1] == "b" && vms[2] == "c" && vms[3] == "d";
    assert vms[4] == "e" && vms[5] == "f" && vms[6] == "g";
    assert Chunk(vms, 0, 4, 4) == [Slot(vms, 0), Slot(vms, 1), Slot(vms, 2), Slot(vms, 3)];
    assert Chunk(vms, 1, 4, 4) == [Slot(vms, 4), Slot(vms, 5), Slot(vms, 6), Slot(vms, 7)];
  }

  /** Slot (i, j) of the layout is VM i * per + j; two slots in range hold the
      same position only if they are the same slot. */
  lemma SlotInjective(i: nat, j: nat, i': nat, j': nat, per: nat)
    requires j < per && j' < per
    requires i * per + j == i' * per + j'
    ensures i == i' && j == j'
  {
    DivUnique(i * per + j, per, i, j);
    DivUnique(i' * per + j', per, i', j');
  }

  /** VM v sits in split v / per at offset v % per, both in range. */
  lemma SlotOfVm(v: nat, n: nat, numSplits: nat)
    requires numSplits > 0 && v < n
    ensures var per := CeilDiv(n, numSplits);
      per > 0 && v / per < numSplits && v % per < per && (v / per) * per + v % per == v
  {
    var per := CeilDiv(n, numSplits);
    DivUnique(v, per, v / per, v % per);
    MulLess(v / per, numSplits, per);
  }

  /** The layout has numSplits splits of per slots each, and a slot is None
      exactly past the end of the VM list. */
  lemma LayoutShape(allVms: seq<string>, numSplits: nat)
    requires numSplits > 0
    ensures var per := CeilDiv(|allVms|, numSplits);
            var splits := Layout(allVms, numSplits);
      && |splits| == numSplits
      && (forall i :: 0 <= i < numSplits ==> |splits[i]| == per)
      && (forall i, j :: 0 <= i < numSplits && 0 <= j < per ==>
            (splits[i][j] == None <==> i * per + j >= |allVms|))
      && |allVms| <= numSplits * per
  {
    var per := CeilDiv(|allVms|, numSplits);
    var splits := Layout(allVms, numSplits);
    forall i, j | 0 <= i < numSplits && 0 <= j < per
      ensures splits[i][j] == Slot(allVms, i * per + j)
    {
    }
  }

  /** VM v of the list is in split v / per at offset v % per. */
  lemma VmSlot(allVms: seq<string>, numSplits: nat, v: nat)
    requires numSplits > 0 && v < |allVms|
    ensures var per := CeilDiv(|allVms|, numSplits);
      v / per < numSplits && v % per < per && Layout(allVms, numSplits)[v / per][v % per] == Some(allVms[v])
  {
    var per := CeilDiv(|allVms|, numSplits);
    SlotOfVm(v, |allVms|, numSplits);
    var q, r := v / per, v % per;
    var chunk := Layout(allVms, numSplits)[q];
    assert chunk == Chunk(allVms, q, per, per);
    assert chunk[r] == Slot(allVms, q * per + r);
  }

  /** Every VM appears in the layout, in split v / per at offset v % per. */
  lemma LayoutPlacesEachVm(allVms: seq<string>, numSplits: nat)
    requires numSplits > 0
    ensures var per := CeilDiv(|allVms|, numSplits);
            var splits := Layout(allVms, numSplits);
      forall v :: 0 <= v < |allVms| ==>
        v / per < numSplits && v % per < per && splits[v / per][v % per] == Some(allVms[v])
  {
    forall v | 0 <= v < |allVms| {
      VmSlot(allVms, numSplits, v);
    }
  }

  /** When the VMs are distinct, no VM appears in two slots of the layout. */
  lemma LayoutNoDuplicates(allVms: seq<string>, numSplits: nat)
    requires numSplits > 0
    requires forall a, b :: 0 <= a < b < |allVms| ==> allVms[a] != allVms[b]
    ensures var per := CeilDiv(|allVms|, numSplits);
            var splits := Layout(allVms, numSplits);
      forall i, j, i', j' ::
        (0 <= i < numSplits && 0 <= j < per && 0 <= i' < numSplits && 0 <= j' < per &&
         splits[i][j].Some? && splits[i][j] == splits[i'][j']) ==> i == i' && j == j'
  {
    var per := CeilDiv(|allVms|, numSplits);
    var splits: seq<seq<Option<string>>> := Layout(allVms, numSplits);
    forall i, j, i', j' | 0 <= i < numSplits && 0 <= j < per && 0 <= i' < numSplits && 0 <= j' < per &&
                          splits[i][j].Some? && splits[i][j] == splits[i'][j']
      ensures i == i' && j == j'
    {
      var x, x' := i * per + j, i' * per + j';
      assert splits[i][j] == Slot(allVms, x) && splits[i'][j'] == Slot(allVms, x');
      assert allVms[x] == allVms[x'];
      SlotInjective(i, j, i', j', per);
    }
  }

  /** Lines 198-215: the VMs of the summary, sorted, dealt into the splits. */
  method VmSplits(summary: map<string, map<string, LatexEntry>>, numSplits: nat)
    returns (splits: seq<seq<Option<string>>>, vmsPerSplit: nat)
    requires numSplits > 0
    ensures vmsPerSplit == CeilDiv(|summary|, numSplits)
    ensures splits == Layout(SortedEnumeration(summary.Keys), numSplits)
  {
    var allVms := SortStrings(summary.Keys);
    assert |summary.Keys| == |summary|;
    splits, vmsPerSplit := SplitLayout(allVms, numSplits);
  }

  /** A strictly sorted list has no repeats. */
  lemma SortedDistinct(s: seq<string>)
    requires StrictlySorted(s)
    ensures forall a, b :: 0 <= a < b < |s| ==> s[a] != s[b]
  {
    forall a, b | 0 <= a < b < |s| ensures s[a] != s[b] {
      BelowIrreflexive(s[a]);
    }
  }

  /** Every VM of the summary sits in some slot of the layout. */
  lemma EveryVmPlaced(summary: map<string, map<string, LatexEntry>>, numSplits: nat)
    requires numSplits > 0
    ensures var per := CeilDiv(|summary|, numSplits);
            var splits := Layout(SortedEnumeration(summary.Keys), numSplits);
      forall vm :: vm in summary ==>
        exists i, j :: 0 <= i < numSplits && 0 <= j < per && splits[i][j] == Some(vm)
  {
    var allVms := SortedEnumeration(summary.Keys);
    assert |summary.Keys| == |summary|;
    forall vm | vm in summary
      ensures exists i, j :: 0 <= i < numSplits && 0 <= j < CeilDiv(|allVms|, numSplits) &&
                             Layout(allVms, numSplits)[i][j] == Some(vm)
    {
      var v :| 0 <= v < |allVms| && allVms[v] == vm;
      VmSlot(allVms, numSplits, v);
    }
  }

  /** Every filled slot of the layout holds a VM of the summary. */
  lemma OnlySummaryVms(summary: map<string, map<string, LatexEntry>>, numSplits: nat)
    requires numSplits > 0
    ensures var per := CeilDiv(|summary|, numSplits);
            var splits := Layout(SortedEnumeration(summary.Keys), numSplits);
      forall i, j :: 0 <= i < numSplits && 0 <= j < per && splits[i][j].Some? ==>
        splits[i][j].value in summary
  {
    var allVms := SortedEnumeration(summary.Keys);
    assert |summary.Keys| == |summary|;
    var per := CeilDiv(|allVms|, numSplits);
    var splits: seq<seq<Option<string>>> := Layout(allVms, numSplits);
    forall i, j | 0 <= i < numSplits && 0 <= j < per && splits[i][j].Some?
      ensures splits[i][j].value in summary
    {
      assert splits[i][j] == Slot(allVms, i * per + j);
    }
  }

  /** No VM of the summary sits in two slots of the layout. */
  lemma NoVmTwice(summary: map<string, map<string, LatexEntry>>, numSplits: nat)
    requires numSplits > 0
    ensures var per := CeilDiv(|summary|, numSplits);
            var splits := Layout(SortedEnumeration(summary.Keys), numSplits);
      forall i, j, i', j' ::
        (0 <= i < numSplits && 0 <= j < per && 0 <= i' < numSplits && 0 <= j' < per &&
         splits[i][j].Some? && splits[i][j] == splits[i'][j']) ==> i == i' && j == j'
  {
    var allVms := SortedEnumeration(summary.Keys);
    assert |summary.Keys| == |summary|;
    SortedDistinct(allVms);
    LayoutNoDuplicates(allVms, numSplits);
  }

  /** The length of the shortest list. */
  function MinLength<T>(lists: seq<seq<T>>): (m: nat)
    requires |lists| > 0
    ensures forall i :: 0 <= i < |lists| ==> m <= |lists[i]|
    ensures exists i :: 0 <= i < |lists| && m == |lists[i]|
  {
    if |lists| == 1 then |lists[0]|
    else
      var rest := MinLength(lists[1..]);
      assert forall i :: 1 <= i < |lists| ==> lists[i] == lists[1..][i - 1];
      if |lists[0]| <= rest then |lists[0]| else rest
  }

  /** zip(*splits) (line 238): row j takes the j-th entry of every split,
      up to the shortest split. */
  function Zip<T>(lists: seq<seq<T>>): seq<seq<T>>
  {
    if lists == [] then []
    else
      var len := MinLength(lists);
      seq(len, j requires 0 <= j < len => seq(|lists|, i requires 0 <= i < |lists| => lists[i][j]))
  }

  /** zip(*lists) transposes: it has as many rows as the shortest list, and
      entry i of row j is entry j of list i. */
  lemma ZipTransposes<T>(lists: seq<seq<T>>)
    ensures lists == [] ==> Zip(lists) == []
    ensures lists != [] ==> |Zip(lists)| == MinLength(lists)
    ensures forall j :: 0 <= j < |Zip(lists)| ==>
      |Zip(lists)[j]| == |lists| &&
      forall i :: 0 <= i < |lists| ==> j < |lists[i]| && Zip(lists)[j][i] == lists[i][j]
  {
  }

  /** The rows of the table: row j pairs VM j of the first split with VM
      per + j of the second, and so on. */
  lemma LayoutRows(allVms: seq<string>, numSplits: nat)
    requires numSplits > 0
    ensures var per := CeilDiv(|allVms|, numSplits);
            var rows := Zip(Layout(allVms, numSplits));
      && |rows| == per
      && forall j :: 0 <= j < per ==>
           |rows[j]| == numSplits &&
           forall i :: 0 <= i < numSplits ==> rows[j][i] == Slot(allVms, i * per + j)
  {
    var per := CeilDiv(|allVms|, numSplits);
    var splits := Layout(allVms, numSplits);
    var m := MinLength(splits);
    var i :| 0 <= i < |splits| && m == |splits[i]|;
    assert |splits[0]| == per;
  }

  /** The filler LaTeX put in empty cells. */
  const BlankCell := "\\begin{minipage}[c][\\blankheight]{0pt}\\end{minipage}"

  /** The classification cell wrapping of line 258. */
  function Wrap(style: string): string
  {
    "\\multicolumn{1}{l}{" + style + "}"
  }

  /** The four cells of one (VM, benchmark) pair. */
  datatype Cells = Cells(classification: string, lastCpt: string, timeSteady: string, lastMean: string)

  function BlankIfEmpty(cell: string): string
  {
    if cell == "" then BlankCell else cell
  }

  /** Lines 244-267 as written: the flat check looks at the wrapped style. */
  function Fallback(summary: map<string, map<string, LatexEntry>>, vm: string, bench: string,
                    symbol: string -> string): Cells
  {
    if vm in summary && bench in summary[vm] then
      var e := summary[vm][bench];
      var classification := Wrap(e.style);
      var flat := classification == symbol(Flat);
      Cells(classification,
            if flat then BlankCell else BlankIfEmpty(e.lastCpt),
            if flat then BlankCell else BlankIfEmpty(e.timeToSteady),
            BlankIfEmpty(e.lastMean))
    else
      Cells("", BlankCell, BlankCell, BlankCell)
  }

  /** Lines 244-267: the cells of one (VM, benchmark) pair, with blanks for
      a pair that has no summary and for empty statistics. */
  method FillCells(summary: map<string, map<string, LatexEntry>>, vm: string, bench: string,
                   symbol: string -> string) returns (cells: Cells)
    ensures cells == Fallback(summary, vm, bench, symbol)
    ensures cells.lastCpt != "" && cells.timeSteady != "" && cells.lastMean != ""
    ensures !(vm in summary && bench in summary[vm]) ==> cells == Cells("", BlankCell, BlankCell, BlankCell)
    ensures vm in summary && bench in summary[vm] ==>
      && cells.classification == Wrap(summary[vm][bench].style)
      && (summary[vm][bench].lastMean != "" ==> cells.lastMean == summary[vm][bench].lastMean)
  {
    var classification, lastCpt, timeSteady, lastMean;
    if vm in summary && bench in summary[vm] {
      var thisSummary := summary[vm][bench];
      classification := thisSummary.style;
      lastCpt := thisSummary.lastCpt;
      timeSteady := thisSummary.timeToSteady;
      lastMean := thisSummary.lastMean;
      classification := "\\multicolumn{1}{l}{" + classification + "}";
      if classification == symbol(Flat) {
        lastCpt := BlankCell;
        timeSteady := BlankCell;
      }
    } else {
      // KeyError
      lastCpt := BlankCell;
      timeSteady := BlankCell;
      lastMean := BlankCell;
      classification := "";
    }
    if lastCpt == "" {
      lastCpt := BlankCell;
    }
    if timeSteady == "" {
      timeSteady := BlankCell;
    }
    if lastMean == "" {
      lastMean := BlankCell;
    }
    cells := Cells(classification, lastCpt, timeSteady, lastMean);
  }

  /** The cells of one benchmark row: one group per VM of the row, padding
      slots (None) contributing nothing (line 242). */
  function RowCellsOf(rowVms: seq<Option<string>>, summary: map<string, map<string, LatexEntry>>, bench: string,
                      symbol: string -> string): seq<Cells>
  {
    if rowVms == [] then []
    else
      var last := rowVms[|rowVms| - 1];
      RowCellsOf(rowVms[..|rowVms| - 1], summary, bench, symbol) +
        (if last.Some? then [Fallback(summary, last.value, bench, symbol)] else [])
  }

  /** A row without padding has one group of cells per VM, in column order;
      padding only ever drops cells, so a row never has more groups than VMs. */
  lemma {:induction false} RowCellsPerVm(rowVms: seq<Option<string>>, summary: map<string, map<string, LatexEntry>>,
                                         bench: string, symbol: string -> string)
    ensures |RowCellsOf(rowVms, summary, bench, symbol)| <= |rowVms|
    ensures (forall i :: 0 <= i < |rowVms| ==> rowVms[i].Some?) ==>
      && |RowCellsOf(rowVms, summary, bench, symbol)| == |rowVms|
      && forall i :: 0 <= i < |rowVms| ==>
           RowCellsOf(rowVms, summary, bench, symbol)[i] == Fallback(summary, rowVms[i].value, bench, symbol)
  {
    if rowVms != [] {
      var pre := rowVms[..|rowVms| - 1];
      RowCellsPerVm(pre, summary, bench, symbol);
      if forall i :: 0 <= i < |rowVms| ==> rowVms[i].Some? {
        assert forall i :: 0 <= i < |pre| ==> pre[i] == rowVms[i];
      }
    }
  }

  /** Lines 241-267: the loop over the VMs of one row for one benchmark. */
  method RowCells(rowVms: seq<Option<string>>, summary: map<string, map<string, LatexEntry>>, bench: string,
                  symbol: string -> string) returns (row: seq<Cells>)
    ensures row == RowCellsOf(rowVms, summary, bench, symbol)
  {
    row := [];
    for k := 0 to |rowVms|
      invariant row == RowCellsOf(rowVms[..k], summary, bench, symbol)
    {
      assert rowVms[..k + 1][..k] == rowVms[..k];
      if rowVms[k].None? {
        continue;
      }
      var cells := FillCells(summary, rowVms[k].value, bench, symbol);
      row := row + [cells];
    }
    assert rowVms[..|rowVms|] == rowVms;
  }

  /** As written, a benchmark whose style is the bare flat symbol keeps its
      iteration cells: the wrapped style is longer than the symbol, so the
      comparison at line 259 fails. */
  lemma FlatCheckMissesFlat(summary: map<string, map<string, LatexEntry>>, vm: string, bench: string,
                            symbol: string -> string)
    requires vm in summary && bench in summary[vm]
    requires summary[vm][bench].style == symbol(Flat)
    ensures Fallback(summary, vm, bench, symbol).lastCpt == BlankIfEmpty(summary[vm][bench].lastCpt)
    ensures Fallback(summary, vm, bench, symbol).timeSteady == BlankIfEmpty(summary[vm][bench].timeToSteady)
  {
    var s := summary[vm][bench].style;
    assert |Wrap(s)| == |s| + 20;
  }

  /** A concrete instance: a flat benchmark with a steady iteration cell "3"
      shows "3" where a blank was meant. */
  lemma FlatCheckMissesFlatExample()
    ensures var summary := map["vm" := map["b" := LatexEntry("F", "3", "1.0", "0.5")]];
      Fallback(summary, "vm", "b", s => if s == Flat then "F" else "?").lastCpt == "3"
  {
    var summary := map["vm" := map["b" := LatexEntry("F", "3", "1.0", "0.5")]];
    FlatCheckMissesFlat(summary, "vm", "b", s => if s == Flat then "F" else "?");
  }

  /** The evidently intended rule: compare the style before wrapping it. */
  function FallbackIntended(summary: map<string, map<string, LatexEntry>>, vm: string, bench: string,
                            symbol: string -> string): Cells
  {
    if vm in summary && bench in summary[vm] then
      var e := summary[vm][bench];
      var flat := e.style == symbol(Flat);
      Cells(Wrap(e.style),
            if flat then BlankCell else BlankIfEmpty(e.lastCpt),
            if flat then BlankCell else BlankIfEmpty(e.timeToSteady),
            BlankIfEmpty(e.lastMean))
    else
      Cells("", BlankCell, BlankCell, BlankCell)
  }

  /** With the intended rule, a flat benchmark's iteration cells are blank,
      and every other pair gets exactly the cells the code as written gives. */
  lemma FlatCellsBlanked(summary: map<string, map<string, LatexEntry>>, vm: string, bench: string,
                         symbol: string -> string)
    ensures var c := FallbackIntended(summary, vm, bench, symbol);
      && (vm in summary && bench in summary[vm] && summary[vm][bench].style == symbol(Flat) ==>
            c.lastCpt == BlankCell && c.timeSteady == BlankCell)
      && (vm in summary && bench in summary[vm] && summary[vm][bench].style != symbol(Flat) &&
          Wrap(summary[vm][bench].style) != symbol(Flat) ==>
            c == Fallback(summary, vm, bench, symbol))
      && (!(vm in summary && bench in summary[vm]) ==> c == Fallback(summary, vm, bench, symbol))
  {
  }

  /** The LaTeX that ends a benchmark row: tight spacing inside a block of
      rows, normal spacing before a midrule. */
  const TightEnd := "\\\\[-3pt] \n"
  const PlainEnd := "\\\\ \n"

  /** Line 288 as written: the test uses the number of VMs. */
  function RowTerminator(benchIdx: nat, numVms: nat): string
  {
    if benchIdx < numVms as int - 1 then TightEnd else PlainEnd
  }

  /** The evidently intended test: the last benchmark row of a block, the
      one just above a midrule, ends plainly. */
  function RowTerminatorIntended(benchIdx: nat, numBenchmarks: nat): string
  {
    if benchIdx < numBenchmarks as int - 1 then TightEnd else PlainEnd
  }

  /** As written, with two benchmarks and five VMs the last row of a block
      gets tight spacing although a midrule follows, and with five
      benchmarks and two VMs the second row ends plainly mid-block. */
  lemma RowTerminatorMismatch()
    ensures RowTerminator(1, 5) == TightEnd && RowTerminatorIntended(1, 2) == PlainEnd
    ensures RowTerminator(1, 2) == PlainEnd && RowTerminatorIntended(1, 5) == TightEnd
  {
    assert TightEnd != PlainEnd by {
      assert |TightEnd| != |PlainEnd|;
    }
  }

  /** Over a whole block of at least two benchmark rows, the test as written
      gives every row the intended terminator exactly when the number of VMs
      equals the number of benchmarks. */
  lemma RowTerminatorAgreement(numBenchmarks: nat, numVms: nat)
    requires numBenchmarks >= 2
    ensures (forall b :: 0 <= b < numBenchmarks ==>
               RowTerminator(b, numVms) == RowTerminatorIntended(b, numBenchmarks))
            <==> numVms == numBenchmarks
  {
    assert TightEnd != PlainEnd by {
      assert |TightEnd| != |PlainEnd|;
    }
    if numVms < numBenchmarks {
      var b := if numVms == 0 then 0 else numVms - 1;
      assert RowTerminator(b, numVms) == PlainEnd && RowTerminatorIntended(b, numBenchmarks) == TightEnd;
    } else if numVms > numBenchmarks {
      var b := numBenchmarks - 1;
      assert RowTerminator(b, numVms) == TightEnd && RowTerminatorIntended(b, numBenchmarks) == PlainEnd;
    }
  }

  /** With the intended test, exactly the last row of each block ends plainly. */
  lemma {:induction false} IntendedPlainOnlyAtBlockEnd(benchIdx: nat, numBenchmarks: nat)
    requires benchIdx < numBenchmarks
    ensures RowTerminatorIntended(benchIdx, numBenchmarks) == PlainEnd <==> benchIdx == numBenchmarks - 1
  {
    assert TightEnd != PlainEnd by {
      assert |TightEnd| != |PlainEnd|;
    }
  }
}
