/** Which block ranges the snapshotter exports, cycle after cycle. */
module SnapshotRange {
  import opened Chain

  datatype Range = Range(start: int, end: int)

  /** What one cycle finds: the stored range (an empty or unreadable store gives none) and whether the export succeeds. */
  datatype Cycle = Cycle(lowest: Option<int>, highest: Option<int>, exported: bool)

  /** The nearest boundary at or above a height. */
  function AlignUp(h: int, size: int): int
    requires size > 0
  {
    ((h + size - 1) / size) * size
  }

  predicate Aligned(h: int, size: int)
    requires size > 0
  {
    h % size == 0
  }

  lemma {:induction false} MultipleIsAligned(k: nat, size: int)
    requires size > 0
    ensures Aligned(k * size, size)
  {
    if k > 0 {
      MultipleIsAligned(k - 1, size);
      AddSize((k - 1) * size, size);
      assert k * size == (k - 1) * size + size;
    }
  }

  lemma AddSize(h: int, size: int)
    requires size > 0 && Aligned(h, size)
    ensures Aligned(h + size, size)
  {
    assert h == (h / size) * size;
    assert h + size == (h / size + 1) * size;
    assert (h + size) / size == h / size + 1 by {
      Quotient(h + size, size, h / size + 1);
    }
  }

  /** Different multiples are at least one size apart. */
  lemma Apart(p: int, q: int, size: int)
    requires size > 0
    ensures p > q ==> p * size - q * size >= size
    ensures p < q ==> q * size - p * size >= size
  {
    var d := p - q;
    assert p * size - q * size == d * size;
    if d > 0 {
      Grows(d, size);
    } else if d < 0 {
      Grows(-d, size);
      assert -d * size == q * size - p * size;
    }
  }

  lemma {:induction false} Grows(d: nat, size: int)
    requires d > 0 && size > 0
    ensures d * size >= size
  {
    if d > 1 {
      Grows(d - 1, size);
      assert d * size == (d - 1) * size + size;
    }
  }

  lemma Quotient(x: int, size: int, q: int)
    requires size > 0 && x == q * size
    ensures x / size == q && x % size == 0
  {
    var d, r := x / size, x % size;
    assert x == d * size + r && 0 <= r < size;
    assert (q - d) * size == r;
    Apart(q, d, size);
  }

  /** The boundary found is the lowest one at or above the height. */
  lemma AlignUpIsNearest(h: int, size: int)
    requires size > 0 && h > 0
    ensures Aligned(AlignUp(h, size), size) && h <= AlignUp(h, size) < h + size
    ensures forall a :: h <= a && Aligned(a, size) ==> AlignUp(h, size) <= a
  {
    var x := h + size - 1;
    MultipleIsAligned(x / size, size);
    assert x == (x / size) * size + x % size;
    forall a | h <= a && Aligned(a, size) ensures AlignUp(h, size) <= a {
      assert a == (a / size) * size;
      Apart(x / size, a / size, size);
    }
  }

  /** The next range, or nothing while the store does not hold all of it. */
  function NextRange(last: int, lowest: int, highest: int, size: int): Option<Range>
    requires size > 0
  {
    var first := if last == 0 then AlignUp(lowest, size) else last + 1;
    var start := if first < lowest then AlignUp(lowest, size) else first;
    if start + size - 1 > highest then None else Some(Range(start, start + size - 1))
  }

  /** The range a cycle exports. */
  function Exports(last: int, cycle: Cycle, size: int): Option<Range>
    requires size > 0
  {
    if cycle.lowest.None? || cycle.lowest.value == 0 || cycle.highest.None? || cycle.highest.value == 0 || !cycle.exported then None
    else NextRange(last, cycle.lowest.value, cycle.highest.value, size)
  }

  /** The store was readable and held blocks. */
  predicate Readable(cycle: Cycle) {
    cycle.lowest.Some? && cycle.lowest.value != 0 && cycle.highest.Some? && cycle.highest.value != 0
  }

  /** A boundary after the last snapshot from which the store holds a full range. */
  predicate CouldStart(last: int, cycle: Cycle, size: int, start: int)
    requires size > 0 && Readable(cycle)
  {
    Aligned(start, size) && last < start && cycle.lowest.value <= start && start + size - 1 <= cycle.highest.value
  }

  /**
   * What a cycle must export: nothing from an unreadable store or when the export fails;
   * the range right after the last one once the store holds all of it, if it still holds
   * the block after the last one; otherwise the range from the least boundary that could
   * start one, if there is any.
   */
  ghost predicate ExportsRule(last: int, cycle: Cycle, size: int, r: Option<Range>)
    requires size > 0
  {
    if !Readable(cycle) || !cycle.exported then r.None?
    else if last > 0 && cycle.lowest.value <= last + 1 then
      r == if last + size <= cycle.highest.value then Some(Range(last + 1, last + size)) else None
    else
      && (r.Some? ==> CouldStart(last, cycle, size, r.value.start) && r.value.end == r.value.start + size - 1)
      && (forall start :: CouldStart(last, cycle, size, start) ==> r.Some? && r.value.start <= start)
  }

  lemma ExportsIff(last: int, cycle: Cycle, size: int)
    requires size > 0 && last >= 0 && (cycle.lowest.Some? ==> cycle.lowest.value >= 0)
    ensures ExportsRule(last, cycle, size, Exports(last, cycle, size))
  {
    if Readable(cycle) && cycle.exported {
      AlignUpIsNearest(cycle.lowest.value, size);
    }
  }

  class Snapshotter {
    const blocksPerFile: int
    var lastSnapshotBlock: int
    var totalSnapshots: nat

    /** Start from the highest end and the number of the snapshots found on disk. */
    constructor (blocksPerFile: int, highest: nat, files: nat)
      ensures this.blocksPerFile == (if blocksPerFile > 0 then blocksPerFile else 1000)
      ensures lastSnapshotBlock == highest && totalSnapshots == files
    {
      this.blocksPerFile := if blocksPerFile <= 0 then 1000 else blocksPerFile;
      this.lastSnapshotBlock, this.totalSnapshots := highest, files;
    }

    method CheckAndSnapshot(cycle: Cycle) returns (exported: Option<Range>)
      requires blocksPerFile > 0
      modifies this
      ensures exported == Exports(old(lastSnapshotBlock), cycle, blocksPerFile)
      ensures old(lastSnapshotBlock) >= 0 && (cycle.lowest.Some? ==> cycle.lowest.value >= 0) ==>
                ExportsRule(old(lastSnapshotBlock), cycle, blocksPerFile, exported)
      ensures lastSnapshotBlock == if exported.Some? then exported.value.end else old(lastSnapshotBlock)
      ensures totalSnapshots == old(totalSnapshots) + if exported.Some? then 1 else 0
    {
      if lastSnapshotBlock >= 0 && (cycle.lowest.Some? ==> cycle.lowest.value >= 0) {
        ExportsIff(lastSnapshotBlock, cycle, blocksPerFile);
      }
      if cycle.lowest.None? || cycle.lowest.value == 0 {
        return None;
      }
      if cycle.highest.None? || cycle.highest.value == 0 {
        return None;
      }
      exported := NextRange(lastSnapshotBlock, cycle.lowest.value, cycle.highest.value, blocksPerFile);
      if exported.None? || !cycle.exported {
        return None;
      }
      lastSnapshotBlock := exported.value.end;
      totalSnapshots := totalSnapshots + 1;
    }
  }

  // ---------------------------------------------------------------- any sequence of cycles

  /** Where the snapshotter stands after these cycles. */
  function LastAfter(last: int, cycles: seq<Cycle>, size: int): int
    requires size > 0
  {
    if cycles == [] then last
    else
      var before := LastAfter(last, cycles[..|cycles| - 1], size);
      var exported := Exports(before, cycles[|cycles| - 1], size);
      if exported.Some? then exported.value.end else before
  }

  /** What cycle i of a run exports. */
  function ExportAt(last: int, cycles: seq<Cycle>, size: int, i: nat): Option<Range>
    requires size > 0 && i < |cycles|
  {
    Exports(LastAfter(last, cycles[..i], size), cycles[i], size)
  }

  ghost predicate Heights(cycles: seq<Cycle>) {
    forall i :: 0 <= i < |cycles| ==> (cycles[i].lowest.Some? ==> cycles[i].lowest.value >= 0)
  }

  /** One exported range: full, inside the stored range, after the last one, on a boundary unless the last end was off one. */
  lemma RangeIsSound(last: int, cycle: Cycle, size: int)
    requires size > 0 && last >= 0 && (cycle.lowest.Some? ==> cycle.lowest.value >= 0)
    ensures var r := Exports(last, cycle, size);
            r.Some? ==>
              && r.value.end == r.value.start + size - 1
              && 0 < cycle.lowest.value <= r.value.start && r.value.end <= cycle.highest.value
              && last < r.value.start
              && (last == 0 || Aligned(last + 1, size) ==> Aligned(r.value.start, size) && Aligned(r.value.end + 1, size))
  {
    if Exports(last, cycle, size).Some? {
      AlignUpIsNearest(cycle.lowest.value, size);
      var start := Exports(last, cycle, size).value.start;
      if Aligned(start, size) {
        AddSize(start, size);
      }
    }
  }

  /** A range continues the last one exactly when the store still holds the block after it. */
  lemma ContinuesIff(last: int, cycle: Cycle, size: int)
    requires size > 0 && last > 0 && (cycle.lowest.Some? ==> cycle.lowest.value >= 0) && Exports(last, cycle, size).Some?
    ensures Exports(last, cycle, size).value.start == last + 1 <==> cycle.lowest.value <= last + 1
  {
    AlignUpIsNearest(cycle.lowest.value, size);
  }

  lemma {:induction false} LastNeverFalls(last: int, cycles: seq<Cycle>, size: int, i: nat)
    requires size > 0 && last >= 0 && Heights(cycles) && i <= |cycles|
    ensures last <= LastAfter(last, cycles[..i], size) <= LastAfter(last, cycles, size)
    decreases |cycles|
  {
    if i == |cycles| {
      assert cycles[..i] == cycles;
      if i > 0 {
        LastNeverFalls(last, cycles[..i - 1], size, i - 1);
        RangeIsSound(LastAfter(last, cycles[..i - 1], size), cycles[i - 1], size);
        assert cycles[..i - 1][..i - 1] == cycles[..i - 1];
      }
    } else {
      var n := |cycles| - 1;
      LastNeverFalls(last, cycles[..n], size, i);
      assert cycles[..n][..i] == cycles[..i];
      RangeIsSound(LastAfter(last, cycles[..n], size), cycles[n], size);
    }
  }

  lemma {:induction false} StaysAligned(last: int, cycles: seq<Cycle>, size: int)
    requires size > 0 && last >= 0 && Heights(cycles) && (last == 0 || Aligned(last + 1, size))
    ensures LastAfter(last, cycles, size) == 0 || Aligned(LastAfter(last, cycles, size) + 1, size)
    decreases |cycles|
  {
    if cycles != [] {
      var n := |cycles| - 1;
      StaysAligned(last, cycles[..n], size);
      LastNeverFalls(last, cycles[..n], size, n);
      RangeIsSound(LastAfter(last, cycles[..n], size), cycles[n], size);
    }
  }

  /** Over any run, however the stored range moves, a later range starts after an earlier one ends. */
  lemma RunIsDisjoint(last: int, cycles: seq<Cycle>, size: int, i: nat, j: nat)
    requires size > 0 && last >= 0 && Heights(cycles) && i < j < |cycles|
    requires ExportAt(last, cycles, size, i).Some? && ExportAt(last, cycles, size, j).Some?
    ensures last < ExportAt(last, cycles, size, i).value.start
    ensures ExportAt(last, cycles, size, i).value.end < ExportAt(last, cycles, size, j).value.start
  {
    AfterExport(last, cycles, size, i);
    LastNeverFalls(last, cycles[..i], size, 0);
    LastNeverFalls(last, cycles[..j], size, i + 1);
    assert cycles[..j][..i + 1] == cycles[..i + 1];
    RangeIsSound(LastAfter(last, cycles[..i], size), cycles[i], size);
    RangeIsSound(LastAfter(last, cycles[..j], size), cycles[j], size);
  }

  lemma AfterExport(last: int, cycles: seq<Cycle>, size: int, i: nat)
    requires size > 0 && i < |cycles|
    ensures LastAfter(last, cycles[..i + 1], size) ==
            if ExportAt(last, cycles, size, i).Some? then ExportAt(last, cycles, size, i).value.end else LastAfter(last, cycles[..i], size)
  {
    assert cycles[..i + 1][..i] == cycles[..i];
  }

  /**
   * Over any run every range is full, lies in its cycle's stored range, and is on a
   * boundary when the run starts on one.
   */
  lemma RunRangesAreSound(last: int, cycles: seq<Cycle>, size: int, i: nat)
    requires size > 0 && last >= 0 && Heights(cycles) && i < |cycles| && ExportAt(last, cycles, size, i).Some?
    ensures var r := ExportAt(last, cycles, size, i).value;
            && r.end == r.start + size - 1 && cycles[i].lowest.value <= r.start && r.end <= cycles[i].highest.value
            && (last == 0 || Aligned(last + 1, size) ==> Aligned(r.start, size))
  {
    LastNeverFalls(last, cycles[..i], size, i);
    assert cycles[..i][..i] == cycles[..i];
    if last == 0 || Aligned(last + 1, size) {
      StaysAligned(last, cycles[..i], size);
    }
    RangeIsSound(LastAfter(last, cycles[..i], size), cycles[i], size);
  }

  lemma {:induction false} QuietSince(last: int, cycles: seq<Cycle>, size: int, i: nat, j: nat)
    requires size > 0 && i <= j <= |cycles|
    requires forall k :: i <= k < j ==> ExportAt(last, cycles, size, k).None?
    ensures LastAfter(last, cycles[..j], size) == LastAfter(last, cycles[..i], size)
    decreases j
  {
    if i < j {
      QuietSince(last, cycles, size, i, j - 1);
      AfterExport(last, cycles, size, j - 1);
    }
  }

  /** The end of the last range exported before cycle i, or where the run started. */
  ghost predicate StandsAt(last: int, cycles: seq<Cycle>, size: int, i: nat, at: int)
    requires size > 0 && i <= |cycles|
  {
    || (at == last && forall k :: 0 <= k < i ==> ExportAt(last, cycles, size, k).None?)
    || exists j :: LastExport(last, cycles, size, i, j) && ExportAt(last, cycles, size, j).value.end == at
  }

  ghost predicate LastExport(last: int, cycles: seq<Cycle>, size: int, i: nat, j: int)
    requires size > 0 && i <= |cycles|
  {
    0 <= j < i && ExportAt(last, cycles, size, j).Some? && forall k :: j < k < i ==> ExportAt(last, cycles, size, k).None?
  }

  lemma LastIsWhereItStands(last: int, cycles: seq<Cycle>, size: int, i: nat, at: int)
    requires size > 0 && i <= |cycles| && StandsAt(last, cycles, size, i, at)
    ensures LastAfter(last, cycles[..i], size) == at
  {
    if j :| LastExport(last, cycles, size, i, j) && ExportAt(last, cycles, size, j).value.end == at {
      AfterExport(last, cycles, size, j);
      QuietSince(last, cycles, size, j + 1, i);
    } else {
      QuietSince(last, cycles, size, 0, i);
    }
  }

  /** Over any run every cycle exports exactly what the rule says of the last range exported before it. */
  lemma RunExportsIff(last: int, cycles: seq<Cycle>, size: int, i: nat, at: int)
    requires size > 0 && last >= 0 && Heights(cycles) && i < |cycles| && StandsAt(last, cycles, size, i, at)
    ensures ExportsRule(at, cycles[i], size, ExportAt(last, cycles, size, i))
  {
    LastIsWhereItStands(last, cycles, size, i, at);
    LastNeverFalls(last, cycles[..i], size, 0);
    ExportsIff(at, cycles[i], size);
  }

  /**
   * Between two exports with none in between there is no gap exactly when, in the later
   * cycle, the store still reached down to the block after the earlier range.
   */
  lemma GapFreeIff(last: int, cycles: seq<Cycle>, size: int, i: nat, j: nat)
    requires size > 0 && last >= 0 && Heights(cycles) && i < j < |cycles|
    requires ExportAt(last, cycles, size, i).Some? && ExportAt(last, cycles, size, j).Some?
    requires forall k :: i < k < j ==> ExportAt(last, cycles, size, k).None?
    ensures var a, b := ExportAt(last, cycles, size, i).value, ExportAt(last, cycles, size, j).value;
            b.start == a.end + 1 <==> cycles[j].lowest.value <= a.end + 1
  {
    AfterExport(last, cycles, size, i);
    QuietSince(last, cycles, size, i + 1, j);
    LastNeverFalls(last, cycles[..i], size, i);
    assert cycles[..i][..i] == cycles[..i];
    RangeIsSound(LastAfter(last, cycles[..i], size), cycles[i], size);
    ContinuesIff(LastAfter(last, cycles[..j], size), cycles[j], size);
  }
}
