/** The ordered apply: every height is consumed exactly once and callbacks come in height order. */
module OrderedApply {
  import opened Chain
  import opened Processor
  import opened StorePool

  // ---------------------------------------------------------------- heights as multisets

  function ItemNums(s: seq<Item>): seq<int> {
    seq(|s|, i requires 0 <= i < |s| => s[i].num)
  }

  function Nums(s: seq<Completion>): seq<int> {
    seq(|s|, i requires 0 <= i < |s| => s[i].item.num)
  }

  lemma NumsAppend(s: seq<Completion>, c: Completion)
    ensures Nums(s + [c]) == Nums(s) + [c.item.num]
  {
  }

  lemma ItemNumsAppend(s: seq<Item>, x: Item)
    ensures ItemNums(s + [x]) == ItemNums(s) + [x.num]
  {
  }

  lemma RemoveMultiset(t: seq<int>, i: nat)
    requires i < |t|
    ensures multiset(Remove(t, i)) + multiset{t[i]} == multiset(t)
  {
    assert t == t[..i] + [t[i]] + t[i + 1..];
  }

  lemma ItemNumsRemove(s: seq<Item>, i: nat)
    requires i < |s|
    ensures multiset(ItemNums(Remove(s, i))) + multiset{s[i].num} == multiset(ItemNums(s))
  {
    assert ItemNums(Remove(s, i)) == Remove(ItemNums(s), i);
    RemoveMultiset(ItemNums(s), i);
  }

  lemma NumsRemove(s: seq<Completion>, i: nat)
    requires i < |s|
    ensures multiset(Nums(Remove(s, i))) + multiset{s[i].item.num} == multiset(Nums(s))
  {
    assert Nums(Remove(s, i)) == Remove(Nums(s), i);
    RemoveMultiset(Nums(s), i);
  }

  /** The heights travelling through the pool, with multiplicity. */
  ghost function PoolHeights(p: Pool): multiset<int> {
    (if p.holding.Some? then multiset{p.holding.value.num} else multiset{})
    + multiset(ItemNums(p.queue)) + multiset(ItemNums(p.busy)) + multiset(Nums(p.finished))
    + multiset(Nums(p.completions)) + multiset(p.dropped)
  }

  /** The heights parked in the reorder buffer or already passed by the cursor. */
  ghost function ApplyHeights(a: Apply): multiset<int> {
    multiset(a.reorder.Keys) + multiset(Nums(a.consumed))
  }

  /** Conservation: every registered height is in exactly one place. */
  ghost predicate Conserved(check: Check, p: Pool, a: Apply) {
    PoolHeights(p) + ApplyHeights(a) == multiset(check.handed.Keys)
  }

  // ---------------------------------------------------------------- the cursor

  ghost predicate Ascending(s: seq<int>) {
    forall i, j :: 0 <= i < j < |s| ==> s[i] < s[j]
  }

  /** The cursor has passed every height below it, each as a recorded hole or as a completion. */
  ghost predicate CursorInv(start: int, a: Apply) {
    && start <= a.cursor
    && (forall k :: k in a.reorder ==> a.reorder[k].item.num == k)
    && (forall n :: n in a.skipped ==> start <= n < a.cursor)
    && (forall n :: n in Nums(a.consumed) ==> start <= n < a.cursor)
    && (forall n :: start <= n < a.cursor ==> n in a.skipped || n in Nums(a.consumed))
    && Ascending(Nums(a.consumed))
  }

  /** Holes were popped and never registered; nothing lies at or above the pop cursor. */
  ghost predicate HolesInv(start: int, check: Check, a: Apply) {
    && a.cursor <= check.next
    && (forall n :: n in check.handed ==> start <= n < check.next)
    && (forall n :: n in a.holes ==> a.cursor <= n < check.next && n !in check.handed)
    && (forall n :: n in a.skipped ==> n !in check.handed)
  }

  ghost predicate FlowInv(r: Run) {
    Conserved(r.check, r.pool, r.apply) && CursorInv(r.start, r.apply) && HolesInv(r.start, r.check, r.apply)
  }

  lemma SkipHoleKeeps(start: int, check: Check, p: Pool, a: Apply)
    requires Conserved(check, p, a) && CursorInv(start, a) && HolesInv(start, check, a) && a.cursor in a.holes
    ensures var b := SkipHole(a); Conserved(check, p, b) && CursorInv(start, b) && HolesInv(start, check, b)
  {
  }

  lemma ConsumeKeepsConserved(check: Check, p: Pool, a: Apply)
    requires Conserved(check, p, a) && a.cursor in a.reorder && a.reorder[a.cursor].item.num == a.cursor
    ensures Conserved(check, p, Consume(a))
  {
    NumsAppend(a.consumed, a.reorder[a.cursor]);
    assert multiset(a.reorder.Keys) == multiset((a.reorder - {a.cursor}).Keys) + multiset{a.cursor};
  }

  lemma ConsumeKeepsCursor(start: int, a: Apply)
    requires CursorInv(start, a) && a.cursor in a.reorder
    ensures CursorInv(start, Consume(a))
  {
    NumsAppend(a.consumed, a.reorder[a.cursor]);
    var before, after := Nums(a.consumed), Nums(Consume(a).consumed);
    assert after == before + [a.cursor];
    forall n | n in after ensures start <= n < a.cursor + 1 {
    }
    forall i, j | 0 <= i < j < |after| ensures after[i] < after[j] {
      assert after[i] in before;
    }
  }

  lemma ConsumeKeepsHoles(start: int, check: Check, p: Pool, a: Apply)
    requires Conserved(check, p, a) && HolesInv(start, check, a) && a.cursor in a.reorder && a.cursor !in a.holes
    ensures HolesInv(start, check, Consume(a))
  {
    assert a.cursor in PoolHeights(p) + ApplyHeights(a);
  }

  /** What a pass of the cursor leaves: the invariants, and a batch of consecutive arrivals at or above the old cursor. */
  ghost predicate PassSpec(a: Apply, b: Apply) {
    && a.cursor <= b.cursor && b.callbacks == a.callbacks
    && a.consumed <= b.consumed
    && (forall i :: |a.consumed| <= i < |b.consumed| ==> a.cursor <= b.consumed[i].item.num < b.cursor)
    && b.cursor !in b.holes && b.cursor !in b.reorder
  }

  lemma {:induction false} CollectReadyKeeps(start: int, check: Check, p: Pool, a: Apply)
    requires Conserved(check, p, a) && CursorInv(start, a) && HolesInv(start, check, a)
    ensures var b := CollectReady(a);
            Conserved(check, p, b) && CursorInv(start, b) && HolesInv(start, check, b) && PassSpec(a, b)
    decreases |a.holes| + |a.reorder|
  {
    if a.cursor in a.holes {
      SkipHoleKeeps(start, check, p, a);
      CollectReadyKeeps(start, check, p, SkipHole(a));
    } else if a.cursor in a.reorder {
      ConsumeKeepsConserved(check, p, a);
      ConsumeKeepsCursor(start, a);
      ConsumeKeepsHoles(start, check, p, a);
      CollectReadyKeeps(start, check, p, Consume(a));
    }
  }

  // ---------------------------------------------------------------- steps keep the flow

  lemma DropHoldingFlow(p: Pool)
    ensures PoolHeights(DropHolding(p)) == PoolHeights(p)
  {
    if p.holding.Some? {
      assert multiset(p.dropped + [p.holding.value.num]) == multiset(p.dropped) + multiset{p.holding.value.num};
    }
  }

  /** A completion on its way cannot already be parked, consumed or skipped. */
  lemma ArrivalIsNew(r: Run)
    requires FlowInv(r) && r.pool.completions != []
    ensures var n := r.pool.completions[0].item.num;
            n !in r.apply.reorder && r.apply.cursor <= n && n in r.check.handed
  {
    var n := r.pool.completions[0].item.num;
    assert Nums(r.pool.completions)[0] == n;
    assert n in Nums(r.pool.completions);
    assert multiset(Nums(r.pool.completions))[n] >= 1;
    assert PoolHeights(r.pool)[n] >= 1;
    assert multiset(r.check.handed.Keys)[n] <= 1;
    assert ApplyHeights(r.apply)[n] == 0;
    assert multiset(r.apply.reorder.Keys)[n] == 0;
    assert multiset(Nums(r.apply.consumed))[n] == 0;
  }

  lemma TakeHeights(p: Pool)
    requires p.completions != []
    ensures PoolHeights(p.(completions := p.completions[1..])) + multiset{p.completions[0].item.num} == PoolHeights(p)
  {
    NumsRemove(p.completions, 0);
    assert Remove(p.completions, 0) == p.completions[1..];
  }

  /** The parked state: the completion has left the channel and sits in the reorder buffer. */
  lemma ParkingFlow(r: Run)
    requires FlowInv(r) && r.pool.completions != []
    ensures var c := r.pool.completions[0];
            var a := r.apply.(reorder := r.apply.reorder[c.item.num := c]);
            FlowInv(TakeCompletion(r).(apply := a))
  {
    var c := r.pool.completions[0];
    ArrivalIsNew(r);
    TakeHeights(r.pool);
    var keys := r.apply.reorder.Keys;
    assert r.apply.reorder[c.item.num := c].Keys == keys + {c.item.num};
    assert multiset(keys + {c.item.num}) == multiset(keys) + multiset{c.item.num};
  }

  lemma ParkFlow(r: Run)
    requires FlowInv(r) && r.pool.completions != []
    ensures var c := r.pool.completions[0];
            FlowInv(TakeCompletion(r).(apply := Park(r.apply, c))) && PassSpec(r.apply, Park(r.apply, c))
  {
    var c := r.pool.completions[0];
    var a := r.apply.(reorder := r.apply.reorder[c.item.num := c]);
    ParkingFlow(r);
    CollectReadyKeeps(r.start, r.check, TakeCompletion(r).pool, a);
  }

  lemma BatchFlow(r: Run, batch: seq<Completion>, suppress: bool)
    requires FlowInv(r)
    ensures FlowInv(ApplyBatch(r, batch, suppress))
  {
    ApplyBatchFrame(r, batch, suppress);
    DropHoldingFlow(r.pool);
  }

  lemma ReceiveFlow(r: Run, pc: Pc, suppress: bool)
    requires FlowInv(r) && r.pool.completions != []
    ensures FlowInv(ApplyCompletion(At(TakeCompletion(r), pc), r.pool.completions[0], suppress))
  {
    ParkFlow(r);
    var c := r.pool.completions[0];
    var t := At(TakeCompletion(r), pc);
    BatchFlow(t.(apply := Park(r.apply, c)), Batch(r.apply, Park(r.apply, c)), suppress);
  }

  lemma KeysGrow<T>(m: map<int, T>, n: int, x: T)
    requires n !in m
    ensures multiset(m[n := x].Keys) == multiset(m.Keys) + multiset{n}
  {
    assert m[n := x].Keys == m.Keys + {n};
  }

  lemma AddBoth(a: multiset<int>, b: multiset<int>, c: multiset<int>, n: int)
    requires a + b == c
    ensures (a + multiset{n}) + b == c + multiset{n}
  {
  }

  lemma RegisterHeights(p: Pool, item: Item)
    requires p.holding.None?
    ensures PoolHeights(Register(p, item)) == PoolHeights(p) + multiset{item.num}
  {
  }

  lemma RegisterConserved(check: Check, p: Pool, a: Apply, item: Item)
    requires Conserved(check, p, a) && p.holding.None? && item.num !in check.handed
    ensures Conserved(check.(handed := check.handed[item.num := item]), Register(p, item), a)
  {
    KeysGrow(check.handed, item.num, item);
    RegisterHeights(p, item);
    AddBoth(PoolHeights(p), ApplyHeights(a), multiset(check.handed.Keys), item.num);
  }

  lemma RegisterFlow(r: Run, item: Item, checked: Check)
    requires FlowInv(r) && r.pool.holding.None? && item.num == r.check.next
    requires checked.next == r.check.next + 1 && checked.handed == r.check.handed[item.num := item]
    ensures FlowInv(r.(check := checked, pool := Register(r.pool, item)))
  {
    RegisterConserved(r.check, r.pool, r.apply, item);
  }

  /** The flow depends only on the registered heights, the places they are in and the cursor. */
  lemma FlowFrame(r: Run, q: Run)
    requires FlowInv(r) && q.start == r.start && q.check == r.check && PoolHeights(q.pool) == PoolHeights(r.pool)
    requires q.apply.(callbacks := []) == r.apply.(callbacks := [])
    ensures FlowInv(q)
  {
  }

  lemma HoleFlow(r: Run)
    requires FlowInv(r)
    ensures FlowInv(r.(check := r.check.(next := r.check.next + 1), apply := r.apply.(holes := r.apply.holes + {r.check.next})))
    ensures FlowInv(r.(check := r.check.(next := r.check.next + 1)))
  {
    NextHoles(r.start, r.check, r.apply);
  }

  lemma NextHoles(start: int, check: Check, a: Apply)
    requires HolesInv(start, check, a)
    ensures HolesInv(start, check.(next := check.next + 1), a.(holes := a.holes + {check.next}))
    ensures HolesInv(start, check.(next := check.next + 1), a)
  {
  }

  /** Pending results are filed under their own height. */
  ghost predicate FeedKeyed(feed: Feed) {
    forall n :: n in feed.pending ==> feed.pending[n].num == n
  }

  lemma CheckFlow(r: Run, visible: set<Block>, queryFails: bool, item: Item)
    requires FlowInv(r) && r.pool.holding.None? && item.num == r.check.next
    ensures FlowInv(CheckForDispatch(Pop(r), visible, queryFails, item))
  {
    var q := CheckForDispatch(Pop(r), visible, queryFails, item);
    if item.ok && q.pool.holding.Some? {
      RegisterFlow(r, item, q.check);
      FlowFrame(r.(check := q.check, pool := Register(r.pool, item)), q);
    } else if item.ok {
      HoleFlow(r);
      FlowFrame(r.(check := r.check.(next := r.check.next + 1)), q);
    } else {
      HoleFlow(r);
    }
  }

  lemma TopFlow(r: Run, visible: set<Block>, queryFails: bool)
    requires FlowInv(r) && FeedKeyed(r.feed)
    ensures FlowInv(TopStep(r, visible, queryFails))
  {
    var q := TopStep(r, visible, queryFails);
    if r.pool.holding.Some? || r.check.next !in r.feed.pending {
      FlowFrame(r, q);
    } else if r.ctl.point.Some? || r.ctl.cancelled || r.ctl.episode.Some? {
      HoleFlow(r);
      FlowFrame(r.(check := r.check.(next := r.check.next + 1)), q);
    } else {
      var item := r.feed.pending[r.check.next];
      CheckFlow(r, visible, queryFails, item);
      FlowFrame(CheckForDispatch(Pop(r), visible, queryFails, item), q);
    }
  }

  lemma FinishFlow(r: Run, visible: set<Block>, configuredStart: int, answers: W.Answers, interrupted: bool)
    requires FlowInv(r) && r.ctl.pc.WalkingBack? && r.ctl.episode.Some?
    ensures FlowInv(FinishEpisodeStep(r, visible, configuredStart, answers, interrupted))
  {
    var d := Finalize(r.ctl, r.ctl.episode.value, r.ctl.pc.confirmed, visible, configuredStart, answers, interrupted);
    BatchFlow(At(r.(ctl := d), Top), r.ctl.pc.rest, false);
  }

  lemma SendFlow(r: Run)
    requires FlowInv(r) && r.pool.holding.Some?
    ensures FlowInv(SendStep(r))
  {
    ItemNumsAppend(r.pool.queue, r.pool.holding.value);
  }

  /** The remaining collector steps only move the collector or drop a waiting dispatch. */
  lemma QuietFlow(r: Run, workers: nat, a: Action)
    requires FlowInv(r) && CollectorEnabled(r, workers, a)
    requires a.CollectorGuard? || a.ReceiveResult? || a.SeeCancellation? || a.DrainSettle? || a.DrainFinish?
             || (a.ReceiveCompletion? && r.pool.completions == [])
    ensures FlowInv(CollectorStep(r, workers, {}, 0, a))
  {
    DropHoldingFlow(r.pool);
    QuietChanges(r, workers, a);
    FlowFrame(r, CollectorStep(r, workers, {}, 0, a));
  }

  lemma QuietChanges(r: Run, workers: nat, a: Action)
    requires CollectorEnabled(r, workers, a)
    requires a.CollectorGuard? || a.ReceiveResult? || a.SeeCancellation? || a.DrainSettle? || a.DrainFinish?
             || (a.ReceiveCompletion? && r.pool.completions == [])
    ensures var q := CollectorStep(r, workers, {}, 0, a);
            && q.start == r.start && q.check == r.check && q.apply == r.apply
            && (q.pool == r.pool || q.pool == DropHolding(r.pool) || q.pool == DropHolding(r.pool).(queueClosed := true))
  {
  }

  lemma ResolveFlow(r: Run, refetched: Item, interrupted: bool)
    requires FlowInv(r) && r.ctl.pc.Resolving?
    ensures FlowInv(ResolveStep(r, r.ctl.pc.item, refetched, interrupted))
  {
    var q := ResolveStep(r, r.ctl.pc.item, refetched, interrupted);
    DropHoldingFlow(r.pool);
    assert q.pool == r.pool || q.pool == DropHolding(r.pool);
    FlowFrame(r, q);
  }

  lemma CollectorFlow(r: Run, workers: nat, visible: set<Block>, configuredStart: int, a: Action)
    requires FlowInv(r) && FeedKeyed(r.feed) && CollectorEnabled(r, workers, a)
    ensures FlowInv(CollectorStep(r, workers, visible, configuredStart, a))
  {
    if a.CollectorTop? {
      TopFlow(r, visible, a.gapQueryFails);
    } else if a.ReceiveCompletion? && r.pool.completions != [] {
      ReceiveFlow(r, Top, false);
    } else if a.SendToPool? {
      SendFlow(r);
    } else if a.DrainReceive? {
      ReceiveFlow(r, r.ctl.pc, r.ctl.pc.confirmed.None?);
      assert At(TakeCompletion(r), r.ctl.pc) == TakeCompletion(r);
    } else if a.FinishEpisode? {
      FinishFlow(r, visible, configuredStart, a.answers, a.interrupted);
    } else if a.Resolve? {
      ResolveFlow(r, a.refetched, a.waitInterrupted);
    } else {
      QuietFlow(r, workers, a);
    }
  }

  lemma TakeTaskFlow(p: Pool)
    requires p.queue != []
    ensures PoolHeights(TakeTask(p)) == PoolHeights(p)
  {
    ItemNumsRemove(p.queue, 0);
    assert Remove(p.queue, 0) == p.queue[1..];
    ItemNumsAppend(p.busy, p.queue[0]);
  }

  lemma FinishTaskFlow(p: Pool, i: nat, c: Completion)
    requires i < |p.busy| && c.item == p.busy[i]
    ensures PoolHeights(FinishTask(p, i, c)) == PoolHeights(p)
  {
    ItemNumsRemove(p.busy, i);
    NumsAppend(p.finished, c);
  }

  lemma ReportTaskFlow(p: Pool, i: nat)
    requires i < |p.finished|
    ensures PoolHeights(ReportTask(p, i)) == PoolHeights(p)
  {
    NumsRemove(p.finished, i);
    NumsAppend(p.completions, p.finished[i]);
  }

  lemma PoolFlow(r: Run, workers: nat, visible: set<Block>, a: Action)
    requires PoolEnabled(r, workers, a)
    ensures PoolHeights(PoolStep(r.pool, visible, a)) == PoolHeights(r.pool)
  {
    match a
    case PoolTake => TakeTaskFlow(r.pool);
    case PoolStore(i, result, landed, queryFails) =>
      FinishTaskFlow(r.pool, i, Outcome(r.pool.busy[i], visible, result, landed, queryFails));
    case PoolReport(i) => ReportTaskFlow(r.pool, i);
    case PoolDone =>
    case CloseCompletions =>
  }

  // ---------------------------------------------------------------- callbacks

  ghost predicate Before(callbacks: seq<int>, batch: seq<Completion>) {
    forall i, j :: 0 <= i < |callbacks| && 0 <= j < |batch| ==> callbacks[i] < batch[j].item.num
  }

  ghost predicate AscendingBatch(batch: seq<Completion>) {
    forall i, j :: 0 <= i < j < |batch| ==> batch[i].item.num < batch[j].item.num
  }

  /** A height is reported only after the cursor consumed its successful store. */
  ghost predicate ReportedStored(a: Apply, n: int) {
    exists i :: 0 <= i < |a.consumed| && a.consumed[i].item.num == n && a.consumed[i].result.Stored?
  }

  /** The reports so far are in order and all of them precede what is left to apply. */
  ghost predicate Ready(a: Apply, left: seq<Completion>) {
    && Ascending(a.callbacks)
    && (forall n :: n in a.callbacks ==> n < a.cursor && ReportedStored(a, n))
    && AscendingBatch(left) && Before(a.callbacks, left)
    && (forall c :: c in left ==> c in a.consumed && c.item.num < a.cursor)
  }

  /** The part of an interrupted batch the collector still has to apply. */
  function Leftover(pc: Pc): seq<Completion> {
    if pc.Draining? || pc.WalkingBack? then pc.rest else []
  }

  ghost predicate CallbackInv(r: Run) {
    && Ready(r.apply, Leftover(r.ctl.pc))
    && ((r.ctl.pc.Draining? || r.ctl.pc.WalkingBack?) && r.ctl.pc.confirmed.Some? ==> r.ctl.pc.rest == [])
    && (r.ctl.pc.Draining? && r.ctl.episode.Some? ==> (r.ctl.pc.confirmed.None? <==> r.ctl.episode.value.stalePinned))
  }

  lemma CommitReady(r: Run, batch: seq<Completion>)
    requires batch != [] && Ready(r.apply, batch) && batch[0].result.Stored?
    ensures Ready(Commit(r, batch[0].item).apply, batch[1..])
  {
    var a, b := r.apply, Commit(r, batch[0].item).apply;
    var n := batch[0].item.num;
    assert batch[0] in batch;
    assert ReportedStored(a, n);
    forall m | m in b.callbacks ensures m < b.cursor && ReportedStored(b, m) {
      if m != n {
        assert m in a.callbacks && ReportedStored(a, m);
      }
    }
    forall j | 0 <= j < |batch| - 1 ensures n < batch[1..][j].item.num {
    }
  }

  lemma TailReady(a: Apply, batch: seq<Completion>)
    requires batch != [] && Ready(a, batch)
    ensures Ready(a, batch[1..])
  {
  }

  /** What is left of a batch when its application returns. */
  ghost function After(r: Run, q: Run): seq<Completion> {
    if OpenedStale(r, q) then q.ctl.pc.rest else []
  }

  lemma {:induction false} BatchReady(r: Run, batch: seq<Completion>, suppress: bool)
    requires Ready(r.apply, batch)
    ensures var q := ApplyBatch(r, batch, suppress); Ready(q.apply, After(r, q))
    decreases |batch|
  {
    if batch != [] {
      var r1 := ApplyOne(r, batch[0], suppress || Ended(r));
      ApplyOneFrame(r, batch[0], suppress || Ended(r));
      TailReady(r.apply, batch);
      if batch[0].result.Stored? {
        CommitReady(r, batch);
      }
      if !(r.ctl.episode.None? && r1.ctl.episode.Some?) {
        BatchReady(r1, batch[1..], suppress);
        ApplyBatchFrame(r1, batch[1..], suppress);
        assert OpenedStale(r, ApplyBatch(r, batch, suppress)) <==> OpenedStale(r1, ApplyBatch(r1, batch[1..], suppress));
      }
    }
  }

  /** A suppressed or ended application reports nothing. */
  lemma {:induction false} BatchSilent(r: Run, batch: seq<Completion>, suppress: bool)
    requires suppress || Ended(r)
    ensures ApplyBatch(r, batch, suppress).apply.callbacks == r.apply.callbacks
    decreases |batch|
  {
    if batch != [] {
      var r1 := ApplyOne(r, batch[0], suppress || Ended(r));
      ApplyOneFrame(r, batch[0], suppress || Ended(r));
      if !(r.ctl.episode.None? && r1.ctl.episode.Some?) {
        BatchSilent(r1, batch[1..], suppress);
      }
    }
  }

  /** The batch a cursor pass hands out is in order and after every earlier report. */
  lemma PassReady(start: int, a: Apply, b: Apply)
    requires Ready(a, []) && PassSpec(a, b) && CursorInv(start, b)
    ensures Ready(b, Batch(a, b))
  {
    GrowReady(a, b, []);
    PassBatch(start, a, b);
    var batch := Batch(a, b);
    forall i, j | 0 <= i < |b.callbacks| && 0 <= j < |batch| ensures b.callbacks[i] < batch[j].item.num {
      assert b.callbacks[i] in a.callbacks;
    }
  }

  /** What a pass newly consumed: in order, between the old and the new cursor. */
  lemma PassBatch(start: int, a: Apply, b: Apply)
    requires PassSpec(a, b) && CursorInv(start, b)
    ensures AscendingBatch(Batch(a, b))
    ensures forall j :: 0 <= j < |Batch(a, b)| ==> a.cursor <= Batch(a, b)[j].item.num < b.cursor && Batch(a, b)[j] in b.consumed
  {
    var batch := Batch(a, b);
    var k := |a.consumed|;
    forall j | 0 <= j < |batch| ensures batch[j] == b.consumed[k + j] {
    }
    forall i, j | 0 <= i < j < |batch| ensures batch[i].item.num < batch[j].item.num {
      assert Nums(b.consumed)[k + i] < Nums(b.consumed)[k + j];
    }
  }

  /** A longer consumed history keeps what was ready. */
  lemma GrowReady(a: Apply, b: Apply, left: seq<Completion>)
    requires Ready(a, left) && PassSpec(a, b)
    ensures Ready(b, left)
  {
    forall n | n in b.callbacks ensures n < b.cursor && ReportedStored(b, n) {
      var i :| 0 <= i < |a.consumed| && a.consumed[i].item.num == n && a.consumed[i].result.Stored?;
      assert b.consumed[i] == a.consumed[i];
    }
    forall c | c in left ensures c in b.consumed {
      var i :| 0 <= i < |a.consumed| && a.consumed[i] == c;
      assert b.consumed[i] == c;
    }
  }

  // ---------------------------------------------------------------- steps keep the reports in order

  lemma CallbackFrame(r: Run, q: Run)
    requires CallbackInv(r) && q.apply.(holes := {}) == r.apply.(holes := {})
    requires !q.ctl.pc.Draining? && !q.ctl.pc.WalkingBack?
    ensures CallbackInv(q)
  {
  }

  lemma SelectReceiveCallbacks(r: Run)
    requires CallbackInv(r) && FlowInv(r) && r.ctl.pc.Select? && r.pool.completions != []
    ensures CallbackInv(ReceiveCompletionStep(r))
  {
    var c := r.pool.completions[0];
    var b := Park(r.apply, c);
    var parked := At(TakeCompletion(r), Top).(apply := b);
    ParkFlow(r);
    PassReady(r.start, r.apply, b);
    BatchReady(parked, Batch(r.apply, b), false);
    ApplyBatchFrame(parked, Batch(r.apply, b), false);
  }

  lemma DrainReceiveCallbacks(r: Run)
    requires CallbackInv(r) && FlowInv(r) && r.ctl.pc.Draining? && r.ctl.episode.Some? && r.pool.completions != []
    ensures Ready(DrainReceiveStep(r).apply, r.ctl.pc.rest)
  {
    var c := r.pool.completions[0];
    var b := Park(r.apply, c);
    var parked := TakeCompletion(r).(apply := b);
    var q := DrainReceiveStep(r);
    ParkFlow(r);
    ApplyBatchFrame(parked, Batch(r.apply, b), r.ctl.pc.confirmed.None?);
    if r.ctl.pc.confirmed.None? {
      BatchSilent(parked, Batch(r.apply, b), true);
      GrowReady(r.apply, b, r.ctl.pc.rest);
      assert q.apply == b;
    } else {
      PassReady(r.start, r.apply, b);
      BatchReady(parked, Batch(r.apply, b), false);
    }
  }

  /** Applying a completion never changes which kind of episode is open. */
  lemma {:induction false} BatchPinned(r: Run, batch: seq<Completion>, suppress: bool)
    requires r.ctl.episode.Some?
    ensures var q := ApplyBatch(r, batch, suppress);
            q.ctl.episode.Some? && q.ctl.episode.value.stalePinned == r.ctl.episode.value.stalePinned
    decreases |batch|
  {
    if batch != [] {
      var r1 := ApplyOne(r, batch[0], suppress || Ended(r));
      ApplyFailureFrame(r.ctl, batch[0]);
      BatchPinned(r1, batch[1..], suppress);
    }
  }

  lemma DrainKeepsCallbacks(r: Run)
    requires CallbackInv(r) && FlowInv(r) && r.ctl.pc.Draining? && r.ctl.episode.Some? && r.pool.completions != []
    ensures CallbackInv(DrainReceiveStep(r))
  {
    var b := Park(r.apply, r.pool.completions[0]);
    DrainReceiveCallbacks(r);
    DrainReceiveStays(r);
    BatchPinned(TakeCompletion(r).(apply := b), Batch(r.apply, b), r.ctl.pc.confirmed.None?);
  }

  lemma FinishCallbacks(r: Run, visible: set<Block>, configuredStart: int, answers: W.Answers, interrupted: bool)
    requires CallbackInv(r) && r.ctl.pc.WalkingBack? && r.ctl.episode.Some?
    ensures CallbackInv(FinishEpisodeStep(r, visible, configuredStart, answers, interrupted))
  {
    var d := Finalize(r.ctl, r.ctl.episode.value, r.ctl.pc.confirmed, visible, configuredStart, answers, interrupted);
    var q := FinishEpisodeStep(r, visible, configuredStart, answers, interrupted);
    if r.ctl.pc.confirmed.None? {
      BatchReady(At(r.(ctl := d), Top), r.ctl.pc.rest, false);
      ApplyBatchFrame(At(r.(ctl := d), Top), r.ctl.pc.rest, false);
    } else {
      CallbackFrame(r, q);
    }
  }

  lemma ResolveCallbacks(r: Run, refetched: Item, interrupted: bool)
    requires CallbackInv(r) && r.ctl.pc.Resolving? && (r.ctl.episode.Some? ==> !r.ctl.episode.value.stalePinned)
    ensures CallbackInv(ResolveStep(r, r.ctl.pc.item, refetched, interrupted))
  {
  }

  lemma QuietCallbacks(r: Run, workers: nat, visible: set<Block>, a: Action)
    requires CallbackInv(r) && CollectorEnabled(r, workers, a)
    requires a.CollectorGuard? || a.ReceiveResult? || a.SeeCancellation? || a.SendToPool? || a.CollectorTop?
             || (a.ReceiveCompletion? && r.pool.completions == [])
    ensures CallbackInv(CollectorStep(r, workers, visible, 0, a))
  {
    CallbackFrame(r, CollectorStep(r, workers, visible, 0, a));
  }

  /** A confirmation wait is never a stale-pinned episode. */
  ghost predicate WaitNotPinned(ctl: Control) {
    ctl.episode.Some? && ctl.episode.value.stalePinned ==> ctl.pc.Draining? || ctl.pc.WalkingBack?
  }

  lemma CollectorCallbacks(r: Run, workers: nat, visible: set<Block>, configuredStart: int, a: Action)
    requires CallbackInv(r) && FlowInv(r) && PoolInv(r.pool, r.ctl, workers) && WaitNotPinned(r.ctl)
    requires CollectorEnabled(r, workers, a)
    ensures CallbackInv(CollectorStep(r, workers, visible, configuredStart, a))
  {
    if a.ReceiveCompletion? && r.pool.completions != [] {
      SelectReceiveCallbacks(r);
    } else if a.DrainReceive? {
      DrainKeepsCallbacks(r);
    } else if a.FinishEpisode? {
      FinishCallbacks(r, visible, configuredStart, a.answers, a.interrupted);
    } else if a.Resolve? {
      ResolveCallbacks(r, a.refetched, a.waitInterrupted);
    } else if a.DrainSettle? || a.DrainFinish? {
    } else {
      QuietCallbacks(r, workers, visible, a);
    }
  }

  lemma BatchWait(r: Run, batch: seq<Completion>, suppress: bool)
    requires WaitNotPinned(r.ctl)
    ensures WaitNotPinned(ApplyBatch(r, batch, suppress).ctl)
  {
    ApplyBatchFrame(r, batch, suppress);
    if r.ctl.episode.Some? {
      BatchPinned(r, batch, suppress);
    }
  }

  lemma FinishWait(r: Run, visible: set<Block>, configuredStart: int, answers: W.Answers, interrupted: bool)
    requires r.ctl.pc.WalkingBack? && r.ctl.episode.Some?
    ensures WaitNotPinned(FinishEpisodeStep(r, visible, configuredStart, answers, interrupted).ctl)
  {
    var d := Finalize(r.ctl, r.ctl.episode.value, r.ctl.pc.confirmed, visible, configuredStart, answers, interrupted);
    BatchWait(At(r.(ctl := d), Top), r.ctl.pc.rest, false);
  }

  lemma CollectorWait(r: Run, workers: nat, visible: set<Block>, configuredStart: int, a: Action)
    requires WaitNotPinned(r.ctl) && CollectorEnabled(r, workers, a)
    ensures WaitNotPinned(CollectorStep(r, workers, visible, configuredStart, a).ctl)
  {
    if (a.ReceiveCompletion? || a.DrainReceive?) && r.pool.completions != [] {
      var t := if a.DrainReceive? then TakeCompletion(r) else At(TakeCompletion(r), Top);
      var b := Park(r.apply, r.pool.completions[0]);
      BatchWait(t.(apply := b), Batch(r.apply, b), a.DrainReceive? && r.ctl.pc.confirmed.None?);
    } else if a.FinishEpisode? {
      FinishWait(r, visible, configuredStart, a.answers, a.interrupted);
    }
  }

  // ---------------------------------------------------------------- every stored height is reported

  ghost predicate Pinned(ctl: Control) {
    ctl.episode.Some? && ctl.episode.value.stalePinned
  }

  /** Every successful store among these completions was reported. */
  ghost predicate Reported(cs: seq<Completion>, callbacks: seq<int>) {
    forall i :: 0 <= i < |cs| && cs[i].result.Stored? ==> cs[i].item.num in callbacks
  }

  /** As long as nothing has ended or pinned the run, no successful store goes unreported. */
  ghost predicate AllReported(r: Run) {
    !r.ctl.cancelled && !Pinned(r.ctl) ==> Reported(r.apply.consumed, r.apply.callbacks)
  }

  lemma {:induction false} BatchReports(r: Run, batch: seq<Completion>)
    requires r.ctl.fatal ==> r.ctl.cancelled
    requires r.ctl.point.Some? ==> r.ctl.cancelled
    ensures var q := ApplyBatch(r, batch, false);
            && (forall n :: n in r.apply.callbacks ==> n in q.apply.callbacks)
            && (!q.ctl.cancelled && !Pinned(q.ctl) ==> Reported(batch, q.apply.callbacks))
    decreases |batch|
  {
    if batch != [] {
      var r1 := ApplyOne(r, batch[0], Ended(r));
      var q := ApplyBatch(r, batch, false);
      ApplyOneFrame(r, batch[0], Ended(r));
      if !(r.ctl.episode.None? && r1.ctl.episode.Some?) {
        BatchReports(r1, batch[1..]);
        ApplyBatchFrame(r1, batch[1..], false);
        if !q.ctl.cancelled && !Pinned(q.ctl) {
          forall i | 0 <= i < |batch| && batch[i].result.Stored? ensures batch[i].item.num in q.apply.callbacks {
            if i == 0 {
              assert r1.apply.callbacks == r.apply.callbacks + [batch[0].item.num];
              assert batch[0].item.num in r1.apply.callbacks;
            } else {
              assert batch[i] == batch[1..][i - 1];
            }
          }
        }
      }
    }
  }

  lemma ReportedSplit(a: Apply, b: Apply, callbacks: seq<int>)
    requires a.consumed <= b.consumed && Reported(a.consumed, callbacks) && Reported(Batch(a, b), callbacks)
    ensures Reported(b.consumed, callbacks)
  {
    forall i | 0 <= i < |b.consumed| && b.consumed[i].result.Stored? ensures b.consumed[i].item.num in callbacks {
      if i >= |a.consumed| {
        assert b.consumed[i] == Batch(a, b)[i - |a.consumed|];
      }
    }
  }

  lemma ReceiveReports(r: Run, pc: Pc)
    requires AllReported(r) && FlowInv(r) && r.pool.completions != []
    requires r.ctl.fatal ==> r.ctl.cancelled
    requires r.ctl.point.Some? ==> r.ctl.cancelled
    ensures AllReported(ApplyCompletion(At(TakeCompletion(r), pc), r.pool.completions[0], false))
  {
    var b := Park(r.apply, r.pool.completions[0]);
    var parked := At(TakeCompletion(r), pc).(apply := b);
    var batch := Batch(r.apply, b);
    var q := ApplyBatch(parked, batch, false);
    ParkFlow(r);
    BatchReports(parked, batch);
    ApplyBatchFrame(parked, batch, false);
    if r.ctl.episode.Some? {
      BatchPinned(parked, batch, false);
    }
    if !q.ctl.cancelled && !Pinned(q.ctl) {
      ReportedSplit(r.apply, b, q.apply.callbacks);
    }
  }

  lemma PinnedDrainReports(r: Run)
    requires r.ctl.pc.Draining? && Pinned(r.ctl) && r.pool.completions != []
    ensures AllReported(DrainReceiveStep(r))
  {
    var b := Park(r.apply, r.pool.completions[0]);
    BatchPinned(TakeCompletion(r).(apply := b), Batch(r.apply, b), r.ctl.pc.confirmed.None?);
  }

  lemma FinishReports(r: Run, visible: set<Block>, configuredStart: int, answers: W.Answers, interrupted: bool)
    requires r.ctl.pc.WalkingBack? && r.ctl.episode.Some?
    ensures FinishEpisodeStep(r, visible, configuredStart, answers, interrupted).ctl.cancelled
  {
    var d := Finalize(r.ctl, r.ctl.episode.value, r.ctl.pc.confirmed, visible, configuredStart, answers, interrupted);
    ApplyBatchFrame(At(r.(ctl := d), Top), r.ctl.pc.rest, false);
  }

  lemma ReportsFrame(r: Run, q: Run)
    requires AllReported(r) && q.apply.(holes := {}) == r.apply.(holes := {})
    requires !q.ctl.cancelled && !Pinned(q.ctl) ==> !r.ctl.cancelled && !Pinned(r.ctl)
    ensures AllReported(q)
  {
  }

  lemma ResolveReports(r: Run, refetched: Item, interrupted: bool)
    requires AllReported(r) && r.ctl.pc.Resolving? && WaitNotPinned(r.ctl)
    ensures AllReported(ResolveStep(r, r.ctl.pc.item, refetched, interrupted))
  {
    ReportsFrame(r, ResolveStep(r, r.ctl.pc.item, refetched, interrupted));
  }

  lemma CollectorReports(r: Run, workers: nat, visible: set<Block>, configuredStart: int, a: Action)
    requires AllReported(r) && CallbackInv(r) && FlowInv(r) && PoolInv(r.pool, r.ctl, workers) && WaitNotPinned(r.ctl)
    requires CollectorEnabled(r, workers, a)
    ensures AllReported(CollectorStep(r, workers, visible, configuredStart, a))
  {
    if a.ReceiveCompletion? && r.pool.completions != [] {
      ReceiveReports(r, Top);
    } else if a.DrainReceive? {
      if r.ctl.pc.confirmed.None? {
        PinnedDrainReports(r);
      } else {
        ReceiveReports(r, r.ctl.pc);
        assert At(TakeCompletion(r), r.ctl.pc) == TakeCompletion(r);
      }
    } else if a.FinishEpisode? {
      FinishReports(r, visible, configuredStart, a.answers, a.interrupted);
    } else if a.Resolve? {
      ResolveReports(r, a.refetched, a.waitInterrupted);
    } else {
      QuietReports(r, workers, visible, configuredStart, a);
    }
  }

  lemma QuietReports(r: Run, workers: nat, visible: set<Block>, configuredStart: int, a: Action)
    requires AllReported(r) && CollectorEnabled(r, workers, a) && !a.Resolve? && !a.FinishEpisode? && !a.DrainReceive?
    requires a.ReceiveCompletion? ==> r.pool.completions == []
    ensures AllReported(CollectorStep(r, workers, visible, configuredStart, a))
  {
    ReportsFrame(r, CollectorStep(r, workers, visible, configuredStart, a));
  }

  // ---------------------------------------------------------------- intake

  /** Fetched results are dispatched heights of this run, and the pop cursor never overtakes the dispatcher. */
  ghost predicate FeedInv(start: int, feed: Feed, next: int) {
    && start <= next <= feed.dispatchedUpTo + 1
    && (forall n :: n in feed.fetching ==> start <= n <= feed.dispatchedUpTo)
    && (forall x :: x in feed.results ==> start <= x.num <= feed.dispatchedUpTo)
    && (forall n :: n in feed.pending ==> feed.pending[n].num == n && start <= n <= feed.dispatchedUpTo)
  }

  lemma CollectorFeed(r: Run, workers: nat, visible: set<Block>, configuredStart: int, a: Action)
    requires FeedInv(r.start, r.feed, r.check.next) && CollectorEnabled(r, workers, a)
    ensures var q := CollectorStep(r, workers, visible, configuredStart, a);
            q.start == r.start && FeedInv(q.start, q.feed, q.check.next)
  {
    if (a.ReceiveCompletion? || a.DrainReceive?) && r.pool.completions != [] {
      var t := if a.DrainReceive? then TakeCompletion(r) else At(TakeCompletion(r), Top);
      var b := Park(r.apply, r.pool.completions[0]);
      ApplyBatchFrame(t.(apply := b), Batch(r.apply, b), a.DrainReceive? && r.ctl.pc.confirmed.None?);
    } else if a.FinishEpisode? {
      var d := Finalize(r.ctl, r.ctl.episode.value, r.ctl.pc.confirmed, visible, configuredStart, a.answers, a.interrupted);
      ApplyBatchFrame(At(r.(ctl := d), Top), r.ctl.pc.rest, false);
    }
  }

  lemma FeedStepFeed(r: Run, workers: nat, a: Action)
    requires FeedInv(r.start, r.feed, r.check.next) && FeedEnabled(r, workers, a)
    ensures FeedInv(r.start, FeedStep(r, a).feed, r.check.next)
  {
  }

  // ---------------------------------------------------------------- every reachable state

  ghost predicate ApplyInv(r: Run, workers: nat) {
    && PoolInv(r.pool, r.ctl, workers) && FeedInv(r.start, r.feed, r.check.next) && FlowInv(r)
    && CallbackInv(r) && WaitNotPinned(r.ctl) && AllReported(r)
  }

  lemma CollectorKeepsApply(r: Run, workers: nat, visible: set<Block>, configuredStart: int, a: Action)
    requires ApplyInv(r, workers) && CollectorEnabled(r, workers, a)
    ensures ApplyInv(CollectorStep(r, workers, visible, configuredStart, a), workers)
  {
    CollectorStepKeeps(r, workers, visible, configuredStart, a);
    CollectorFeed(r, workers, visible, configuredStart, a);
    CollectorFlow(r, workers, visible, configuredStart, a);
    CollectorCallbacks(r, workers, visible, configuredStart, a);
    CollectorWait(r, workers, visible, configuredStart, a);
    CollectorReports(r, workers, visible, configuredStart, a);
  }

  lemma PoolKeepsApply(r: Run, workers: nat, visible: set<Block>, a: Action)
    requires ApplyInv(r, workers) && PoolEnabled(r, workers, a)
    ensures ApplyInv(r.(pool := PoolStep(r.pool, visible, a)), workers)
  {
    var q := r.(pool := PoolStep(r.pool, visible, a));
    PoolStepKeeps(r, workers, visible, a);
    PoolFlow(r, workers, visible, a);
    FlowFrame(r, q);
  }

  lemma FeedKeepsApply(r: Run, workers: nat, a: Action)
    requires ApplyInv(r, workers) && FeedEnabled(r, workers, a)
    ensures ApplyInv(FeedStep(r, a), workers)
  {
    FeedStepFeed(r, workers, a);
    FlowFrame(r, FeedStep(r, a));
  }

  lemma NewRunApply(start: int, seed: Hash, guards: Guards, workers: nat)
    ensures ApplyInv(NewRun(start, seed, guards), workers)
  {
    var r := NewRun(start, seed, guards);
    assert Nums([]) == [];
    assert FlowInv(r);
  }

  /** The commit bookkeeping plays no part in the ordered apply. */
  lemma BookFrame(r: Run, book: Book, workers: nat)
    requires ApplyInv(r, workers)
    ensures ApplyInv(r.(book := book), workers)
  {
    FlowFrame(r, r.(book := book));
  }

  lemma OuterKeepsApply(s: System, workers: nat, a: Action)
    requires ApplyInv(s.run, workers) && OuterEnabled(s, a)
    ensures ApplyInv(Step(s, workers, a).run, workers)
  {
    var q := Step(s, workers, a);
    if a.Restart? && q.phase.Running? {
      NewRunApply(s.phase.from, q.run.seed, s.run.book.guards, workers);
    } else {
      BookFrame(s.run, q.run.book, workers);
      assert q.run == s.run.(book := q.run.book);
    }
  }

  lemma StepKeepsApply(s: System, workers: nat, a: Action)
    requires ApplyInv(s.run, workers) && Enabled(s, workers, a)
    ensures ApplyInv(Step(s, workers, a).run, workers)
  {
    if OuterEnabled(s, a) {
      OuterKeepsApply(s, workers, a);
    } else if CollectorEnabled(s.run, workers, a) {
      CollectorKeepsApply(s.run, workers, s.visible, s.configuredStart, a);
    } else if PoolEnabled(s.run, workers, a) {
      PoolKeepsApply(s.run, workers, s.visible, a);
    } else {
      FeedKeepsApply(s.run, workers, a);
    }
  }

  lemma {:induction false} RunKeepsApply(workers: nat, states: seq<System>, actions: seq<Action>, i: nat)
    requires IsRun(workers, states, actions) && i < |states|
    ensures ApplyInv(states[i].run, workers)
  {
    if i > 0 {
      RunKeepsApply(workers, states, actions, i - 1);
      StepKeepsApply(states[i - 1], workers, actions[i - 1]);
    } else {
      NewRunApply(states[0].run.start, states[0].run.seed, Guards(0, map[], []), workers);
    }
  }

  lemma RunKeepsFeed(workers: nat, states: seq<System>, actions: seq<Action>, i: nat)
    requires IsRun(workers, states, actions) && i < |states|
    ensures FeedInv(states[i].run.start, states[i].run.feed, states[i].run.check.next)
  {
    RunKeepsApply(workers, states, actions, i);
  }

  /** Parked completions lie between the two cursors and away from the holes. */
  lemma ParkedInWindow(r: Run, n: int)
    requires FlowInv(r) && n in r.apply.reorder
    ensures r.apply.cursor <= n < r.check.next && n !in r.apply.holes
  {
    assert multiset(r.apply.reorder.Keys)[n] == 1;
    assert ApplyHeights(r.apply)[n] >= 1;
    assert (PoolHeights(r.pool) + ApplyHeights(r.apply))[n] >= 1;
    assert n in r.check.handed;
    assert multiset(r.check.handed.Keys)[n] == 1;
    assert multiset(Nums(r.apply.consumed))[n] == 0;
  }

  /** A height the cursor has passed was a hole or a completion, and never both. */
  lemma PassedOnce(r: Run, n: int)
    requires FlowInv(r) && r.start <= n < r.apply.cursor
    ensures n in r.apply.skipped <==> n !in Nums(r.apply.consumed)
    ensures multiset(Nums(r.apply.consumed))[n] == (if n in r.apply.skipped then 0 else 1)
  {
    if n in Nums(r.apply.consumed) {
      assert multiset(Nums(r.apply.consumed))[n] >= 1;
      assert (PoolHeights(r.pool) + ApplyHeights(r.apply))[n] >= 1;
      assert n in r.check.handed;
      assert multiset(r.check.handed.Keys)[n] == 1;
    }
  }

  /**
   * Ordered apply, in every reachable state: each height below the cursor was
   * consumed exactly once, as a hole or as a completion; holes and parked
   * completions are apart and lie in [cursor, next); the caller hears of stored
   * heights only, in strictly increasing order; and no successful store goes
   * unreported while the run is neither cancelled nor pinned to a stale store.
   */
  lemma OrderedApplyHolds(workers: nat, states: seq<System>, actions: seq<Action>, i: nat)
    requires IsRun(workers, states, actions) && i < |states|
    ensures var r := states[i].run; var a := r.apply;
            && (forall n :: r.start <= n < a.cursor ==>
                  multiset(Nums(a.consumed))[n] == if n in a.skipped then 0 else 1)
            && (forall n :: n in a.holes ==> a.cursor <= n < r.check.next && n !in a.reorder)
            && (forall n :: n in a.reorder ==> a.cursor <= n < r.check.next)
            && Ascending(a.callbacks)
            && (forall n :: n in a.callbacks ==> ReportedStored(a, n))
            && (!r.ctl.cancelled && !Pinned(r.ctl) ==> Reported(a.consumed, a.callbacks))
  {
    RunKeepsApply(workers, states, actions, i);
    var r := states[i].run;
    forall n | r.start <= n < r.apply.cursor
      ensures multiset(Nums(r.apply.consumed))[n] == if n in r.apply.skipped then 0 else 1
    {
      PassedOnce(r, n);
    }
    forall n | n in r.apply.reorder ensures r.apply.cursor <= n < r.check.next && n !in r.apply.holes {
      ParkedInWindow(r, n);
    }
  }

  /** An ended run stays ended and silent, step by step. */
  lemma EndedIsSilent(s: System, workers: nat, a: Action)
    requires Enabled(s, workers, a) && Ended(s.run) && !a.Restart?
    ensures var q := Step(s, workers, a).run; Ended(q) && q.apply.callbacks == s.run.apply.callbacks
  {
    if !OuterEnabled(s, a) && CollectorEnabled(s.run, workers, a) {
      CollectorSilent(s.run, workers, s.visible, s.configuredStart, a);
    }
  }

  lemma CollectorSilent(r: Run, workers: nat, visible: set<Block>, configuredStart: int, a: Action)
    requires CollectorEnabled(r, workers, a) && Ended(r)
    ensures var q := CollectorStep(r, workers, visible, configuredStart, a); Ended(q) && q.apply.callbacks == r.apply.callbacks
  {
    if (a.ReceiveCompletion? || a.DrainReceive?) && r.pool.completions != [] {
      var t := if a.DrainReceive? then TakeCompletion(r) else At(TakeCompletion(r), Top);
      var b := Park(r.apply, r.pool.completions[0]);
      ParkCallbacks(r.apply.(reorder := r.apply.reorder[r.pool.completions[0].item.num := r.pool.completions[0]]));
      BatchSilent(t.(apply := b), Batch(r.apply, b), a.DrainReceive? && r.ctl.pc.confirmed.None?);
      ApplyBatchFrame(t.(apply := b), Batch(r.apply, b), a.DrainReceive? && r.ctl.pc.confirmed.None?);
    } else if a.FinishEpisode? {
      FinishSilent(r, visible, configuredStart, a.answers, a.interrupted);
    }
  }

  lemma {:induction false} ParkCallbacks(a: Apply)
    ensures CollectReady(a).callbacks == a.callbacks
    decreases |a.holes| + |a.reorder|
  {
    if a.cursor in a.holes {
      ParkCallbacks(SkipHole(a));
    } else if a.cursor in a.reorder {
      ParkCallbacks(Consume(a));
    }
  }

  lemma FinishSilent(r: Run, visible: set<Block>, configuredStart: int, answers: W.Answers, interrupted: bool)
    requires r.ctl.pc.WalkingBack? && r.ctl.episode.Some? && Ended(r)
    ensures var q := FinishEpisodeStep(r, visible, configuredStart, answers, interrupted);
            Ended(q) && q.apply.callbacks == r.apply.callbacks
  {
    var d := Finalize(r.ctl, r.ctl.episode.value, r.ctl.pc.confirmed, visible, configuredStart, answers, interrupted);
    BatchSilent(At(r.(ctl := d), Top), r.ctl.pc.rest, false);
    ApplyBatchFrame(At(r.(ctl := d), Top), r.ctl.pc.rest, false);
  }

  /** Once a rollback point or a fatal error is recorded, the run never reports another height. */
  lemma {:induction false} SilentAfterEnd(workers: nat, states: seq<System>, actions: seq<Action>, i: nat, j: nat)
    requires IsRun(workers, states, actions) && i <= j < |states| && Ended(states[i].run)
    requires forall k :: i <= k < j ==> !actions[k].Restart?
    ensures Ended(states[j].run) && states[j].run.apply.callbacks == states[i].run.apply.callbacks
    decreases j
  {
    if i < j {
      SilentAfterEnd(workers, states, actions, i, j - 1);
      EndedIsSilent(states[j - 1], workers, actions[j - 1]);
    }
  }
}
