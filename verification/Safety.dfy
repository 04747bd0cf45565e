/**
 * Whole-protocol safety: over every run, with any number of reorgs, rollbacks and
 * restarts, the visible store never holds two blocks at one height or two
 * neighbours that are not parent and child.
 */
module Safety {
  import opened Chain
  import opened Processor
  import opened StorePool
  import opened OrderedApply
  import opened Continuity

  /** One block per height, neighbours linked, every block named. */
  ghost predicate StoreSafe(visible: set<Block>) {
    UniqueHeights(visible) && ParentLinked(visible) && NamedBlocks(visible)
  }

  // ---------------------------------------------------------------- invariants

  /** From its start upwards the store holds only what this run handed to its pool; below lies what the seed continues. */
  ghost predicate RunOwns(visible: set<Block>, r: Run) {
    && 0 <= r.start
    && (forall b :: b in visible && b.num >= r.start ==> b.num in r.check.handed && b == BlockOf(r.check.handed[b.num]))
    && (forall b :: b in visible && b.num == r.start - 1 ==> b.hash == r.seed)
  }

  ghost predicate NamedFeed(feed: Feed) {
    && (forall x :: x in feed.results && x.ok ==> Usable(x))
    && (forall n :: n in feed.pending && feed.pending[n].ok ==> Usable(feed.pending[n]))
  }

  ghost predicate NamedHanded(check: Check) {
    forall n :: n in check.handed ==> Usable(check.handed[n])
  }

  /** No store was verified stale, so no episode is pinned. */
  ghost predicate Clean(cs: seq<Completion>) {
    forall c :: c in cs ==> c.stale.None?
  }

  ghost predicate NoStale(r: Run) {
    && Clean(r.pool.finished) && Clean(r.pool.completions) && Clean(r.apply.consumed)
    && (forall k :: k in r.apply.reorder ==> r.apply.reorder[k].stale.None?)
    && ((r.ctl.pc.Draining? || r.ctl.pc.WalkingBack?) ==> Clean(r.ctl.pc.rest))
    && (r.ctl.episode.Some? ==> !r.ctl.episode.value.stalePinned && r.start <= r.ctl.episode.value.baseHeight)
  }

  /** Everything visible above the fork point is a proven orphan. */
  ghost predicate Orphans(visible: set<Block>, point: RollbackPoint) {
    && 0 <= point.fork
    && forall b :: b in visible && b.num > point.fork ==>
         b.num in point.hashes && point.hashes[b.num] != NoHash && b.hash != point.hashes[b.num]
  }

  /** The rollback has emptied every height above the one it stands at. */
  ghost predicate Cleared(s: System) {
    s.phase.RollingBack? ==>
      && s.run.ctl.point == Some(s.phase.point) && s.phase.from == s.phase.point.fork + 1
      && forall b :: b in s.visible && b.num >= s.phase.from ==> b.num <= s.phase.height
  }

  ghost predicate SafeInv(s: System) {
    && StoreSafe(s.visible) && RunOwns(s.visible, s.run)
    && NamedFeed(s.run.feed) && NamedHanded(s.run.check) && NoStale(s.run)
    && (s.run.ctl.point.Some? ==> Orphans(s.visible, s.run.ctl.point.value))
    && Cleared(s)
  }

  // ---------------------------------------------------------------- a store lands

  /** A checked block landing keeps the store safe: it is the only block at its height and links to both neighbours. */
  lemma LandingIsSafe(visible: set<Block>, r: Run, item: Item)
    requires StoreSafe(visible) && RunOwns(visible, r) && ChainInv(r) && NamedHanded(r.check) && Known(r.check, item)
    ensures StoreSafe(visible + {BlockOf(item)}) && RunOwns(visible + {BlockOf(item)}, r)
  {
    var after := visible + {BlockOf(item)};
    forall a, b | a in after && b in after && b.num == a.num + 1 ensures b.parent == a.hash {
      if b.num > r.start {
        assert Agree(r.check.handed[b.num].parent, r.check.handed[a.num].hash);
      } else if b.num == r.start {
        assert b == BlockOf(r.check.handed[b.num]);
      }
    }
  }

  /** Whatever landed at a failed height is the item itself, so the failure handler never reports it stale. */
  lemma NeverStale(visible: set<Block>, r: Run, item: Item, result: StoreResult, landed: bool, queryFails: bool)
    requires StoreSafe(visible) && RunOwns(visible, r) && ChainInv(r) && NamedHanded(r.check) && Known(r.check, item)
    ensures Outcome(item, visible, result, landed, queryFails).stale.None?
  {
    var after := Land(visible, item, result, landed);
    LandingIsSafe(visible, r, item);
    StoredHashSound(after, item.num);
  }

  lemma PoolSafe(s: System, workers: nat, a: Action)
    requires SafeInv(s) && CheckInv(s.run) && PoolInv(s.run.pool, s.run.ctl, workers) && s.phase.Running?
    requires PoolEnabled(s.run, workers, a)
    ensures SafeInv(Step(s, workers, a))
  {
    var p := s.run.pool;
    if a.PoolStore? {
      var item := p.busy[a.index];
      assert item in p.busy;
      LandingIsSafe(s.visible, s.run, item);
      NeverStale(s.visible, s.run, item, a.result, a.landed, a.staleQueryFails);
    } else if a.PoolReport? {
      assert p.finished[a.index] in p.finished;
    }
  }

  // ---------------------------------------------------------------- the collector

  lemma {:induction false} CollectReadyClean(a: Apply)
    requires Clean(a.consumed) && (forall k :: k in a.reorder ==> a.reorder[k].stale.None?)
    ensures Clean(CollectReady(a).consumed) && (forall k :: k in CollectReady(a).reorder ==> CollectReady(a).reorder[k].stale.None?)
    decreases |a.holes| + |a.reorder|
  {
    if a.cursor in a.holes {
      CollectReadyClean(SkipHole(a));
    } else if a.cursor in a.reorder {
      CollectReadyClean(Consume(a));
    }
  }

  /** A batch without stale reports opens no episode. */
  lemma {:induction false} BatchClean(r: Run, batch: seq<Completion>, suppress: bool)
    requires Clean(batch)
    ensures var q := ApplyBatch(r, batch, suppress); q.ctl.episode == r.ctl.episode && q.pool == r.pool && q.ctl.pc == r.ctl.pc
    decreases |batch|
  {
    if batch != [] {
      var r1 := ApplyOne(r, batch[0], suppress || Ended(r));
      assert batch[0] in batch;
      ApplyOneFrame(r, batch[0], suppress || Ended(r));
      BatchClean(r1, batch[1..], suppress);
    }
  }

  lemma BatchSafe(s: System, batch: seq<Completion>, suppress: bool)
    requires SafeInv(s) && Clean(batch)
    ensures SafeInv(s.(run := ApplyBatch(s.run, batch, suppress)))
  {
    ApplyBatchFrame(s.run, batch, suppress);
    BatchClean(s.run, batch, suppress);
  }

  lemma ReceiveSafe(s: System, pc: Pc, suppress: bool)
    requires SafeInv(s) && s.run.pool.completions != [] && (pc.Top? || pc == s.run.ctl.pc)
    ensures SafeInv(s.(run := ApplyCompletion(At(TakeCompletion(s.run), pc), s.run.pool.completions[0], suppress)))
  {
    var r := s.run;
    var c := r.pool.completions[0];
    assert c in r.pool.completions;
    CollectReadyClean(r.apply.(reorder := r.apply.reorder[c.item.num := c]));
    var b := Park(r.apply, c);
    BatchSafe(s.(run := At(TakeCompletion(r), pc).(apply := b)), Batch(r.apply, b), suppress);
  }

  /** Steps that touch neither the store, the checked items, the completions nor the rollback point. */
  lemma SafeFrame(s: System, q: Run)
    requires SafeInv(s) && s.phase.Running?
    requires q.start == s.run.start && q.seed == s.run.seed && q.check.handed == s.run.check.handed && NamedFeed(q.feed)
    requires q.pool == s.run.pool && q.apply == s.run.apply.(holes := q.apply.holes) && q.ctl.point == s.run.ctl.point
    requires !q.ctl.pc.Draining? && !q.ctl.pc.WalkingBack?
    requires q.ctl.episode.Some? ==> !q.ctl.episode.value.stalePinned && q.start <= q.ctl.episode.value.baseHeight
    ensures SafeInv(s.(run := q))
  {
  }

  /** Registering a checked item only adds a height the store holds nothing at yet. */
  lemma RegisterSafe(s: System, q: Run, item: Item)
    requires SafeInv(s) && s.phase.Running? && item.num !in s.run.check.handed && Usable(item)
    requires q.start == s.run.start && q.seed == s.run.seed && q.check.handed == s.run.check.handed[item.num := item]
    requires NamedFeed(q.feed) && q.pool == Register(s.run.pool, item) && q.apply == s.run.apply
    requires q.ctl.point == s.run.ctl.point && q.ctl.episode.None? && q.ctl.pc.Guard?
    ensures SafeInv(s.(run := q))
  {
  }

  lemma TopSafe(s: System, queryFails: bool)
    requires SafeInv(s) && CheckInv(s.run) && FeedInv(s.run.start, s.run.feed, s.run.check.next)
    requires s.phase.Running? && s.run.ctl.pc.Top?
    ensures SafeInv(s.(run := TopStep(s.run, s.visible, queryFails)))
  {
    var r, q := s.run, TopStep(s.run, s.visible, queryFails);
    PopNamed(r);
    if r.pool.holding.None? && r.check.next in r.feed.pending && r.ctl.point.None? && !r.ctl.cancelled && r.ctl.episode.None? {
      DispatchSafe(s, queryFails, r.feed.pending[r.check.next]);
    } else {
      SafeFrame(s, q);
    }
  }

  lemma PopNamed(r: Run)
    requires NamedFeed(r.feed)
    ensures NamedFeed(Pop(r).feed)
  {
  }

  lemma DispatchSafe(s: System, queryFails: bool, item: Item)
    requires SafeInv(s) && ChainInv(s.run) && s.phase.Running? && s.run.ctl.episode.None? && s.run.ctl.point.None?
    requires s.run.check.next in s.run.feed.pending && item == s.run.feed.pending[s.run.check.next]
    requires item.num == s.run.check.next && item.num !in s.run.check.handed && s.run.start <= item.num && s.run.pool.holding.None?
    ensures SafeInv(s.(run := At(CheckForDispatch(Pop(s.run), s.visible, queryFails, item), Guard)))
  {
    var q := At(CheckForDispatch(Pop(s.run), s.visible, queryFails, item), Guard);
    PopNamed(s.run);
    if item.ok && q.ctl.episode.None? {
      RegisterSafe(s, q, item);
    } else {
      SafeFrame(s, q);
    }
  }

  /** The point a pop-time episode records proves every visible block above the fork an orphan. */
  lemma PointProvesOrphans(s: System, ep: Episode, item: Item, answers: W.Answers)
    requires SafeInv(s) && !ep.stalePinned && ep.baseParent != NoHash && s.run.start <= ep.baseHeight
    requires forall n :: n in s.run.check.handed ==> n < ep.baseHeight
    requires Confirms(ep, item)
    ensures var out := W.ResolveForkPoint(s.visible, s.configuredStart, answers, WalkStart(ep).0, WalkStart(ep).1);
            out.Found? ==> Orphans(s.visible, FullEvidence(ep, Some(item), out.fork, out.hashes, answers))
                           && out.fork < ep.baseHeight
  {
    var start := WalkStart(ep);
    var out := W.ResolveForkPoint(s.visible, s.configuredStart, answers, start.0, start.1);
    W.EvidenceIsOneChain(s.visible, s.configuredStart, answers, start.0, start.1);
    if out.Found? {
      var point := FullEvidence(ep, Some(item), out.fork, out.hashes, answers);
      forall b | b in s.visible && b.num > point.fork
        ensures b.num in point.hashes && point.hashes[b.num] != NoHash && b.hash != point.hashes[b.num]
      {
        assert b.num < ep.baseHeight;
        assert b.num in out.hashes && point.hashes[b.num] == out.hashes[b.num];
      }
    }
  }

  lemma FinishSafe(s: System, answers: W.Answers, interrupted: bool)
    requires SafeInv(s) && CheckInv(s.run) && s.phase.Running? && s.run.ctl.pc.WalkingBack? && s.run.ctl.episode.Some?
    ensures SafeInv(s.(run := FinishEpisodeStep(s.run, s.visible, s.configuredStart, answers, interrupted)))
  {
    var r := s.run;
    var ep := r.ctl.episode.value;
    PointProvesOrphans(s, ep, r.ctl.pc.confirmed.value, answers);
    var d := Finalize(r.ctl, ep, r.ctl.pc.confirmed, s.visible, s.configuredStart, answers, interrupted);
    BatchSafe(s.(run := At(r.(ctl := d), Top)), r.ctl.pc.rest, false);
  }

  lemma ResolveSafe(s: System, refetched: Item, interrupted: bool)
    requires SafeInv(s) && CheckInv(s.run) && s.phase.Running? && s.run.ctl.pc.Resolving?
    ensures SafeInv(s.(run := ResolveStep(s.run, s.run.ctl.pc.item, refetched, interrupted)))
  {
    var q := ResolveStep(s.run, s.run.ctl.pc.item, refetched, interrupted);
    ResolveChanges(s.run, refetched, interrupted);
    if q.ctl.pc.Draining? {
      EnterDrainSafe(s, Some(s.run.ctl.pc.item));
    } else {
      ControlSafe(s, q.ctl);
    }
  }

  /** A turn of the wait starts the drain, or changes only the collector's control state. */
  lemma ResolveChanges(r: Run, refetched: Item, interrupted: bool)
    requires CheckInv(r) && r.ctl.pc.Resolving?
    requires r.ctl.episode.Some? ==> !r.ctl.episode.value.stalePinned && r.start <= r.ctl.episode.value.baseHeight
    ensures var q := ResolveStep(r, r.ctl.pc.item, refetched, interrupted);
            if q.ctl.pc.Draining? then q == EnterDrain(r, Some(r.ctl.pc.item), [])
            else
              && q == r.(ctl := q.ctl) && !q.ctl.pc.WalkingBack? && q.ctl.point == r.ctl.point
              && (q.ctl.episode.Some? ==> !q.ctl.episode.value.stalePinned && r.start <= q.ctl.episode.value.baseHeight)
  {
  }

  lemma ControlSafe(s: System, ctl: Control)
    requires SafeInv(s) && s.phase.Running? && ctl.point == s.run.ctl.point && !ctl.pc.Draining? && !ctl.pc.WalkingBack?
    requires ctl.episode.Some? ==> !ctl.episode.value.stalePinned && s.run.start <= ctl.episode.value.baseHeight
    ensures SafeInv(s.(run := s.run.(ctl := ctl)))
  {
    SafeFrame(s, s.run.(ctl := ctl));
  }

  lemma EnterDrainSafe(s: System, confirmed: Option<Item>)
    requires SafeInv(s) && s.phase.Running?
    ensures SafeInv(s.(run := EnterDrain(s.run, confirmed, [])))
  {
  }

  lemma CollectorSafe(s: System, workers: nat, a: Action)
    requires SafeInv(s) && CheckInv(s.run) && FeedInv(s.run.start, s.run.feed, s.run.check.next) && s.phase.Running?
    requires CollectorEnabled(s.run, workers, a)
    ensures SafeInv(s.(run := CollectorStep(s.run, workers, s.visible, s.configuredStart, a)))
  {
    var r := s.run;
    if a.CollectorTop? {
      TopSafe(s, a.gapQueryFails);
    } else if a.ReceiveCompletion? && r.pool.completions != [] {
      ReceiveSafe(s, Top, false);
    } else if a.DrainReceive? {
      ReceiveSafe(s, r.ctl.pc, r.ctl.pc.confirmed.None?);
      assert At(TakeCompletion(r), r.ctl.pc) == TakeCompletion(r);
    } else if a.FinishEpisode? {
      FinishSafe(s, a.answers, a.interrupted);
    } else if a.Resolve? {
      ResolveSafe(s, a.refetched, a.waitInterrupted);
    } else if a.SendToPool? || a.CollectorGuard? || a.SeeCancellation? {
      HandOverSafe(s, workers, a);
    } else if a.DrainSettle? || a.DrainFinish? {
      DrainPositionSafe(s, workers, a);
    } else {
      ChannelSafe(s, workers, a);
    }
  }

  /** Steps that only move items between the collector and the store channel. */
  lemma PoolFrameSafe(s: System, q: Run)
    requires SafeInv(s) && s.phase.Running? && q == s.run.(pool := q.pool, ctl := s.run.ctl.(pc := q.ctl.pc))
    requires q.pool.finished == s.run.pool.finished && q.pool.completions == s.run.pool.completions
    requires !q.ctl.pc.Draining? && !q.ctl.pc.WalkingBack?
    ensures SafeInv(s.(run := q))
  {
  }

  lemma HandOverSafe(s: System, workers: nat, a: Action)
    requires SafeInv(s) && s.phase.Running? && CollectorEnabled(s.run, workers, a)
    requires a.SendToPool? || a.CollectorGuard? || a.SeeCancellation?
    ensures SafeInv(s.(run := CollectorStep(s.run, workers, s.visible, s.configuredStart, a)))
  {
    PoolFrameSafe(s, CollectorStep(s.run, workers, s.visible, s.configuredStart, a));
  }

  lemma DrainPositionSafe(s: System, workers: nat, a: Action)
    requires SafeInv(s) && s.phase.Running? && CollectorEnabled(s.run, workers, a) && (a.DrainSettle? || a.DrainFinish?)
    ensures SafeInv(s.(run := CollectorStep(s.run, workers, s.visible, s.configuredStart, a)))
  {
    var q := CollectorStep(s.run, workers, s.visible, s.configuredStart, a);
    assert q == s.run.(ctl := s.run.ctl.(pc := q.ctl.pc)) && q.ctl.pc.rest == s.run.ctl.pc.rest;
    assert NoStale(q);
  }

  /** A delivered result, or a channel seen closed. */
  lemma ChannelSafe(s: System, workers: nat, a: Action)
    requires SafeInv(s) && s.phase.Running? && CollectorEnabled(s.run, workers, a)
    requires a.ReceiveResult? || (a.ReceiveCompletion? && s.run.pool.completions == [])
    ensures SafeInv(s.(run := CollectorStep(s.run, workers, s.visible, s.configuredStart, a)))
  {
    var q := CollectorStep(s.run, workers, s.visible, s.configuredStart, a);
    if a.ReceiveResult? && s.run.feed.results != [] {
      assert s.run.feed.results[0] in s.run.feed.results;
    }
    SafeFrame(s, q);
  }

  // ---------------------------------------------------------------- the outer loop

  lemma ShrinkingIsSafe(visible: set<Block>, r: Run, h: int)
    requires StoreSafe(visible) && RunOwns(visible, r)
    ensures StoreSafe(visible - BlocksAt(visible, h)) && RunOwns(visible - BlocksAt(visible, h), r)
    ensures forall point :: Orphans(visible, point) ==> Orphans(visible - BlocksAt(visible, h), point)
  {
  }

  lemma RunEndsSafe(s: System)
    requires SafeInv(s) && s.phase.Running? && CheckInv(s.run) && FeedInv(s.run.start, s.run.feed, s.run.check.next)
    ensures SafeInv(RunEndsStep(s))
  {
  }

  /** An orphan is deleted when the rollback reaches it, so nothing visible is left above. */
  lemma RollbackHeightSafe(s: System, fault: RollbackFault)
    requires SafeInv(s) && s.phase.RollingBack? && s.phase.height >= s.phase.from
    ensures SafeInv(RollbackHeightStep(s, fault))
  {
    var h := s.phase.height;
    ShrinkingIsSafe(s.visible, s.run, h);
    StoredHashOfUnique(s.visible, h);
    var q := RollbackHeightStep(s, fault);
    assert q.visible == s.visible || q.visible == s.visible - BlocksAt(s.visible, h);
    if q.phase.RollingBack? {
      forall b | b in q.visible && b.num >= q.phase.from ensures b.num <= q.phase.height {
        assert b.num == h ==> b in BlocksAt(s.visible, h);
      }
    }
  }

  /** The restart finds nothing at or above its height and continues the block below it. */
  lemma RestartSafe(s: System, queryFails: bool)
    requires SafeInv(s) && CheckInv(s.run) && s.phase.RollingBack? && s.phase.height < s.phase.from
    ensures SafeInv(RestartStep(s, queryFails))
  {
    var from := s.phase.from;
    StoredHashOfUnique(s.visible, from - 1);
    forall b | b in s.visible && b.num == from - 1 && from - 1 in s.run.book.committed
      ensures b.hash == s.run.book.committed[from - 1]
    {
      assert from - 1 in s.run.check.handed;
    }
  }

  lemma OuterSafe(s: System, workers: nat, a: Action)
    requires SafeInv(s) && CheckInv(s.run) && FeedInv(s.run.start, s.run.feed, s.run.check.next) && OuterEnabled(s, a)
    ensures SafeInv(Step(s, workers, a))
  {
    match a
    case RunEnds => RunEndsSafe(s);
    case RollbackHeight(fault) => RollbackHeightSafe(s, fault);
    case Restart(queryFails) => RestartSafe(s, queryFails);
  }

  /** Every block the node serves carries its own hash and its parent's. */
  ghost predicate NamedAction(a: Action) {
    a.Fetched? && a.item.ok ==> Usable(a.item)
  }

  lemma StepKeepsSafe(s: System, workers: nat, a: Action)
    requires SafeInv(s) && ApplyInv(s.run, workers) && CheckInv(s.run) && Enabled(s, workers, a) && NamedAction(a)
    ensures SafeInv(Step(s, workers, a))
  {
    if OuterEnabled(s, a) {
      OuterSafe(s, workers, a);
    } else if CollectorEnabled(s.run, workers, a) {
      CollectorSafe(s, workers, a);
    } else if PoolEnabled(s.run, workers, a) {
      PoolSafe(s, workers, a);
    } else {
      FeedSafe(s, workers, a);
    }
  }

  /** Dispatching and fetching touch only the feed, and a shutdown only the cancellation flag. */
  lemma FeedSafe(s: System, workers: nat, a: Action)
    requires SafeInv(s) && s.phase.Running? && FeedEnabled(s.run, workers, a) && NamedAction(a)
    ensures SafeInv(s.(run := FeedStep(s.run, a)))
  {
  }

  /** Nothing is stored at or above this height. */
  ghost predicate EmptyFrom(visible: set<Block>, start: int) {
    forall b :: b in visible ==> b.num < start
  }

  ghost predicate NamedRun(actions: seq<Action>) {
    forall i :: 0 <= i < |actions| ==> NamedAction(actions[i])
  }

  lemma InitialSafe(s: System)
    requires Initial(s) && StoreSafe(s.visible) && EmptyFrom(s.visible, s.run.start)
    ensures SafeInv(s)
  {
    StoredHashOfUnique(s.visible, s.run.start - 1);
  }

  lemma RunStepSafe(workers: nat, states: seq<System>, actions: seq<Action>, k: nat)
    requires IsRun(workers, states, actions) && NamedRun(actions) && k < |actions| && SafeInv(states[k])
    ensures SafeInv(states[k + 1])
  {
    RunKeepsApply(workers, states, actions, k);
    RunKeepsCheck(workers, states, actions, k);
    StepKeepsSafe(states[k], workers, actions[k]);
  }

  lemma {:induction false} RunKeepsSafe(workers: nat, states: seq<System>, actions: seq<Action>, i: nat)
    requires IsRun(workers, states, actions) && NamedRun(actions) && i < |states|
    requires StoreSafe(states[0].visible) && EmptyFrom(states[0].visible, states[0].run.start)
    ensures SafeInv(states[i])
  {
    if i > 0 {
      RunKeepsSafe(workers, states, actions, i - 1);
      RunStepSafe(workers, states, actions, i - 1);
    } else {
      InitialSafe(states[0]);
    }
  }

  /**
   * Whole-protocol safety. Start on a safe store with nothing at or above the
   * start height. Whatever the node serves, whichever fetches, stores and queries
   * fail, and however often the run reorgs, rolls back and restarts: in every
   * reachable state, mid-rollback included, each height has at most one visible
   * block and visible neighbours are parent and child.
   */
  lemma StoreStaysSafe(workers: nat, states: seq<System>, actions: seq<Action>, i: nat)
    requires IsRun(workers, states, actions) && NamedRun(actions) && i < |states|
    requires StoreSafe(states[0].visible) && EmptyFrom(states[0].visible, states[0].run.start)
    ensures UniqueHeights(states[i].visible) && ParentLinked(states[i].visible) && NamedBlocks(states[i].visible)
  {
    RunKeepsSafe(workers, states, actions, i);
  }

  /** From such a start no store is ever verified stale, so every reorg is found by the ordered check. */
  lemma EveryEpisodeIsAWait(workers: nat, states: seq<System>, actions: seq<Action>, i: nat)
    requires IsRun(workers, states, actions) && NamedRun(actions) && i < |states|
    requires StoreSafe(states[0].visible) && EmptyFrom(states[0].visible, states[0].run.start)
    ensures states[i].run.ctl.episode.Some? ==> !states[i].run.ctl.episode.value.stalePinned
  {
    RunKeepsSafe(workers, states, actions, i);
  }
}
