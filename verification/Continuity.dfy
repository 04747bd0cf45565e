/** Check before store: what reaches the pool is one parent-linked chain, and an open episode holds everything back. */
module Continuity {
  import opened Chain
  import opened Processor
  import opened StorePool
  import opened OrderedApply

  // ---------------------------------------------------------------- items in the pipeline

  /** This item is the one that passed the check at its height. */
  ghost predicate Known(check: Check, item: Item) {
    item.num in check.handed && check.handed[item.num] == item
  }

  ghost predicate KnownItems(check: Check, items: seq<Item>) {
    forall x :: x in items ==> Known(check, x)
  }

  ghost predicate KnownReports(check: Check, cs: seq<Completion>) {
    forall c :: c in cs ==> Known(check, c.item)
  }

  ghost predicate KnownPool(check: Check, p: Pool) {
    && (p.holding.Some? ==> Known(check, p.holding.value))
    && KnownItems(check, p.queue) && KnownItems(check, p.busy)
    && KnownReports(check, p.finished) && KnownReports(check, p.completions)
  }

  ghost predicate KnownApply(check: Check, a: Apply) {
    && (forall k :: k in a.reorder ==> Known(check, a.reorder[k].item))
    && KnownReports(check, a.consumed)
  }

  ghost predicate KnownRest(check: Check, pc: Pc) {
    pc.Draining? || pc.WalkingBack? ==> KnownReports(check, pc.rest)
  }

  /** Everything in the pipeline passed the check; commits repeat the checked hashes. */
  ghost predicate PipelineInv(r: Run) {
    && KnownPool(r.check, r.pool) && KnownApply(r.check, r.apply) && KnownRest(r.check, r.ctl.pc)
    && (forall n :: n in r.book.committed ==> n in r.check.handed && r.book.committed[n] == r.check.handed[n].hash)
  }

  lemma {:induction false} CollectReadyKnown(check: Check, a: Apply)
    requires KnownApply(check, a)
    ensures KnownApply(check, CollectReady(a))
    ensures a.consumed <= CollectReady(a).consumed
    decreases |a.holes| + |a.reorder|
  {
    if a.cursor in a.holes {
      CollectReadyKnown(check, SkipHole(a));
    } else if a.cursor in a.reorder {
      CollectReadyKnown(check, Consume(a));
    }
  }

  /** Applying known completions commits only checked hashes. */
  lemma {:induction false} BatchKnown(r: Run, batch: seq<Completion>, suppress: bool)
    requires PipelineInv(r) && KnownReports(r.check, batch)
    ensures PipelineInv(ApplyBatch(r, batch, suppress))
    decreases |batch|
  {
    if batch != [] {
      var r1 := ApplyOne(r, batch[0], suppress || Ended(r));
      ApplyOneKnown(r, batch[0], suppress || Ended(r));
      ApplyOneFrame(r, batch[0], suppress || Ended(r));
      assert KnownReports(r1.check, batch[1..]);
      if !(r.ctl.episode.None? && r1.ctl.episode.Some?) {
        BatchKnown(r1, batch[1..], suppress);
      }
    }
  }

  lemma ApplyOneKnown(r: Run, c: Completion, suppress: bool)
    requires PipelineInv(r) && Known(r.check, c.item)
    ensures PipelineInv(ApplyOne(r, c, suppress))
  {
    ApplyOneFrame(r, c, suppress);
  }

  lemma ReceiveKnown(r: Run, pc: Pc, suppress: bool)
    requires PipelineInv(r) && r.pool.completions != [] && KnownRest(r.check, pc)
    ensures PipelineInv(ApplyCompletion(At(TakeCompletion(r), pc), r.pool.completions[0], suppress))
  {
    var c := r.pool.completions[0];
    var a := r.apply.(reorder := r.apply.reorder[c.item.num := c]);
    assert Known(r.check, c.item);
    CollectReadyKnown(r.check, a);
    var b := Park(r.apply, c);
    var parked := At(TakeCompletion(r), pc).(apply := b);
    BatchKnown(parked, Batch(r.apply, b), suppress);
  }

  lemma FinishKnown(r: Run, visible: set<Block>, configuredStart: int, answers: W.Answers, interrupted: bool)
    requires PipelineInv(r) && r.ctl.pc.WalkingBack? && r.ctl.episode.Some?
    ensures PipelineInv(FinishEpisodeStep(r, visible, configuredStart, answers, interrupted))
  {
    var d := Finalize(r.ctl, r.ctl.episode.value, r.ctl.pc.confirmed, visible, configuredStart, answers, interrupted);
    BatchKnown(At(r.(ctl := d), Top), r.ctl.pc.rest, false);
  }

  /** One more checked item leaves the known ones known. */
  lemma GrowKnown(check: Check, next: Check, p: Pool, a: Apply, item: Item)
    requires KnownPool(check, p) && KnownApply(check, a) && item.num !in check.handed
    requires next.handed == check.handed[item.num := item]
    ensures KnownPool(next, Register(p, item)) && KnownApply(next, a)
  {
  }

  ghost predicate HandedBelow(start: int, check: Check) {
    && start <= check.next
    && forall n :: n in check.handed ==> start <= n < check.next && check.handed[n].num == n && check.handed[n].ok
  }

  lemma CheckKnown(r: Run, visible: set<Block>, queryFails: bool, item: Item)
    requires PipelineInv(r) && HandedBelow(r.start, r.check) && item.num == r.check.next
    ensures PipelineInv(CheckForDispatch(Pop(r), visible, queryFails, item))
  {
    var q := CheckForDispatch(Pop(r), visible, queryFails, item);
    if q.check.handed != r.check.handed {
      GrowKnown(r.check, q.check, r.pool, r.apply, item);
    }
  }

  /** The pipeline is untouched by a moved position outside the drain and by intake. */
  lemma KnownFrame(r: Run, q: Run)
    requires PipelineInv(r) && q.check.handed == r.check.handed && q.pool == r.pool && q.book == r.book
    requires q.apply == r.apply && !q.ctl.pc.Draining? && !q.ctl.pc.WalkingBack?
    ensures PipelineInv(q)
  {
  }

  lemma TopKnown(r: Run, visible: set<Block>, queryFails: bool)
    requires PipelineInv(r) && HandedBelow(r.start, r.check) && (forall n :: n in r.feed.pending ==> r.feed.pending[n].num == n)
    ensures PipelineInv(TopStep(r, visible, queryFails))
  {
    var q := TopStep(r, visible, queryFails);
    if r.pool.holding.Some? || r.check.next !in r.feed.pending || r.ctl.point.Some? || r.ctl.cancelled || r.ctl.episode.Some? {
      KnownFrame(r, q);
    } else {
      var item := r.feed.pending[r.check.next];
      CheckKnown(r, visible, queryFails, item);
      KnownFrame(CheckForDispatch(Pop(r), visible, queryFails, item), q);
    }
  }

  lemma QuietKnown(r: Run, workers: nat, a: Action)
    requires PipelineInv(r) && CollectorEnabled(r, workers, a)
    requires a.CollectorGuard? || a.ReceiveResult? || a.SeeCancellation? || a.SendToPool? || a.DrainSettle? || a.DrainFinish?
             || (a.ReceiveCompletion? && r.pool.completions == [])
    ensures PipelineInv(CollectorStep(r, workers, {}, 0, a))
  {
  }

  lemma ResolveKnown(r: Run, refetched: Item, interrupted: bool)
    requires PipelineInv(r) && r.ctl.pc.Resolving?
    ensures PipelineInv(ResolveStep(r, r.ctl.pc.item, refetched, interrupted))
  {
  }

  lemma CollectorKnown(r: Run, workers: nat, visible: set<Block>, configuredStart: int, a: Action)
    requires PipelineInv(r) && HandedBelow(r.start, r.check) && (forall n :: n in r.feed.pending ==> r.feed.pending[n].num == n)
    requires CollectorEnabled(r, workers, a)
    ensures PipelineInv(CollectorStep(r, workers, visible, configuredStart, a))
  {
    if a.CollectorTop? {
      TopKnown(r, visible, a.gapQueryFails);
    } else if a.ReceiveCompletion? && r.pool.completions != [] {
      ReceiveKnown(r, Top, false);
    } else if a.DrainReceive? {
      ReceiveKnown(r, r.ctl.pc, r.ctl.pc.confirmed.None?);
      assert At(TakeCompletion(r), r.ctl.pc) == TakeCompletion(r);
    } else if a.FinishEpisode? {
      FinishKnown(r, visible, configuredStart, a.answers, a.interrupted);
    } else if a.Resolve? {
      ResolveKnown(r, a.refetched, a.waitInterrupted);
    } else {
      QuietKnown(r, workers, a);
    }
  }

  lemma PoolKnown(r: Run, workers: nat, visible: set<Block>, a: Action)
    requires KnownPool(r.check, r.pool) && PoolEnabled(r, workers, a)
    ensures KnownPool(r.check, PoolStep(r.pool, visible, a))
  {
    match a
    case PoolTake => assert r.pool.queue[0] in r.pool.queue;
    case PoolStore(i, _, _, _) => assert r.pool.busy[i] in r.pool.busy;
    case PoolReport(i) => assert r.pool.finished[i] in r.pool.finished;
    case PoolDone =>
    case CloseCompletions =>
  }

  // ---------------------------------------------------------------- the check chain

  /** Two hashes that are both known must agree. */
  ghost predicate Agree(a: Hash, b: Hash) {
    a != NoHash && b != NoHash ==> a == b
  }

  /** Consecutive checked items are parent-linked, and the first one links to the seed. */
  ghost predicate HandedLinked(start: int, seed: Hash, handed: map<int, Item>) {
    && (forall m, n :: m in handed && n in handed && n == m + 1 ==> Agree(handed[n].parent, handed[m].hash))
    && (start in handed ==> Agree(handed[start].parent, seed))
  }

  /** While checks still run, the check predecessor describes the last popped height. */
  ghost predicate CheckCursor(r: Run) {
    !r.ctl.cancelled && r.ctl.episode.None? ==>
      && r.check.lastNum == r.check.next - 1
      && (r.check.lastNum in r.check.handed ==> r.check.lastHash == r.check.handed[r.check.lastNum].hash)
      && (r.check.lastNum >= r.start && r.check.lastNum !in r.check.handed ==> r.check.lastHash == NoHash)
      && (r.check.next == r.start ==> r.check.lastHash == r.seed)
  }

  ghost predicate ChainInv(r: Run) {
    && HandedBelow(r.start, r.check) && HandedLinked(r.start, r.seed, r.check.handed) && CheckCursor(r)
    && (r.ctl.point.Some? ==> r.ctl.cancelled)
  }

  /** The item that passed the check continues the chain. */
  lemma PassedCheckLinks(r: Run, item: Item)
    requires ChainInv(r) && !r.ctl.cancelled && r.ctl.episode.None? && item.num == r.check.next && item.ok
    requires !ContinuityBreak(r.start, r.seed, r.check.lastNum, r.check.lastHash, item)
    ensures HandedLinked(r.start, r.seed, r.check.handed[item.num := item])
  {
  }

  lemma TopChain(r: Run, visible: set<Block>, queryFails: bool)
    requires ChainInv(r) && r.ctl.pc.Top? && (forall n :: n in r.feed.pending ==> r.feed.pending[n].num == n)
    ensures ChainInv(TopStep(r, visible, queryFails))
  {
    var q := TopStep(r, visible, queryFails);
    if r.pool.holding.None? && r.check.next in r.feed.pending && !r.ctl.cancelled && r.ctl.episode.None? && r.ctl.point.None? {
      var item := r.feed.pending[r.check.next];
      assert item.num == r.check.next;
      if q.ctl.episode.None? && item.ok {
        PassedCheckLinks(r, item);
      }
    }
  }

  /** Steps that leave the check alone and do not reopen a closed episode keep the chain. */
  lemma ChainFrame(r: Run, q: Run)
    requires ChainInv(r) && q.start == r.start && q.seed == r.seed && q.check == r.check
    requires !q.ctl.cancelled && q.ctl.episode.None? ==> !r.ctl.cancelled && r.ctl.episode.None?
    requires q.ctl.point.Some? ==> q.ctl.cancelled
    ensures ChainInv(q)
  {
  }

  lemma ReceiveChain(r: Run, pc: Pc, c: Completion, suppress: bool)
    requires ChainInv(r)
    ensures ChainInv(ApplyCompletion(At(r, pc), c, suppress))
  {
    var b := Park(r.apply, c);
    var parked := At(r, pc).(apply := b);
    ApplyBatchFrame(parked, Batch(r.apply, b), suppress);
    ChainFrame(r, ApplyBatch(parked, Batch(r.apply, b), suppress));
  }

  lemma FinishChain(r: Run, visible: set<Block>, configuredStart: int, answers: W.Answers, interrupted: bool)
    requires ChainInv(r) && r.ctl.pc.WalkingBack? && r.ctl.episode.Some?
    ensures ChainInv(FinishEpisodeStep(r, visible, configuredStart, answers, interrupted))
  {
    var d := Finalize(r.ctl, r.ctl.episode.value, r.ctl.pc.confirmed, visible, configuredStart, answers, interrupted);
    ApplyBatchFrame(At(r.(ctl := d), Top), r.ctl.pc.rest, false);
    ChainFrame(r, FinishEpisodeStep(r, visible, configuredStart, answers, interrupted));
  }

  lemma ResolveChain(r: Run, refetched: Item, interrupted: bool)
    requires ChainInv(r) && r.ctl.pc.Resolving?
    ensures ChainInv(ResolveStep(r, r.ctl.pc.item, refetched, interrupted))
  {
    ChainFrame(r, ResolveStep(r, r.ctl.pc.item, refetched, interrupted));
  }

  lemma CollectorChain(r: Run, workers: nat, visible: set<Block>, configuredStart: int, a: Action)
    requires ChainInv(r) && (forall n :: n in r.feed.pending ==> r.feed.pending[n].num == n) && CollectorEnabled(r, workers, a)
    ensures ChainInv(CollectorStep(r, workers, visible, configuredStart, a))
  {
    if a.CollectorTop? {
      TopChain(r, visible, a.gapQueryFails);
    } else if a.ReceiveCompletion? && r.pool.completions != [] {
      ReceiveChain(TakeCompletion(r), Top, r.pool.completions[0], false);
    } else if a.DrainReceive? {
      ReceiveChain(TakeCompletion(r), r.ctl.pc, r.pool.completions[0], r.ctl.pc.confirmed.None?);
      assert At(TakeCompletion(r), r.ctl.pc) == TakeCompletion(r);
    } else if a.FinishEpisode? {
      FinishChain(r, visible, configuredStart, a.answers, a.interrupted);
    } else if a.Resolve? {
      ResolveChain(r, a.refetched, a.waitInterrupted);
    } else {
      ChainFrame(r, CollectorStep(r, workers, visible, configuredStart, a));
    }
  }

  // ---------------------------------------------------------------- the confirmation wait

  /** The item that confirmed the wait: the base's chained successor. */
  ghost predicate Confirms(ep: Episode, item: Item) {
    Usable(item) && item.num == ep.baseHeight + 1 && item.parent == ep.lastParked
  }

  /** What a pop-time episode knows: nothing at or above its base was handed to the pool, and the next pop is the base's successor. */
  ghost predicate WaitInv(check: Check, ctl: Control) {
    ctl.episode.Some? && !ctl.episode.value.stalePinned ==>
      var ep := ctl.episode.value;
      && ep.baseParent != NoHash
      && ep.baseHeight < check.next
      && (forall n :: n in check.handed ==> n < ep.baseHeight)
      && (ctl.pc.Resolving? ==> ctl.pc.item.num == ep.baseHeight + 1 && check.next == ep.baseHeight + 2)
      && (!ctl.cancelled && (ctl.pc.Top? || ctl.pc.Guard? || ctl.pc.Select?) ==> check.next == ep.baseHeight + 1)
      && (ctl.pc.Draining? || ctl.pc.WalkingBack? ==>
            ctl.pc.confirmed.Some? && Confirms(ep, ctl.pc.confirmed.value) && check.next == ep.baseHeight + 2)
  }

  ghost predicate ResolvingWait(ctl: Control) {
    && (ctl.pc.Resolving? ==> ctl.episode.Some? && !ctl.episode.value.stalePinned)
    && WaitNotPinned(ctl)
  }

  lemma TopWait(r: Run, visible: set<Block>, queryFails: bool)
    requires WaitInv(r.check, r.ctl) && ResolvingWait(r.ctl) && ChainInv(r) && r.ctl.pc.Top?
    requires forall n :: n in r.feed.pending ==> r.feed.pending[n].num == n
    ensures var q := TopStep(r, visible, queryFails); WaitInv(q.check, q.ctl) && ResolvingWait(q.ctl)
  {
  }

  lemma ResolveWait(r: Run, refetched: Item, interrupted: bool)
    requires WaitInv(r.check, r.ctl) && ResolvingWait(r.ctl) && ChainInv(r)
    requires r.ctl.pc.Resolving? && refetched.num == r.ctl.pc.item.num
    ensures var q := ResolveStep(r, r.ctl.pc.item, refetched, interrupted); WaitInv(q.check, q.ctl) && ResolvingWait(q.ctl)
  {
  }

  /** A pop-time episode is not touched by the completions that drain through it. */
  lemma {:induction false} BatchEpisode(r: Run, batch: seq<Completion>, suppress: bool)
    requires r.ctl.episode.Some?
    ensures var q := ApplyBatch(r, batch, suppress);
            && q.ctl.episode.Some? && q.ctl.pc == r.ctl.pc
            && q.ctl.episode.value.stalePinned == r.ctl.episode.value.stalePinned
            && (!r.ctl.episode.value.stalePinned ==> q.ctl.episode == r.ctl.episode)
    decreases |batch|
  {
    if batch != [] {
      var r1 := ApplyOne(r, batch[0], suppress || Ended(r));
      ApplyFailureFrame(r.ctl, batch[0]);
      BatchEpisode(r1, batch[1..], suppress);
    }
  }

  lemma BatchKeepsWait(r: Run, batch: seq<Completion>, suppress: bool)
    requires WaitInv(r.check, r.ctl) && ResolvingWait(r.ctl)
    ensures var q := ApplyBatch(r, batch, suppress); WaitInv(q.check, q.ctl) && ResolvingWait(q.ctl)
  {
    ApplyBatchFrame(r, batch, suppress);
    if r.ctl.episode.Some? {
      BatchEpisode(r, batch, suppress);
    }
  }

  lemma FinishKeepsWait(r: Run, visible: set<Block>, configuredStart: int, answers: W.Answers, interrupted: bool)
    requires r.ctl.pc.WalkingBack? && r.ctl.episode.Some?
    ensures var q := FinishEpisodeStep(r, visible, configuredStart, answers, interrupted);
            WaitInv(q.check, q.ctl) && ResolvingWait(q.ctl)
  {
    var d := Finalize(r.ctl, r.ctl.episode.value, r.ctl.pc.confirmed, visible, configuredStart, answers, interrupted);
    BatchKeepsWait(At(r.(ctl := d), Top), r.ctl.pc.rest, false);
  }

  lemma CollectorKeepsWait(r: Run, workers: nat, visible: set<Block>, configuredStart: int, a: Action)
    requires WaitInv(r.check, r.ctl) && ResolvingWait(r.ctl) && ChainInv(r) && CollectorEnabled(r, workers, a)
    requires forall n :: n in r.feed.pending ==> r.feed.pending[n].num == n
    ensures var q := CollectorStep(r, workers, visible, configuredStart, a); WaitInv(q.check, q.ctl) && ResolvingWait(q.ctl)
  {
    if a.CollectorTop? {
      TopWait(r, visible, a.gapQueryFails);
    } else if (a.ReceiveCompletion? || a.DrainReceive?) && r.pool.completions != [] {
      var t := if a.DrainReceive? then TakeCompletion(r) else At(TakeCompletion(r), Top);
      var b := Park(r.apply, r.pool.completions[0]);
      BatchKeepsWait(t.(apply := b), Batch(r.apply, b), a.DrainReceive? && r.ctl.pc.confirmed.None?);
    } else if a.FinishEpisode? {
      FinishKeepsWait(r, visible, configuredStart, a.answers, a.interrupted);
    } else if a.Resolve? {
      ResolveWait(r, a.refetched, a.waitInterrupted);
    } else {
      QuietWait(r, workers, visible, configuredStart, a);
    }
  }

  /** The other steps change neither the episode nor the check, and move only between the loop's own positions. */
  lemma QuietWait(r: Run, workers: nat, visible: set<Block>, configuredStart: int, a: Action)
    requires WaitInv(r.check, r.ctl) && ResolvingWait(r.ctl) && CollectorEnabled(r, workers, a)
    requires a.CollectorGuard? || a.ReceiveResult? || a.SendToPool? || a.SeeCancellation? || a.DrainSettle? || a.DrainFinish?
             || (a.ReceiveCompletion? && r.pool.completions == [])
    ensures var q := CollectorStep(r, workers, visible, configuredStart, a); WaitInv(q.check, q.ctl) && ResolvingWait(q.ctl)
  {
    var q := CollectorStep(r, workers, visible, configuredStart, a);
    assert q.check == r.check && q.ctl.episode == r.ctl.episode && q.ctl.cancelled == r.ctl.cancelled;
  }

  // ---------------------------------------------------------------- every reachable state

  ghost predicate CheckInv(r: Run) {
    PipelineInv(r) && ChainInv(r) && WaitInv(r.check, r.ctl) && ResolvingWait(r.ctl)
  }

  lemma NewRunCheck(start: int, seed: Hash, guards: Guards)
    ensures CheckInv(NewRun(start, seed, guards))
  {
  }

  lemma CollectorKeepsCheck(r: Run, workers: nat, visible: set<Block>, configuredStart: int, a: Action)
    requires CheckInv(r) && FeedInv(r.start, r.feed, r.check.next) && CollectorEnabled(r, workers, a)
    ensures CheckInv(CollectorStep(r, workers, visible, configuredStart, a))
  {
    CollectorKnown(r, workers, visible, configuredStart, a);
    CollectorChain(r, workers, visible, configuredStart, a);
    CollectorKeepsWait(r, workers, visible, configuredStart, a);
  }

  lemma PoolKeepsCheck(r: Run, workers: nat, visible: set<Block>, a: Action)
    requires CheckInv(r) && PoolEnabled(r, workers, a)
    ensures CheckInv(r.(pool := PoolStep(r.pool, visible, a)))
  {
    PoolKnown(r, workers, visible, a);
  }

  lemma BookKeepsCheck(r: Run, guards: Guards)
    requires CheckInv(r)
    ensures CheckInv(r.(book := r.book.(guards := guards)))
  {
  }

  lemma StepKeepsCheck(s: System, workers: nat, a: Action)
    requires CheckInv(s.run) && FeedInv(s.run.start, s.run.feed, s.run.check.next) && Enabled(s, workers, a)
    ensures CheckInv(Step(s, workers, a).run)
  {
    var q := Step(s, workers, a);
    if OuterEnabled(s, a) {
      if a.Restart? && q.phase.Running? {
        NewRunCheck(s.phase.from, q.run.seed, s.run.book.guards);
      } else {
        BookKeepsCheck(s.run, q.run.book.guards);
        assert q.run == s.run.(book := s.run.book.(guards := q.run.book.guards));
      }
    } else if CollectorEnabled(s.run, workers, a) {
      CollectorKeepsCheck(s.run, workers, s.visible, s.configuredStart, a);
    } else if PoolEnabled(s.run, workers, a) {
      PoolKeepsCheck(s.run, workers, s.visible, a);
    }
  }

  lemma {:induction false} RunKeepsCheck(workers: nat, states: seq<System>, actions: seq<Action>, i: nat)
    requires IsRun(workers, states, actions) && i < |states|
    ensures CheckInv(states[i].run)
  {
    if i > 0 {
      RunKeepsCheck(workers, states, actions, i - 1);
      RunKeepsApply(workers, states, actions, i - 1);
      StepKeepsCheck(states[i - 1], workers, actions[i - 1]);
    } else {
      NewRunCheck(states[0].run.start, states[0].run.seed, Guards(0, map[], []));
    }
  }

  /** Every store the pool still owes is for a height below n. */
  ghost predicate AllBelow(p: Pool, n: int) {
    && (p.holding.Some? ==> p.holding.value.num < n)
    && (forall x :: x in p.queue ==> x.num < n)
    && (forall x :: x in p.busy ==> x.num < n)
    && (forall c :: c in p.finished ==> c.item.num < n)
    && (forall c :: c in p.completions ==> c.item.num < n)
  }

  /**
   * Check before store, in every reachable state: what was handed to the pool is
   * one parent-linked chain that continues the seed, the pool works on nothing
   * else, and every in-flight store of a pop-time episode lies below its base.
   */
  lemma CheckBeforeStore(workers: nat, states: seq<System>, actions: seq<Action>, i: nat)
    requires IsRun(workers, states, actions) && i < |states|
    ensures var r := states[i].run;
            && HandedLinked(r.start, r.seed, r.check.handed)
            && KnownPool(r.check, r.pool)
            && (r.ctl.episode.Some? && !r.ctl.episode.value.stalePinned ==> AllBelow(r.pool, r.ctl.episode.value.baseHeight))
  {
    RunKeepsCheck(workers, states, actions, i);
  }

  /** An open episode hands nothing more to the pool: no registration and no send. */
  lemma OpenEpisodeHoldsBack(workers: nat, states: seq<System>, actions: seq<Action>, i: nat)
    requires IsRun(workers, states, actions) && i < |actions| && states[i].run.ctl.episode.Some? && !actions[i].Restart?
    ensures !actions[i].SendToPool?
    ensures states[i + 1].run.check.handed == states[i].run.check.handed
    ensures states[i + 1].run.pool.inFlight <= states[i].run.pool.inFlight
  {
    RunKeepsPool(workers, states, actions, i);
    HeldBack(states[i], workers, actions[i]);
  }

  lemma HeldBack(s: System, workers: nat, a: Action)
    requires PoolInv(s.run.pool, s.run.ctl, workers) && Enabled(s, workers, a) && s.run.ctl.episode.Some? && !a.Restart?
    ensures !a.SendToPool?
    ensures Step(s, workers, a).run.check.handed == s.run.check.handed
    ensures Step(s, workers, a).run.pool.inFlight <= s.run.pool.inFlight
  {
    if !OuterEnabled(s, a) && CollectorEnabled(s.run, workers, a) {
      CollectorHoldsBack(s.run, workers, s.visible, s.configuredStart, a);
    }
  }

  lemma CollectorHoldsBack(r: Run, workers: nat, visible: set<Block>, configuredStart: int, a: Action)
    requires CollectorEnabled(r, workers, a) && r.ctl.episode.Some? && r.pool.holding.None?
    ensures !a.SendToPool?
    ensures var q := CollectorStep(r, workers, visible, configuredStart, a);
            q.check.handed == r.check.handed && q.pool.inFlight <= r.pool.inFlight
  {
    if (a.ReceiveCompletion? || a.DrainReceive?) && r.pool.completions != [] {
      var t := if a.DrainReceive? then TakeCompletion(r) else At(TakeCompletion(r), Top);
      var b := Park(r.apply, r.pool.completions[0]);
      ApplyBatchFrame(t.(apply := b), Batch(r.apply, b), a.DrainReceive? && r.ctl.pc.confirmed.None?);
    } else if a.FinishEpisode? {
      var d := Finalize(r.ctl, r.ctl.episode.value, r.ctl.pc.confirmed, visible, configuredStart, a.answers, a.interrupted);
      ApplyBatchFrame(At(r.(ctl := d), Top), r.ctl.pc.rest, false);
    }
  }
}
