/** In-flight accounting of the store pool and progress of the drain. */
module StorePool {
  import opened Chain
  import opened Processor

  /** Every registration is a held dispatch, a queued one, or a worker that has not dropped it yet. */
  ghost predicate Accounted(p: Pool) {
    p.inFlight == (if p.holding.Some? then 1 else 0) + |p.queue| + |p.busy| + |p.finished| + p.reported
  }

  ghost predicate Idle(p: Pool) {
    p.holding.None? && p.queue == [] && p.busy == [] && p.finished == [] && p.reported == 0
  }

  ghost predicate WithinCapacity(p: Pool, workers: nat) {
    && |p.queue| <= workers * WORKERS_AHEAD
    && |p.busy| + |p.finished| + p.reported <= workers
    && |p.completions| <= workers * (WORKERS_AHEAD + 1)
  }

  ghost predicate ClosedInOrder(p: Pool, ctl: Control) {
    && (p.queueClosed ==> ctl.cancelled && p.holding.None?)
    && (p.completionsClosed ==> p.queueClosed && Idle(p))
    && (ctl.sawCompletionsClosed ==> p.completionsClosed && p.completions == [])
    && (ctl.pc.Exited? ==> ctl.sawCompletionsClosed)
  }

  /** What the collector's position promises about the pool. */
  ghost predicate Positioned(p: Pool, ctl: Control) {
    && (ctl.fatal ==> ctl.cancelled)
    && (ctl.episode.Some? ==> p.holding.None?)
    && (ctl.point.Some? ==> ctl.cancelled && ctl.episode.None? && p.inFlight == 0 && p.completions == [])
    && (ctl.pc.Resolving? ==> p.holding.None?)
    && (ctl.pc.Draining? ==> ctl.episode.Some? && (ctl.pc.settled ==> p.inFlight == 0))
    && (ctl.pc.WalkingBack? ==> ctl.episode.Some? && p.inFlight == 0 && p.completions == [])
  }

  ghost predicate PoolInv(p: Pool, ctl: Control, workers: nat) {
    Accounted(p) && WithinCapacity(p, workers) && ClosedInOrder(p, ctl) && Positioned(p, ctl)
  }

  // ---------------------------------------------------------------- what applying a batch may touch

  /** Cancellation and fatal errors are never taken back, and a fatal error cancels. */
  ghost predicate Sticky(c: Control, d: Control) {
    (c.cancelled ==> d.cancelled) && (c.fatal ==> d.fatal) && (d.fatal && !c.fatal ==> d.cancelled)
  }

  /** A batch leaves the channels it does not own, the rollback point and the check alone. */
  ghost predicate Untouched(r: Run, q: Run) {
    && q.start == r.start && q.seed == r.seed && q.feed == r.feed && q.check == r.check
    && q.apply == r.apply.(callbacks := q.apply.callbacks)
    && q.ctl.point == r.ctl.point
    && q.ctl.sawResultsClosed == r.ctl.sawResultsClosed && q.ctl.sawCompletionsClosed == r.ctl.sawCompletionsClosed
  }

  /** The batch ran through: the pool, the position and the openness of the episode are as before. */
  ghost predicate RanThrough(r: Run, q: Run) {
    q.pool == r.pool && q.ctl.pc == r.ctl.pc && (q.ctl.episode.Some? <==> r.ctl.episode.Some?)
  }

  /** The batch stopped at a stale report and the collector went into the drain. */
  ghost predicate OpenedStale(r: Run, q: Run) {
    && r.ctl.episode.None? && q.ctl.episode.Some? && q.ctl.episode.value.stalePinned && r.ctl.point.None?
    && q.pool == DropHolding(r.pool)
    && q.ctl.pc.Draining? && q.ctl.pc.confirmed.None? && !q.ctl.pc.settled
  }

  lemma ApplyFailureFrame(ctl: Control, c: Completion)
    ensures var d := ApplyFailure(ctl, c);
            && d.point == ctl.point && d.fatal == ctl.fatal && d.cancelled == ctl.cancelled && d.pc == ctl.pc
            && d.sawResultsClosed == ctl.sawResultsClosed && d.sawCompletionsClosed == ctl.sawCompletionsClosed
            && (ctl.episode.Some? ==> d.episode.Some? && d.episode.value.stalePinned == ctl.episode.value.stalePinned)
            && (ctl.episode.None? && d.episode.Some? ==> d.episode.value.stalePinned && ctl.point.None?)
  {
  }

  lemma ApplyOneFrame(r: Run, c: Completion, suppress: bool)
    ensures var q := ApplyOne(r, c, suppress);
            && Untouched(r, q) && Sticky(r.ctl, q.ctl) && q.pool == r.pool && q.ctl.pc == r.ctl.pc
            && (r.ctl.episode.Some? ==> q.ctl.episode.Some?)
            && (r.ctl.episode.None? && q.ctl.episode.Some? ==> q.ctl.episode.value.stalePinned && r.ctl.point.None?)
  {
    ApplyFailureFrame(r.ctl, c);
  }

  lemma UntouchedTrans(a: Run, b: Run, c: Run)
    requires Untouched(a, b) && Untouched(b, c)
    ensures Untouched(a, c)
  {
  }

  lemma {:induction false} ApplyBatchFrame(r: Run, batch: seq<Completion>, suppress: bool)
    ensures var q := ApplyBatch(r, batch, suppress);
            && Untouched(r, q) && Sticky(r.ctl, q.ctl)
            && (RanThrough(r, q) || OpenedStale(r, q))
    decreases |batch|
  {
    if batch != [] {
      var r1 := ApplyOne(r, batch[0], suppress || Ended(r));
      ApplyOneFrame(r, batch[0], suppress || Ended(r));
      if !(r.ctl.episode.None? && r1.ctl.episode.Some?) {
        ApplyBatchFrame(r1, batch[1..], suppress);
        UntouchedTrans(r, r1, ApplyBatch(r1, batch[1..], suppress));
      }
    }
  }

  // ---------------------------------------------------------------- the invariant

  lemma DropHoldingKeeps(p: Pool, workers: nat)
    requires Accounted(p) && WithinCapacity(p, workers)
    ensures Accounted(DropHolding(p)) && WithinCapacity(DropHolding(p), workers)
    ensures DropHolding(p).holding.None? && DropHolding(p).completions == p.completions
    ensures DropHolding(p).queueClosed == p.queueClosed && DropHolding(p).completionsClosed == p.completionsClosed
    ensures p.holding.None? ==> DropHolding(p) == p
    ensures Idle(p) ==> Idle(DropHolding(p))
  {
  }

  lemma BatchKeeps(r: Run, workers: nat, batch: seq<Completion>, suppress: bool)
    requires PoolInv(r.pool, r.ctl, workers) && (r.ctl.pc.Top? || r.ctl.pc.Draining?)
    ensures var q := ApplyBatch(r, batch, suppress); PoolInv(q.pool, q.ctl, workers)
  {
    ApplyBatchFrame(r, batch, suppress);
    DropHoldingKeeps(r.pool, workers);
  }

  lemma ReceiveKeeps(r: Run, workers: nat, c: Completion, suppress: bool)
    requires PoolInv(r.pool, r.ctl, workers) && (r.ctl.pc.Top? || r.ctl.pc.Draining?)
    ensures var q := ApplyCompletion(r, c, suppress); PoolInv(q.pool, q.ctl, workers)
  {
    BatchKeeps(r.(apply := Park(r.apply, c)), workers, Batch(r.apply, Park(r.apply, c)), suppress);
  }

  lemma FinalizeKeeps(p: Pool, ctl: Control, workers: nat, visible: set<Block>, configuredStart: int, answers: W.Answers,
                      interrupted: bool, next: Pc)
    requires PoolInv(p, ctl, workers) && ctl.pc.WalkingBack? && (next.Top? || next.Guard?)
    ensures var d := Finalize(ctl, ctl.episode.value, ctl.pc.confirmed, visible, configuredStart, answers, interrupted);
            PoolInv(p, d.(pc := next), workers)
  {
  }

  lemma FinishEpisodeKeeps(r: Run, workers: nat, visible: set<Block>, configuredStart: int, answers: W.Answers, interrupted: bool)
    requires PoolInv(r.pool, r.ctl, workers) && r.ctl.pc.WalkingBack?
    ensures var q := FinishEpisodeStep(r, visible, configuredStart, answers, interrupted); PoolInv(q.pool, q.ctl, workers)
  {
    var d := Finalize(r.ctl, r.ctl.episode.value, r.ctl.pc.confirmed, visible, configuredStart, answers, interrupted);
    if r.ctl.pc.confirmed.None? {
      FinalizeKeeps(r.pool, r.ctl, workers, visible, configuredStart, answers, interrupted, Top);
      BatchKeeps(At(r.(ctl := d), Top), workers, r.ctl.pc.rest, false);
    } else {
      FinalizeKeeps(r.pool, r.ctl, workers, visible, configuredStart, answers, interrupted, Guard);
    }
  }

  lemma TopKeeps(r: Run, workers: nat, visible: set<Block>, queryFails: bool)
    requires PoolInv(r.pool, r.ctl, workers) && r.ctl.pc.Top?
    ensures var q := TopStep(r, visible, queryFails); PoolInv(q.pool, q.ctl, workers)
  {
  }

  lemma ResolveKeeps(r: Run, workers: nat, refetched: Item, interrupted: bool)
    requires PoolInv(r.pool, r.ctl, workers) && r.ctl.pc.Resolving?
    ensures var q := ResolveStep(r, r.ctl.pc.item, refetched, interrupted); PoolInv(q.pool, q.ctl, workers)
  {
  }

  lemma SelectKeeps(r: Run, workers: nat, a: Action)
    requires PoolInv(r.pool, r.ctl, workers) && r.ctl.pc.Select? && CollectorEnabled(r, workers, a)
    requires a.ReceiveResult? || a.SendToPool? || a.SeeCancellation?
    ensures var q := CollectorStep(r, workers, {}, 0, a); PoolInv(q.pool, q.ctl, workers)
  {
    DropHoldingKeeps(r.pool, workers);
  }

  lemma DrainKeeps(r: Run, workers: nat, a: Action)
    requires PoolInv(r.pool, r.ctl, workers) && CollectorEnabled(r, workers, a)
    requires a.DrainReceive? || a.DrainSettle? || a.DrainFinish?
    ensures var q := CollectorStep(r, workers, {}, 0, a); PoolInv(q.pool, q.ctl, workers)
  {
    if a.DrainReceive? {
      ReceiveKeeps(TakeCompletion(r), workers, r.pool.completions[0], r.ctl.pc.confirmed.None?);
    }
  }

  lemma CollectorStepKeeps(r: Run, workers: nat, visible: set<Block>, configuredStart: int, a: Action)
    requires PoolInv(r.pool, r.ctl, workers) && CollectorEnabled(r, workers, a)
    ensures var q := CollectorStep(r, workers, visible, configuredStart, a); PoolInv(q.pool, q.ctl, workers)
  {
    match a
    case CollectorTop(queryFails) => TopKeeps(r, workers, visible, queryFails);
    case CollectorGuard => DropHoldingKeeps(r.pool, workers);
    case ReceiveCompletion =>
      if r.pool.completions != [] {
        ReceiveKeeps(At(TakeCompletion(r), Top), workers, r.pool.completions[0], false);
      }
    case ReceiveResult => SelectKeeps(r, workers, a);
    case SendToPool => SelectKeeps(r, workers, a);
    case SeeCancellation => SelectKeeps(r, workers, a);
    case Resolve(refetched, interrupted) => ResolveKeeps(r, workers, refetched, interrupted);
    case DrainReceive => DrainKeeps(r, workers, a);
    case DrainSettle => DrainKeeps(r, workers, a);
    case DrainFinish => DrainKeeps(r, workers, a);
    case FinishEpisode(answers, interrupted) =>
      FinishEpisodeKeeps(r, workers, visible, configuredStart, answers, interrupted);
  }

  lemma PoolStepKeeps(r: Run, workers: nat, visible: set<Block>, a: Action)
    requires PoolInv(r.pool, r.ctl, workers) && PoolEnabled(r, workers, a)
    ensures PoolInv(PoolStep(r.pool, visible, a), r.ctl, workers)
  {
  }

  lemma StepKeeps(s: System, workers: nat, a: Action)
    requires PoolInv(s.run.pool, s.run.ctl, workers) && Enabled(s, workers, a)
    ensures var q := Step(s, workers, a).run; PoolInv(q.pool, q.ctl, workers)
  {
    if OuterEnabled(s, a) {
    } else if CollectorEnabled(s.run, workers, a) {
      CollectorStepKeeps(s.run, workers, s.visible, s.configuredStart, a);
    } else if PoolEnabled(s.run, workers, a) {
      PoolStepKeeps(s.run, workers, s.visible, a);
    }
  }

  lemma {:induction false} RunKeepsPool(workers: nat, states: seq<System>, actions: seq<Action>, i: nat)
    requires IsRun(workers, states, actions) && i < |states|
    ensures PoolInv(states[i].run.pool, states[i].run.ctl, workers)
  {
    if i > 0 {
      RunKeepsPool(workers, states, actions, i - 1);
      StepKeeps(states[i - 1], workers, actions[i - 1]);
    }
  }

  // ---------------------------------------------------------------- progress of the drain

  /** The moves that take a drain forward: everything the pool does for its tasks, and the collector's receives. */
  predicate DrainMove(a: Action) {
    a.PoolTake? || a.PoolStore? || a.PoolReport? || a.PoolDone? || a.DrainReceive? || a.DrainSettle? || a.DrainFinish?
  }

  /** Work left before the collector may leave the drain. */
  function DrainMeasure(r: Run): nat {
    if r.ctl.pc.Draining? then PoolWork(r.pool) + (if r.ctl.pc.settled then 1 else 2) else 0
  }

  /** The steps the pool and the collector still owe the stores in it. */
  function PoolWork(p: Pool): nat {
    6 * |p.queue| + 5 * |p.busy| + 4 * |p.finished| + p.reported + |p.completions|
  }

  /** A receive inside the drain stays inside the drain. */
  lemma DrainReceiveStays(r: Run)
    requires r.ctl.pc.Draining? && r.ctl.episode.Some? && r.pool.completions != []
    ensures DrainReceiveStep(r).pool == r.pool.(completions := r.pool.completions[1..])
    ensures DrainReceiveStep(r).ctl.pc == r.ctl.pc
  {
    var t := TakeCompletion(r);
    var parked := t.(apply := Park(t.apply, r.pool.completions[0]));
    ApplyBatchFrame(parked, Batch(t.apply, parked.apply), r.ctl.pc.confirmed.None?);
  }

  /** Whatever the buffers hold, a draining collector is never stuck: some drain move is enabled. */
  lemma DrainNeverStuck(s: System, workers: nat)
    requires workers > 0 && s.phase.Running? && s.run.ctl.pc.Draining?
    requires PoolInv(s.run.pool, s.run.ctl, workers)
    ensures exists a :: DrainMove(a) && WellFormed(a) && Enabled(s, workers, a)
  {
    var p := s.run.pool;
    if p.completions != [] {
      assert Enabled(s, workers, DrainReceive);
    } else if p.finished != [] {
      assert Enabled(s, workers, PoolReport(0));
    } else if p.busy != [] {
      assert Enabled(s, workers, PoolStore(0, Failed, false, true));
    } else if p.reported > 0 {
      assert Enabled(s, workers, PoolDone);
    } else if p.queue != [] {
      assert Enabled(s, workers, PoolTake);
    } else if s.run.ctl.pc.settled {
      assert Enabled(s, workers, DrainFinish);
    } else {
      assert Enabled(s, workers, DrainSettle);
    }
  }

  /** Every drain move brings the drain closer to its end; nothing else that happens meanwhile sets it back. */
  lemma DrainMeasureFalls(s: System, workers: nat, a: Action)
    requires s.phase.Running? && s.run.ctl.pc.Draining? && PoolInv(s.run.pool, s.run.ctl, workers) && Enabled(s, workers, a)
    ensures DrainMove(a) ==> DrainMeasure(Step(s, workers, a).run) < DrainMeasure(s.run)
    ensures !DrainMove(a) ==> DrainMeasure(Step(s, workers, a).run) == DrainMeasure(s.run)
  {
    if CollectorEnabled(s.run, workers, a) {
      CollectorFalls(s.run, workers, s.visible, s.configuredStart, a);
    } else if PoolEnabled(s.run, workers, a) {
      PoolStepFalls(s.run.pool, s.visible, a);
    } else {
      FeedKeepsMeasure(s.run, workers, a);
    }
  }

  lemma FeedKeepsMeasure(r: Run, workers: nat, a: Action)
    requires FeedEnabled(r, workers, a)
    ensures !DrainMove(a) && DrainMeasure(FeedStep(r, a)) == DrainMeasure(r)
  {
  }

  lemma CollectorFalls(r: Run, workers: nat, visible: set<Block>, configuredStart: int, a: Action)
    requires r.ctl.pc.Draining? && r.ctl.episode.Some? && CollectorEnabled(r, workers, a)
    ensures DrainMove(a) && DrainMeasure(CollectorStep(r, workers, visible, configuredStart, a)) < DrainMeasure(r)
  {
    if a.DrainReceive? {
      DrainReceiveStays(r);
    }
  }

  lemma PoolStepFalls(p: Pool, visible: set<Block>, a: Action)
    requires a.PoolTake? ==> p.queue != []
    requires a.PoolStore? ==> a.index < |p.busy|
    requires a.PoolReport? ==> a.index < |p.finished|
    requires a.PoolDone? ==> p.reported > 0
    requires a.PoolTake? || a.PoolStore? || a.PoolReport? || a.PoolDone? || a.CloseCompletions?
    ensures if DrainMove(a) then PoolWork(PoolStep(p, visible, a)) < PoolWork(p) else PoolWork(PoolStep(p, visible, a)) == PoolWork(p)
  {
  }

  /** The drain ends with no registration left and nothing unread. */
  lemma DrainEndsEmpty(s: System, workers: nat, a: Action)
    requires s.phase.Running? && s.run.ctl.pc.Draining? && PoolInv(s.run.pool, s.run.ctl, workers) && Enabled(s, workers, a)
    ensures Step(s, workers, a).run.ctl.pc.Draining? || (
              && Step(s, workers, a).run.ctl.pc.WalkingBack?
              && Step(s, workers, a).run.pool.inFlight == 0
              && Idle(Step(s, workers, a).run.pool)
              && Step(s, workers, a).run.pool.completions == [])
  {
    StepKeeps(s, workers, a);
    if a.DrainReceive? {
      DrainReceiveStays(s.run);
    }
  }

  function DrainMoves(actions: seq<Action>, i: nat, j: nat): nat
    requires i <= j <= |actions|
    decreases j
  {
    if i == j then 0 else DrainMoves(actions, i, j - 1) + (if DrainMove(actions[j - 1]) then 1 else 0)
  }

  /** Over any stretch of any run spent draining, the number of drain moves is bounded by the work there was at its beginning. */
  lemma DrainIsBounded(workers: nat, states: seq<System>, actions: seq<Action>, i: nat, j: nat)
    requires IsRun(workers, states, actions) && i <= j < |states|
    requires forall k :: i <= k < j ==> states[k].phase.Running? && states[k].run.ctl.pc.Draining?
    ensures DrainMoves(actions, i, j) + DrainMeasure(states[j].run) <= DrainMeasure(states[i].run)
  {
    forall k | i <= k < j ensures DrainsDown(states, actions, k) {
      RunDrainStep(workers, states, actions, k);
    }
    MovesAreBounded(states, actions, i, j);
  }

  /** This step lowers the measure if it is a drain move, and never raises it. */
  ghost predicate DrainsDown(states: seq<System>, actions: seq<Action>, k: nat) {
    k < |actions| && k + 1 < |states| && (if DrainMove(actions[k]) then 1 else 0) + DrainMeasure(states[k + 1].run) <= DrainMeasure(states[k].run)
  }

  lemma RunDrainStep(workers: nat, states: seq<System>, actions: seq<Action>, k: nat)
    requires IsRun(workers, states, actions) && k < |actions| && states[k].phase.Running? && states[k].run.ctl.pc.Draining?
    ensures DrainsDown(states, actions, k)
  {
    RunKeepsPool(workers, states, actions, k);
    DrainMeasureFalls(states[k], workers, actions[k]);
  }

  lemma {:induction false} MovesAreBounded(states: seq<System>, actions: seq<Action>, i: nat, j: nat)
    requires i <= j <= |actions| && j < |states| && forall k :: i <= k < j ==> DrainsDown(states, actions, k)
    ensures DrainMoves(actions, i, j) + DrainMeasure(states[j].run) <= DrainMeasure(states[i].run)
    decreases j
  {
    if i < j {
      MovesAreBounded(states, actions, i, j - 1);
      assert DrainsDown(states, actions, j - 1);
    }
  }

  /**
   * In every reachable state: the registration count is exactly the held, queued
   * and unfinished stores, so it is never negative; an item is sent to the pool
   * only while the store channel is open and no episode or rollback point exists;
   * and the walk-back starts on a quiet pool.
   */
  lemma InFlightAccounting(workers: nat, states: seq<System>, actions: seq<Action>, i: nat)
    requires IsRun(workers, states, actions) && i < |states|
    ensures var p := states[i].run.pool;
            && p.inFlight == (if p.holding.Some? then 1 else 0) + |p.queue| + |p.busy| + |p.finished| + p.reported
            && 0 <= p.inFlight
    ensures i < |actions| && actions[i].SendToPool? ==>
              !states[i].run.pool.queueClosed && states[i].run.ctl.episode.None? && states[i].run.ctl.point.None?
    ensures states[i].run.ctl.pc.WalkingBack? ==> Idle(states[i].run.pool) && states[i].run.pool.completions == []
    ensures states[i].run.pool.completionsClosed ==> Idle(states[i].run.pool)
  {
    RunKeepsPool(workers, states, actions, i);
  }
}
