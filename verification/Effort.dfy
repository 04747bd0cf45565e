/** Bounded effort: the rollback guards and the bounds of one confirmation wait. */
module Effort {
  import opened Chain
  import opened Processor
  import opened StorePool
  import opened OrderedApply

  // ---------------------------------------------------------------- rollbacks between two commits

  function CountAt(perHeight: map<int, nat>, h: int): nat {
    if h in perHeight then perHeight[h] else 0
  }

  /** The guards count exactly the rollbacks executed since the last commit, and both limits hold. */
  ghost predicate GuardsInv(g: Guards, stopped: bool) {
    && |g.executed| <= MAX_ROLLBACKS_PER_RUN
    && (forall h :: multiset(g.executed)[h] <= MAX_ROLLBACKS_PER_HEIGHT)
    && (!stopped ==> g.rollbacks == |g.executed| && forall h :: CountAt(g.perHeight, h) == multiset(g.executed)[h])
  }

  /** A batch either leaves the books alone or reports a commit, which empties the guards. */
  lemma {:induction false} BatchGuards(r: Run, batch: seq<Completion>, suppress: bool)
    ensures var q := ApplyBatch(r, batch, suppress);
            && |r.apply.callbacks| <= |q.apply.callbacks|
            && (|r.apply.callbacks| == |q.apply.callbacks| ==> q.book.guards == r.book.guards)
            && (q.book.guards == r.book.guards || q.book.guards == Guards(0, map[], []))
    decreases |batch|
  {
    if batch != [] {
      var r1 := ApplyOne(r, batch[0], suppress || Ended(r));
      if !(r.ctl.episode.None? && r1.ctl.episode.Some?) {
        BatchGuards(r1, batch[1..], suppress);
      }
    }
  }

  /** What a step of the running system may do to the guards. */
  ghost predicate GuardStepSpec(r: Run, q: Run) {
    && |r.apply.callbacks| <= |q.apply.callbacks|
    && (|r.apply.callbacks| == |q.apply.callbacks| ==> q.book.guards == r.book.guards)
    && (q.book.guards == r.book.guards || q.book.guards == Guards(0, map[], []))
  }

  lemma ReceiveGuards(r: Run, pc: Pc, suppress: bool)
    requires r.pool.completions != []
    ensures GuardStepSpec(r, ApplyCompletion(At(TakeCompletion(r), pc), r.pool.completions[0], suppress))
  {
    var c := r.pool.completions[0];
    var b := Park(r.apply, c);
    ParkCallbacks(r.apply.(reorder := r.apply.reorder[c.item.num := c]));
    BatchGuards(At(TakeCompletion(r), pc).(apply := b), Batch(r.apply, b), suppress);
  }

  lemma CollectorGuards(r: Run, workers: nat, visible: set<Block>, configuredStart: int, a: Action)
    requires CollectorEnabled(r, workers, a)
    ensures GuardStepSpec(r, CollectorStep(r, workers, visible, configuredStart, a))
  {
    if a.ReceiveCompletion? && r.pool.completions != [] {
      ReceiveGuards(r, Top, false);
    } else if a.DrainReceive? {
      ReceiveGuards(r, r.ctl.pc, r.ctl.pc.confirmed.None?);
      assert At(TakeCompletion(r), r.ctl.pc) == TakeCompletion(r);
    } else if a.FinishEpisode? {
      var d := Finalize(r.ctl, r.ctl.episode.value, r.ctl.pc.confirmed, visible, configuredStart, a.answers, a.interrupted);
      BatchGuards(At(r.(ctl := d), Top), r.ctl.pc.rest, false);
    }
  }

  /** Counting one more rollback keeps the limits when no guard trips. */
  lemma CountKeepsLimits(g: Guards, restart: int)
    requires GuardsInv(g, false)
    ensures var counted := CountRollback(g, restart);
            if GuardTrips(counted, restart) then GuardsInv(counted, true)
            else GuardsInv(counted.(executed := counted.executed + [restart]), false)
  {
    var counted := CountRollback(g, restart);
    assert multiset(g.executed + [restart]) == multiset(g.executed) + multiset{restart};
    forall h ensures CountAt(counted.perHeight, h) == multiset(g.executed + [restart])[h] {
    }
  }

  lemma StepGuards(s: System, workers: nat, a: Action)
    requires Enabled(s, workers, a) && GuardsInv(s.run.book.guards, s.phase.Stopped?)
    ensures var q := Step(s, workers, a); GuardsInv(q.run.book.guards, q.phase.Stopped?)
  {
    if OuterEnabled(s, a) {
      OuterGuards(s, workers, a);
    } else {
      InnerGuards(s, workers, a);
      SpecKeepsGuards(s.run, Step(s, workers, a).run);
    }
  }

  lemma InnerGuards(s: System, workers: nat, a: Action)
    requires Enabled(s, workers, a) && !OuterEnabled(s, a)
    ensures var q := Step(s, workers, a); GuardStepSpec(s.run, q.run) && !q.phase.Stopped? && !s.phase.Stopped?
  {
    if CollectorEnabled(s.run, workers, a) {
      CollectorGuards(s.run, workers, s.visible, s.configuredStart, a);
    }
  }

  lemma SpecKeepsGuards(r: Run, q: Run)
    requires GuardStepSpec(r, q) && GuardsInv(r.book.guards, false)
    ensures GuardsInv(q.book.guards, false)
  {
  }

  lemma OuterGuards(s: System, workers: nat, a: Action)
    requires OuterEnabled(s, a) && GuardsInv(s.run.book.guards, s.phase.Stopped?)
    ensures var q := Step(s, workers, a); GuardsInv(q.run.book.guards, q.phase.Stopped?)
  {
    if a.RunEnds? {
      if s.run.ctl.point.Some? {
        CountKeepsLimits(s.run.book.guards, s.run.ctl.point.value.fork + 1);
      }
    } else {
      assert Step(s, workers, a).run.book.guards == s.run.book.guards;
    }
  }

  lemma {:induction false} RunKeepsGuards(workers: nat, states: seq<System>, actions: seq<Action>, i: nat)
    requires IsRun(workers, states, actions) && i < |states|
    ensures GuardsInv(states[i].run.book.guards, states[i].phase.Stopped?)
  {
    if i > 0 {
      RunKeepsGuards(workers, states, actions, i - 1);
      RunStepGuards(workers, states, actions, i - 1);
    }
  }

  lemma RunStepGuards(workers: nat, states: seq<System>, actions: seq<Action>, k: nat)
    requires IsRun(workers, states, actions) && k + 1 < |states| && GuardsInv(states[k].run.book.guards, states[k].phase.Stopped?)
    ensures GuardsInv(states[k + 1].run.book.guards, states[k + 1].phase.Stopped?)
  {
    StepGuards(states[k], workers, actions[k]);
  }

  /** A rollback begins with this step. */
  predicate RollbackBegins(s: System, q: System) {
    s.phase.Running? && q.phase.RollingBack?
  }

  /** A height is reported to the caller by this step. */
  predicate CommitHappens(s: System, q: System) {
    |q.run.apply.callbacks| > |s.run.apply.callbacks|
  }

  /** The restart heights of the rollbacks begun between two states of a run. */
  function RestartHeights(states: seq<System>, i: nat, j: nat): seq<int>
    requires i <= j < |states|
    decreases j
  {
    if i == j then []
    else
      RestartHeights(states, i, j - 1)
      + (if RollbackBegins(states[j - 1], states[j]) then [states[j].phase.from] else [])
  }

  /** Without a commit the history of executed rollbacks only grows, by exactly the rollbacks begun. */
  lemma StepWithoutCommit(s: System, workers: nat, a: Action)
    requires Enabled(s, workers, a) && !CommitHappens(s, Step(s, workers, a))
    ensures var q := Step(s, workers, a);
            q.run.book.guards.executed == s.run.book.guards.executed + (if RollbackBegins(s, q) then [q.phase.from] else [])
  {
    if !OuterEnabled(s, a) && CollectorEnabled(s.run, workers, a) {
      CollectorGuards(s.run, workers, s.visible, s.configuredStart, a);
    }
  }

  lemma {:induction false} HistoryWithoutCommit(workers: nat, states: seq<System>, actions: seq<Action>, i: nat, j: nat)
    requires IsRun(workers, states, actions) && i <= j < |states|
    requires forall k :: i <= k < j ==> !CommitHappens(states[k], states[k + 1])
    ensures states[j].run.book.guards.executed == states[i].run.book.guards.executed + RestartHeights(states, i, j)
    decreases j
  {
    if i < j {
      HistoryWithoutCommit(workers, states, actions, i, j - 1);
      assert !CommitHappens(states[j - 1], states[j - 1 + 1]);
      RunStepWithoutCommit(workers, states, actions, j - 1);
      HistoryGrows(states, i, j);
    }
  }

  lemma RunStepWithoutCommit(workers: nat, states: seq<System>, actions: seq<Action>, k: nat)
    requires IsRun(workers, states, actions) && k + 1 < |states| && !CommitHappens(states[k], states[k + 1])
    ensures states[k + 1].run.book.guards.executed ==
            states[k].run.book.guards.executed + (if RollbackBegins(states[k], states[k + 1]) then [states[k + 1].phase.from] else [])
  {
    StepWithoutCommit(states[k], workers, actions[k]);
  }

  lemma HistoryGrows(states: seq<System>, i: nat, j: nat)
    requires i < j < |states|
    requires states[j - 1].run.book.guards.executed == states[i].run.book.guards.executed + RestartHeights(states, i, j - 1)
    requires states[j].run.book.guards.executed ==
             states[j - 1].run.book.guards.executed + (if RollbackBegins(states[j - 1], states[j]) then [states[j].phase.from] else [])
    ensures states[j].run.book.guards.executed == states[i].run.book.guards.executed + RestartHeights(states, i, j)
  {
  }

  /** Between two commits at most 64 rollbacks execute, and at most 3 of them restart from the same height. */
  lemma RollbacksAreBounded(workers: nat, states: seq<System>, actions: seq<Action>, i: nat, j: nat)
    requires IsRun(workers, states, actions) && i <= j < |states|
    requires forall k :: i <= k < j ==> !CommitHappens(states[k], states[k + 1])
    ensures |RestartHeights(states, i, j)| <= MAX_ROLLBACKS_PER_RUN
    ensures forall h :: multiset(RestartHeights(states, i, j))[h] <= MAX_ROLLBACKS_PER_HEIGHT
  {
    HistoryWithoutCommit(workers, states, actions, i, j);
    RunKeepsGuards(workers, states, actions, j);
    var before := states[i].run.book.guards.executed;
    var begun := RestartHeights(states, i, j);
    assert multiset(before + begun) == multiset(before) + multiset(begun);
    forall h ensures multiset(begun)[h] <= MAX_ROLLBACKS_PER_HEIGHT {
      assert multiset(before + begun)[h] <= MAX_ROLLBACKS_PER_HEIGHT;
    }
  }

  // ---------------------------------------------------------------- one confirmation wait

  /** Every popped item but the one in hand re-anchored the wait, and both counters respect their limits. */
  ghost predicate WaitEffort(ctl: Control) {
    ctl.episode.Some? ==>
      var ep := ctl.episode.value;
      && ep.rewalks <= MAX_REWALKS && ep.gapRefills <= MAX_GAP_REFILLS
      && ep.popped <= ep.rewalks + 1
      && (ctl.pc.Resolving? ==> ep.popped == ep.rewalks + 1)
      && (!ctl.cancelled && (ctl.pc.Top? || ctl.pc.Guard? || ctl.pc.Select?) ==> ep.popped == ep.rewalks)
  }

  /** Completions never change the counters of an open episode. */
  lemma {:induction false} BatchEffort(r: Run, batch: seq<Completion>, suppress: bool)
    requires r.ctl.episode.Some?
    ensures var q := ApplyBatch(r, batch, suppress);
            && q.ctl.episode.Some? && q.ctl.pc == r.ctl.pc
            && q.ctl.episode.value.rewalks == r.ctl.episode.value.rewalks
            && q.ctl.episode.value.gapRefills == r.ctl.episode.value.gapRefills
            && q.ctl.episode.value.popped == r.ctl.episode.value.popped
    decreases |batch|
  {
    if batch != [] {
      BatchEffort(ApplyOne(r, batch[0], suppress || Ended(r)), batch[1..], suppress);
    }
  }

  /** A stale report opens an episode with all counters at zero. */
  lemma {:induction false} OpenEffort(r: Run, batch: seq<Completion>, suppress: bool)
    requires r.ctl.episode.None?
    ensures var q := ApplyBatch(r, batch, suppress);
            q.ctl.episode.Some? ==>
              && q.ctl.episode.value.rewalks == q.ctl.episode.value.gapRefills == q.ctl.episode.value.popped == 0
              && q.ctl.pc.Draining?
    decreases |batch|
  {
    if batch != [] {
      var r1 := ApplyOne(r, batch[0], suppress || Ended(r));
      if r1.ctl.episode.None? {
        OpenEffort(r1, batch[1..], suppress);
      }
    }
  }

  lemma BatchKeepsEffort(r: Run, batch: seq<Completion>, suppress: bool)
    requires WaitEffort(r.ctl)
    ensures WaitEffort(ApplyBatch(r, batch, suppress).ctl)
  {
    ApplyBatchFrame(r, batch, suppress);
    if r.ctl.episode.Some? {
      BatchEffort(r, batch, suppress);
    } else {
      OpenEffort(r, batch, suppress);
    }
  }

  lemma FinishKeepsEffort(r: Run, visible: set<Block>, configuredStart: int, answers: W.Answers, interrupted: bool)
    requires r.ctl.pc.WalkingBack? && r.ctl.episode.Some?
    ensures WaitEffort(FinishEpisodeStep(r, visible, configuredStart, answers, interrupted).ctl)
  {
    var d := Finalize(r.ctl, r.ctl.episode.value, r.ctl.pc.confirmed, visible, configuredStart, answers, interrupted);
    BatchKeepsEffort(At(r.(ctl := d), Top), r.ctl.pc.rest, false);
  }

  lemma CollectorEffort(r: Run, workers: nat, visible: set<Block>, configuredStart: int, a: Action)
    requires WaitEffort(r.ctl) && CollectorEnabled(r, workers, a)
    requires r.ctl.point.Some? ==> r.ctl.cancelled
    ensures WaitEffort(CollectorStep(r, workers, visible, configuredStart, a).ctl)
  {
    if (a.ReceiveCompletion? || a.DrainReceive?) && r.pool.completions != [] {
      var t := if a.DrainReceive? then TakeCompletion(r) else At(TakeCompletion(r), Top);
      var b := Park(r.apply, r.pool.completions[0]);
      BatchKeepsEffort(t.(apply := b), Batch(r.apply, b), a.DrainReceive? && r.ctl.pc.confirmed.None?);
    } else if a.FinishEpisode? {
      FinishKeepsEffort(r, visible, configuredStart, a.answers, a.interrupted);
    } else if a.Resolve? {
      ResolveKeepsEffort(r, a.refetched, a.waitInterrupted);
    } else if a.CollectorTop? {
      TopKeepsEffort(r, visible, a.gapQueryFails);
    }
  }

  lemma ResolveKeepsEffort(r: Run, refetched: Item, interrupted: bool)
    requires WaitEffort(r.ctl) && r.ctl.pc.Resolving? && (r.ctl.point.Some? ==> r.ctl.cancelled)
    ensures WaitEffort(ResolveStep(r, r.ctl.pc.item, refetched, interrupted).ctl)
  {
  }

  lemma TopKeepsEffort(r: Run, visible: set<Block>, queryFails: bool)
    requires WaitEffort(r.ctl) && r.ctl.pc.Top?
    ensures WaitEffort(TopStep(r, visible, queryFails).ctl)
  {
  }

  lemma StepEffort(s: System, workers: nat, a: Action)
    requires WaitEffort(s.run.ctl) && Enabled(s, workers, a) && (s.run.ctl.point.Some? ==> s.run.ctl.cancelled)
    ensures WaitEffort(Step(s, workers, a).run.ctl)
  {
    if !OuterEnabled(s, a) && CollectorEnabled(s.run, workers, a) {
      CollectorEffort(s.run, workers, s.visible, s.configuredStart, a);
    }
  }

  lemma {:induction false} RunKeepsEffort(workers: nat, states: seq<System>, actions: seq<Action>, i: nat)
    requires IsRun(workers, states, actions) && i < |states|
    ensures WaitEffort(states[i].run.ctl)
  {
    if i > 0 {
      RunKeepsEffort(workers, states, actions, i - 1);
      RunKeepsPool(workers, states, actions, i - 1);
      StepEffort(states[i - 1], workers, actions[i - 1]);
    }
  }

  /**
   * A confirmation wait takes at most 65 popped items and 64 re-fetches, whatever
   * the node serves, and the last allowed item and the last allowed re-fetch decide it.
   */
  lemma WaitIsBounded(workers: nat, states: seq<System>, actions: seq<Action>, i: nat)
    requires IsRun(workers, states, actions) && i < |states| && states[i].run.ctl.episode.Some?
    ensures var ep := states[i].run.ctl.episode.value; ep.popped <= MAX_REWALKS + 1 && ep.gapRefills <= MAX_GAP_REFILLS
    ensures i < |actions| && actions[i].Resolve? && !states[i].run.ctl.cancelled ==>
              var ep, item, after := states[i].run.ctl.episode.value, states[i].run.ctl.pc.item, states[i + 1].run.ctl;
              && (ep.popped == MAX_REWALKS + 1 && Usable(item) ==> after.pc.Draining? || after.fatal)
              && (ep.gapRefills == MAX_GAP_REFILLS && !Usable(item) ==> after.fatal)
  {
    RunKeepsEffort(workers, states, actions, i);
    RunKeepsPool(workers, states, actions, i);
  }
}
