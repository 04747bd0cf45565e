/** The hashes a rollback is based on: one unbroken chain, and what the rollback makes of it. */
module Evidence {
  import opened Chain
  import opened Processor
  import opened StorePool
  import opened OrderedApply
  import opened Continuity

  // ---------------------------------------------------------------- a node that never lies about a hash

  /** A usable item names the parent its own hash determines. */
  ghost predicate Genuine(parentOf: Hash -> Hash, item: Item) {
    Usable(item) ==> item.parent == parentOf(item.hash)
  }

  ghost predicate GenuineAnswers(parentOf: Hash -> Hash, answers: W.Answers) {
    forall n: int, h: Hash :: answers.parent(n, h).Some? && answers.parent(n, h).value != NoHash ==>
      answers.parent(n, h).value == parentOf(h)
  }

  ghost predicate GenuineAction(parentOf: Hash -> Hash, a: Action) {
    match a
    case Fetched(item) => Genuine(parentOf, item)
    case Resolve(item, _) => Genuine(parentOf, item)
    case FinishEpisode(answers, _) => GenuineAnswers(parentOf, answers)
    case _ => true
  }

  // ---------------------------------------------------------------- chains of hashes

  ghost predicate Linked(parentOf: Hash -> Hash, hashes: map<int, Hash>, n: int) {
    n in hashes && n - 1 in hashes && hashes[n - 1] == parentOf(hashes[n])
  }

  /** The map covers exactly [low, high], names every height, and each hash is the parent of the next. */
  ghost predicate Unbroken(parentOf: Hash -> Hash, hashes: map<int, Hash>, low: int, high: int) {
    && (forall n :: n in hashes <==> low <= n <= high)
    && (forall n :: n in hashes ==> hashes[n] != NoHash)
    && (forall n :: low < n <= high ==> Linked(parentOf, hashes, n))
  }

  /** A confirmed hash on top of an unbroken chain. */
  lemma ExtendChain(parentOf: Hash -> Hash, hashes: map<int, Hash>, low: int, high: int, h: Hash)
    requires Unbroken(parentOf, hashes, low, high) && low <= high && h != NoHash && parentOf(h) == hashes[high]
    ensures Unbroken(parentOf, hashes[high + 1 := h], low, high + 1)
  {
    var more := hashes[high + 1 := h];
    forall n | low < n <= high + 1 ensures Linked(parentOf, more, n) {
      if n <= high {
        assert Linked(parentOf, hashes, n);
      }
    }
  }

  lemma WalkedChain(parentOf: Hash -> Hash, visible: set<Block>, configuredStart: int, answers: W.Answers, start: int, hash: Hash)
    requires GenuineAnswers(parentOf, answers) && hash != NoHash
    ensures var out := W.ResolveForkPoint(visible, configuredStart, answers, start, hash);
            out.Found? ==> 0 <= out.fork <= start && Unbroken(parentOf, out.hashes, out.fork, start) && out.hashes[start] == hash
  {
    var out := W.ResolveForkPoint(visible, configuredStart, answers, start, hash);
    W.EvidenceIsOneChain(visible, configuredStart, answers, start, hash);
    if out.Found? {
      forall n | out.fork < n <= start ensures Linked(parentOf, out.hashes, n) {
        assert W.ParentBelow(answers, out.hashes, n);
      }
    }
  }

  // ---------------------------------------------------------------- invariants of a run

  ghost predicate GenuineFeed(parentOf: Hash -> Hash, feed: Feed) {
    && (forall x :: x in feed.results ==> Genuine(parentOf, x))
    && (forall n :: n in feed.pending ==> Genuine(parentOf, feed.pending[n]))
  }

  /** The items and hashes the control state remembers are genuine too. */
  ghost predicate GenuineControl(parentOf: Hash -> Hash, ctl: Control) {
    && (ctl.pc.Resolving? ==> Genuine(parentOf, ctl.pc.item))
    && ((ctl.pc.Draining? || ctl.pc.WalkingBack?) && ctl.pc.confirmed.Some? ==> Genuine(parentOf, ctl.pc.confirmed.value))
    && (ctl.episode.Some? && !ctl.episode.value.stalePinned && ctl.episode.value.lastParked != NoHash ==>
          parentOf(ctl.episode.value.lastParked) == ctl.episode.value.baseParent)
  }

  /** A verified stale height was handed to the pool, so it lies below the pop cursor. */
  ghost predicate StaleBelow(check: Check, ctl: Control) {
    Pinned(ctl) ==> ctl.episode.value.staleTop in check.handed
  }

  ghost predicate PointInv(parentOf: Hash -> Hash, next: int, point: RollbackPoint) {
    0 <= point.fork <= point.top < next && Unbroken(parentOf, point.hashes, point.fork, point.top)
  }

  ghost predicate EvidenceInv(parentOf: Hash -> Hash, r: Run) {
    && GenuineFeed(parentOf, r.feed) && GenuineControl(parentOf, r.ctl) && StaleBelow(r.check, r.ctl)
    && (r.ctl.point.Some? ==> PointInv(parentOf, r.check.next, r.ctl.point.value))
  }

  lemma {:induction false} BatchStale(r: Run, batch: seq<Completion>, suppress: bool)
    requires StaleBelow(r.check, r.ctl) && KnownReports(r.check, batch)
    ensures StaleBelow(r.check, ApplyBatch(r, batch, suppress).ctl)
    decreases |batch|
  {
    if batch != [] {
      var r1 := ApplyOne(r, batch[0], suppress || Ended(r));
      ApplyOneFrame(r, batch[0], suppress || Ended(r));
      assert Known(r.check, batch[0].item);
      if !(r.ctl.episode.None? && r1.ctl.episode.Some?) {
        assert KnownReports(r1.check, batch[1..]);
        BatchStale(r1, batch[1..], suppress);
      }
    }
  }

  lemma BatchEvidence(parentOf: Hash -> Hash, r: Run, batch: seq<Completion>, suppress: bool)
    requires EvidenceInv(parentOf, r) && KnownReports(r.check, batch) && !r.ctl.pc.Resolving?
    ensures EvidenceInv(parentOf, ApplyBatch(r, batch, suppress))
  {
    ApplyBatchFrame(r, batch, suppress);
    BatchStale(r, batch, suppress);
    if r.ctl.episode.Some? {
      BatchEpisode(r, batch, suppress);
    }
  }

  lemma ReceiveEvidence(parentOf: Hash -> Hash, r: Run, pc: Pc, suppress: bool)
    requires EvidenceInv(parentOf, r) && PipelineInv(r) && r.pool.completions != [] && (pc.Top? || pc == r.ctl.pc) && !pc.Resolving?
    ensures EvidenceInv(parentOf, ApplyCompletion(At(TakeCompletion(r), pc), r.pool.completions[0], suppress))
  {
    var c := r.pool.completions[0];
    assert Known(r.check, c.item);
    CollectReadyKnown(r.check, r.apply.(reorder := r.apply.reorder[c.item.num := c]));
    var b := Park(r.apply, c);
    BatchEvidence(parentOf, At(TakeCompletion(r), pc).(apply := b), Batch(r.apply, b), suppress);
  }

  /** The point recorded by a pop-time episode: the walked chain, the parked mismatch and its confirmed successor. */
  lemma WaitPoint(parentOf: Hash -> Hash, ep: Episode, item: Item, visible: set<Block>, configuredStart: int, answers: W.Answers)
    requires GenuineAnswers(parentOf, answers) && !ep.stalePinned && ep.baseParent != NoHash
    requires Confirms(ep, item) && Genuine(parentOf, item)
    requires ep.lastParked != NoHash ==> parentOf(ep.lastParked) == ep.baseParent
    ensures var out := W.ResolveForkPoint(visible, configuredStart, answers, WalkStart(ep).0, WalkStart(ep).1);
            out.Found? ==>
              var point := FullEvidence(ep, Some(item), out.fork, out.hashes, answers);
              && 0 <= point.fork < ep.baseHeight && point.top == ep.baseHeight + 1
              && Unbroken(parentOf, point.hashes, point.fork, ep.baseHeight + 1)
              && point.hashes[ep.baseHeight] == ep.lastParked && point.hashes[ep.baseHeight + 1] == item.hash
  {
    var out := W.ResolveForkPoint(visible, configuredStart, answers, WalkStart(ep).0, WalkStart(ep).1);
    WalkedChain(parentOf, visible, configuredStart, answers, WalkStart(ep).0, WalkStart(ep).1);
    if out.Found? {
      ExtendChain(parentOf, out.hashes, out.fork, ep.baseHeight - 1, ep.lastParked);
      ExtendChain(parentOf, out.hashes[ep.baseHeight := ep.lastParked], out.fork, ep.baseHeight, item.hash);
    }
  }

  lemma FinalizeEvidence(parentOf: Hash -> Hash, r: Run, visible: set<Block>, configuredStart: int, answers: W.Answers, interrupted: bool)
    requires EvidenceInv(parentOf, r) && CheckInv(r) && GenuineAnswers(parentOf, answers)
    requires r.ctl.pc.WalkingBack? && r.ctl.episode.Some?
    ensures var d := Finalize(r.ctl, r.ctl.episode.value, r.ctl.pc.confirmed, visible, configuredStart, answers, interrupted);
            && d.episode.None?
            && (d.point.Some? ==> PointInv(parentOf, r.check.next, d.point.value))
  {
    var ep := r.ctl.episode.value;
    var start := WalkStart(ep);
    if ep.stalePinned {
      if start.1 != NoHash {
        WalkedChain(parentOf, visible, configuredStart, answers, start.0, start.1);
      }
    } else {
      WaitPoint(parentOf, ep, r.ctl.pc.confirmed.value, visible, configuredStart, answers);
    }
  }

  lemma FinishEvidence(parentOf: Hash -> Hash, r: Run, visible: set<Block>, configuredStart: int, answers: W.Answers, interrupted: bool)
    requires EvidenceInv(parentOf, r) && CheckInv(r) && GenuineAnswers(parentOf, answers)
    requires r.ctl.pc.WalkingBack? && r.ctl.episode.Some?
    ensures EvidenceInv(parentOf, FinishEpisodeStep(r, visible, configuredStart, answers, interrupted))
  {
    var d := Finalize(r.ctl, r.ctl.episode.value, r.ctl.pc.confirmed, visible, configuredStart, answers, interrupted);
    FinalizeEvidence(parentOf, r, visible, configuredStart, answers, interrupted);
    BatchEvidence(parentOf, At(r.(ctl := d), Top), r.ctl.pc.rest, false);
  }

  lemma TopEvidence(parentOf: Hash -> Hash, r: Run, visible: set<Block>, queryFails: bool)
    requires EvidenceInv(parentOf, r) && CheckInv(r) && r.ctl.pc.Top?
    ensures EvidenceInv(parentOf, TopStep(r, visible, queryFails))
  {
    TopTouches(r, visible, queryFails);
    TopAddsChecked(r, visible, queryFails);
    TopGenuine(parentOf, r, visible, queryFails);
  }

  /** A pop only takes from the inbox, only adds checked items, and leaves the rollback point alone. */
  lemma TopTouches(r: Run, visible: set<Block>, queryFails: bool)
    requires r.ctl.pc.Top?
    ensures var q := TopStep(r, visible, queryFails);
            && q.feed.results == r.feed.results && (q.feed.pending == r.feed.pending || q.feed.pending == r.feed.pending - {r.check.next})
            && r.check.next <= q.check.next && q.ctl.point == r.ctl.point
            && (Pinned(q.ctl) ==> Pinned(r.ctl) && q.ctl.episode.value.staleTop == r.ctl.episode.value.staleTop)
  {
  }

  lemma TopAddsChecked(r: Run, visible: set<Block>, queryFails: bool)
    ensures r.check.handed.Keys <= TopStep(r, visible, queryFails).check.handed.Keys
  {
  }

  lemma TopGenuine(parentOf: Hash -> Hash, r: Run, visible: set<Block>, queryFails: bool)
    requires GenuineControl(parentOf, r.ctl) && GenuineFeed(parentOf, r.feed) && r.ctl.pc.Top?
    ensures GenuineControl(parentOf, TopStep(r, visible, queryFails).ctl)
  {
  }

  lemma ResolveEvidence(parentOf: Hash -> Hash, r: Run, refetched: Item, interrupted: bool)
    requires EvidenceInv(parentOf, r) && r.ctl.pc.Resolving? && Genuine(parentOf, refetched)
    ensures EvidenceInv(parentOf, ResolveStep(r, r.ctl.pc.item, refetched, interrupted))
  {
    ResolveTouches(r, refetched, interrupted);
    ResolveGenuine(parentOf, r, refetched, interrupted);
  }

  /** A turn of the wait leaves the feed, the check and the rollback point alone and pins nothing. */
  lemma ResolveTouches(r: Run, refetched: Item, interrupted: bool)
    requires r.ctl.pc.Resolving?
    ensures var q := ResolveStep(r, r.ctl.pc.item, refetched, interrupted);
            && q.feed == r.feed && q.check == r.check && q.ctl.point == r.ctl.point
            && (Pinned(q.ctl) ==> Pinned(r.ctl) && q.ctl.episode.value.staleTop == r.ctl.episode.value.staleTop)
  {
  }

  lemma ResolveGenuine(parentOf: Hash -> Hash, r: Run, refetched: Item, interrupted: bool)
    requires GenuineControl(parentOf, r.ctl) && r.ctl.pc.Resolving? && Genuine(parentOf, refetched)
    ensures GenuineControl(parentOf, ResolveStep(r, r.ctl.pc.item, refetched, interrupted).ctl)
  {
  }

  lemma CollectorEvidence(parentOf: Hash -> Hash, r: Run, workers: nat, visible: set<Block>, configuredStart: int, a: Action)
    requires EvidenceInv(parentOf, r) && CheckInv(r) && CollectorEnabled(r, workers, a) && GenuineAction(parentOf, a)
    ensures EvidenceInv(parentOf, CollectorStep(r, workers, visible, configuredStart, a))
  {
    if a.CollectorTop? {
      TopEvidence(parentOf, r, visible, a.gapQueryFails);
    } else if a.ReceiveCompletion? && r.pool.completions != [] {
      ReceiveEvidence(parentOf, r, Top, false);
    } else if a.DrainReceive? {
      ReceiveEvidence(parentOf, r, r.ctl.pc, r.ctl.pc.confirmed.None?);
      assert At(TakeCompletion(r), r.ctl.pc) == TakeCompletion(r);
    } else if a.FinishEpisode? {
      FinishEvidence(parentOf, r, visible, configuredStart, a.answers, a.interrupted);
    } else if a.Resolve? {
      ResolveEvidence(parentOf, r, a.refetched, a.waitInterrupted);
    }
  }

  // ---------------------------------------------------------------- the rollback

  /** Nothing stored at this height, or the new chain's block. */
  ghost predicate Settled(visible: set<Block>, hashes: map<int, Hash>, n: int) {
    n in hashes ==> StoredHash(visible, n) == Answer(NoHash) || StoredHash(visible, n) == Answer(hashes[n])
  }

  /** The rollback has settled every height it has come down past, over evidence that reaches no higher than its range. */
  ghost predicate RollbackInv(parentOf: Hash -> Hash, s: System) {
    s.phase.RollingBack? ==>
      var point := s.phase.point;
      && s.phase.from == point.fork + 1
      && 0 <= point.fork <= point.top && Unbroken(parentOf, point.hashes, point.fork, point.top)
      && (forall n :: n > s.phase.height && n >= s.phase.from ==> Settled(s.visible, point.hashes, n))
  }

  lemma DeleteElsewhere(visible: set<Block>, h: int, n: int)
    requires n != h
    ensures StoredHash(visible - BlocksAt(visible, h), n) == StoredHash(visible, n)
  {
    assert BlocksAt(visible - BlocksAt(visible, h), n) == BlocksAt(visible, n);
  }

  lemma DeleteHere(visible: set<Block>, h: int)
    ensures StoredHash(visible - BlocksAt(visible, h), h) == Answer(NoHash)
  {
    assert BlocksAt(visible - BlocksAt(visible, h), h) == {};
  }

  /** One height of the rollback settles that height and no other. */
  lemma RollbackStepSettles(s: System, fault: RollbackFault)
    requires s.phase.RollingBack?
    requires forall n :: n in s.phase.point.hashes ==> s.phase.point.hashes[n] != NoHash
    ensures var q := RollbackHeightStep(s, fault);
            q.phase.RollingBack? ==>
              && q.phase == s.phase.(height := s.phase.height - 1)
              && Settled(q.visible, s.phase.point.hashes, s.phase.height)
              && (q.visible == s.visible || q.visible == s.visible - BlocksAt(s.visible, s.phase.height))
  {
    DeleteHere(s.visible, s.phase.height);
  }

  lemma RollbackStepKeeps(parentOf: Hash -> Hash, s: System, fault: RollbackFault)
    requires s.phase.RollingBack? && s.phase.height >= s.phase.from && RollbackInv(parentOf, s)
    requires forall n :: n in s.phase.point.hashes ==> s.phase.point.hashes[n] != NoHash
    ensures RollbackInv(parentOf, RollbackHeightStep(s, fault))
  {
    var q := RollbackHeightStep(s, fault);
    RollbackStepSettles(s, fault);
    if q.phase.RollingBack? {
      var hashes := s.phase.point.hashes;
      forall n | n > q.phase.height && n >= q.phase.from ensures Settled(q.visible, hashes, n) {
        if n != s.phase.height {
          assert Settled(s.visible, hashes, n);
          DeleteElsewhere(s.visible, s.phase.height, n);
        }
      }
    }
  }

  lemma OuterEvidence(parentOf: Hash -> Hash, s: System, workers: nat, a: Action)
    requires OuterEnabled(s, a) && EvidenceInv(parentOf, s.run) && RollbackInv(parentOf, s)
    requires FeedInv(s.run.start, s.run.feed, s.run.check.next)
    ensures EvidenceInv(parentOf, Step(s, workers, a).run) && RollbackInv(parentOf, Step(s, workers, a))
  {
    if a.RollbackHeight? {
      RollbackStepKeeps(parentOf, s, a.fault);
    }
  }

  lemma StepKeepsEvidence(parentOf: Hash -> Hash, s: System, workers: nat, a: Action)
    requires EvidenceInv(parentOf, s.run) && RollbackInv(parentOf, s) && CheckInv(s.run)
    requires FeedInv(s.run.start, s.run.feed, s.run.check.next) && Enabled(s, workers, a) && GenuineAction(parentOf, a)
    ensures EvidenceInv(parentOf, Step(s, workers, a).run) && RollbackInv(parentOf, Step(s, workers, a))
  {
    if OuterEnabled(s, a) {
      OuterEvidence(parentOf, s, workers, a);
    } else if CollectorEnabled(s.run, workers, a) {
      CollectorEvidence(parentOf, s.run, workers, s.visible, s.configuredStart, a);
    }
  }

  ghost predicate GenuineRun(parentOf: Hash -> Hash, actions: seq<Action>) {
    forall i :: 0 <= i < |actions| ==> GenuineAction(parentOf, actions[i])
  }

  lemma {:induction false} RunKeepsEvidence(parentOf: Hash -> Hash, workers: nat, states: seq<System>, actions: seq<Action>, i: nat)
    requires IsRun(workers, states, actions) && GenuineRun(parentOf, actions) && i < |states|
    ensures EvidenceInv(parentOf, states[i].run) && RollbackInv(parentOf, states[i])
  {
    if i > 0 {
      RunKeepsEvidence(parentOf, workers, states, actions, i - 1);
      RunStepEvidence(parentOf, workers, states, actions, i - 1);
    } else {
      InitialEvidence(parentOf, states[0]);
    }
  }

  lemma InitialEvidence(parentOf: Hash -> Hash, s: System)
    requires Initial(s)
    ensures EvidenceInv(parentOf, s.run) && RollbackInv(parentOf, s)
  {
  }

  lemma RunStepEvidence(parentOf: Hash -> Hash, workers: nat, states: seq<System>, actions: seq<Action>, k: nat)
    requires IsRun(workers, states, actions) && GenuineRun(parentOf, actions) && k < |actions|
    requires EvidenceInv(parentOf, states[k].run) && RollbackInv(parentOf, states[k])
    ensures EvidenceInv(parentOf, states[k + 1].run) && RollbackInv(parentOf, states[k + 1])
  {
    RunKeepsCheck(workers, states, actions, k);
    RunKeepsFeed(workers, states, actions, k);
    StepKeepsEvidence(parentOf, states[k], workers, actions[k]);
  }

  /**
   * The episode that confirms hands over one unbroken chain: the confirming item
   * sits one above the base, and the map covers exactly the heights from the fork
   * point to it, each hash the parent of the next.
   */
  lemma ConfirmedEvidence(parentOf: Hash -> Hash, workers: nat, states: seq<System>, actions: seq<Action>, i: nat)
    requires IsRun(workers, states, actions) && GenuineRun(parentOf, actions) && i < |actions| && actions[i].FinishEpisode?
    requires states[i].run.ctl.episode.Some? && !states[i].run.ctl.episode.value.stalePinned
    requires states[i].run.ctl.point.None? && states[i + 1].run.ctl.point.Some?
    ensures var ep := states[i].run.ctl.episode.value;
            var confirmed := states[i].run.ctl.pc.confirmed;
            var point := states[i + 1].run.ctl.point.value;
            && confirmed.Some? && confirmed.value.num == ep.baseHeight + 1
            && point.fork < ep.baseHeight
            && Unbroken(parentOf, point.hashes, point.fork, ep.baseHeight + 1)
            && point.hashes[ep.baseHeight - 1] == ep.baseParent
            && point.hashes[ep.baseHeight + 1] == confirmed.value.hash
  {
    var s, a := states[i], actions[i];
    RunKeepsEvidence(parentOf, workers, states, actions, i);
    RunKeepsCheck(workers, states, actions, i);
    assert states[i + 1].run == FinishEpisodeStep(s.run, s.visible, s.configuredStart, a.answers, a.interrupted);
    FinishedWaitPoint(parentOf, s.run, s.visible, s.configuredStart, a.answers, a.interrupted);
  }

  lemma FinishedWaitPoint(parentOf: Hash -> Hash, r: Run, visible: set<Block>, configuredStart: int, answers: W.Answers, interrupted: bool)
    requires GenuineControl(parentOf, r.ctl) && WaitInv(r.check, r.ctl) && GenuineAnswers(parentOf, answers)
    requires r.ctl.pc.WalkingBack? && r.ctl.episode.Some? && !r.ctl.episode.value.stalePinned && r.ctl.point.None?
    ensures var ep := r.ctl.episode.value;
            var d := FinishEpisodeStep(r, visible, configuredStart, answers, interrupted).ctl;
            && r.ctl.pc.confirmed.Some? && r.ctl.pc.confirmed.value.num == ep.baseHeight + 1
            && (d.point.Some? ==>
                  && d.point.value.fork < ep.baseHeight
                  && Unbroken(parentOf, d.point.value.hashes, d.point.value.fork, ep.baseHeight + 1)
                  && d.point.value.hashes[ep.baseHeight - 1] == ep.baseParent
                  && d.point.value.hashes[ep.baseHeight + 1] == r.ctl.pc.confirmed.value.hash)
  {
    var ep := r.ctl.episode.value;
    var d := FinishEpisodeStep(r, visible, configuredStart, answers, interrupted).ctl;
    WaitPoint(parentOf, ep, r.ctl.pc.confirmed.value, visible, configuredStart, answers);
    if d.point.Some? {
      assert Linked(parentOf, d.point.value.hashes, ep.baseHeight);
    }
  }

  /** A rollback that ran to its end left every covered height empty or on the new chain. */
  lemma RollbackSettles(parentOf: Hash -> Hash, workers: nat, states: seq<System>, actions: seq<Action>, i: nat)
    requires IsRun(workers, states, actions) && GenuineRun(parentOf, actions) && i < |states|
    requires states[i].phase.RollingBack? && states[i].phase.height < states[i].phase.from
    ensures var point := states[i].phase.point;
            && Unbroken(parentOf, point.hashes, point.fork, point.top)
            && forall n :: point.fork < n <= point.top ==> Settled(states[i].visible, point.hashes, n)
  {
    RunKeepsEvidence(parentOf, workers, states, actions, i);
  }
}
