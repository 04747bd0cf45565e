/**
 * What each decision of the processor comes to, said over the visible blocks and the
 * state before and after: the ordered check, the confirmation wait, the failure
 * handler, the end of an episode, the guards, the rollback and the restart.
 */
module Rules {
  import opened Chain
  import opened Processor
  import opened StorePool
  import opened OrderedApply
  import opened Continuity
  import opened Effort
  import W = WalkBack

  // ---------------------------------------------------------------- the stored block at a height

  /** Exactly one block is visible at this height, and it carries this hash. */
  ghost predicate StoresOnly(visible: set<Block>, num: int, hash: Hash) {
    exists b :: b in visible && b.num == num && b.hash == hash && forall c :: c in visible && c.num == num ==> c == b
  }

  lemma StoresOnlyIff(visible: set<Block>, num: int, hash: Hash)
    requires hash != NoHash
    ensures StoredHash(visible, num) == Answer(hash) <==> StoresOnly(visible, num, hash)
  {
    var at := BlocksAt(visible, num);
    if b :| b in visible && b.num == num && b.hash == hash && forall c :: c in visible && c.num == num ==> c == b {
      assert at == {b};
    }
    if b :| b in at && at == {b} {
      forall c | c in visible && c.num == num ensures c == b {
        assert c in at;
      }
    }
  }

  /** Exactly one block is visible at this height, and it carries a hash other than this one. */
  ghost predicate StoresOther(visible: set<Block>, num: int, hash: Hash) {
    exists b :: b in visible && b.num == num && b.hash != NoHash && b.hash != hash && forall c :: c in visible && c.num == num ==> c == b
  }

  lemma StoresOtherIff(visible: set<Block>, num: int, hash: Hash)
    ensures var stored := StoredHash(visible, num);
            stored.Answer? && stored.hash != NoHash && stored.hash != hash <==> StoresOther(visible, num, hash)
  {
    var stored := StoredHash(visible, num);
    if stored.Answer? && stored.hash != NoHash {
      StoresOnlyIff(visible, num, stored.hash);
    }
    if b :| b in visible && b.num == num && b.hash != NoHash && b.hash != hash && forall c :: c in visible && c.num == num ==> c == b {
      StoresOnlyIff(visible, num, b.hash);
    }
  }

  /** More than one block is visible at this height. */
  ghost predicate StoresSeveral(visible: set<Block>, num: int) {
    exists b, c :: b in visible && c in visible && b.num == c.num == num && b != c
  }

  lemma StoredHashCases(visible: set<Block>, num: int)
    ensures StoredHash(visible, num).QueryError? <==> StoresSeveral(visible, num)
  {
    var at := BlocksAt(visible, num);
    if StoredHash(visible, num).QueryError? {
      var b :| b in at;
      assert at - {b} != {};
      var c :| c in at - {b};
    }
    if b, c :| b in visible && c in visible && b.num == c.num == num && b != c {
      assert b in at && c in at && at != {b};
    }
  }

  // ---------------------------------------------------------------- one height of the walk-back

  /** Every block visible at this height is the only one there and has no hash; also true where there is none. */
  ghost predicate StoresNoHash(visible: set<Block>, num: int) {
    forall b, c :: b in visible && c in visible && b.num == num && c.num == num ==> b == c && b.hash == NoHash
  }

  lemma NoHashIff(visible: set<Block>, num: int)
    ensures StoredHash(visible, num) == Answer(NoHash) <==> StoresNoHash(visible, num)
  {
    var at := BlocksAt(visible, num);
    if StoresNoHash(visible, num) && at != {} {
      var b :| b in at;
      assert at == {b};
    }
    if StoredHash(visible, num) == Answer(NoHash) {
      forall b, c | b in visible && c in visible && b.num == num && c.num == num ensures b == c && b.hash == NoHash {
        assert b in at && c in at;
      }
    }
  }

  /**
   * The walk-back stops at a height it can read where the only stored block carries the
   * chain's hash, or where no hash is stored and indexing starts above.
   */
  lemma StopsIff(visible: set<Block>, configuredStart: int, answers: W.Answers, num: int, hash: Hash)
    requires hash != NoHash
    ensures W.StopsAt(visible, configuredStart, answers, num, hash) <==>
              !answers.queryFails(num) && (StoresOnly(visible, num, hash) || (StoresNoHash(visible, num) && num < configuredStart))
  {
    StoresOnlyIff(visible, num, hash);
    NoHashIff(visible, num);
  }

  /** It may go below a height it can read, at most 64 below its start unless the chain knows finality, if the node names the parent. */
  lemma DescendsIff(visible: set<Block>, answers: W.Answers, start: int, num: int, hash: Hash)
    ensures W.MayDescend(visible, answers, start, num, hash) <==>
              && !answers.queryFails(num) && !StoresSeveral(visible, num)
              && (answers.finalizedKnown || start - num < 64)
              && answers.parent(num, hash).Some? && answers.parent(num, hash) != Some(NoHash)
  {
    StoredHashCases(visible, num);
  }

  // ---------------------------------------------------------------- the ordered check

  /** The collector is about to pop the next item, and the run is not leaving. */
  ghost predicate AboutToPop(s: System) {
    && s.phase.Running? && s.run.ctl.pc.Top? && s.run.pool.holding.None? && s.run.check.next in s.run.feed.pending
    && s.run.ctl.episode.None? && s.run.ctl.point.None? && !s.run.ctl.cancelled
  }

  /**
   * The item names another parent than the one known: the seed at the run's first
   * height, the hash of the block handed over before it, or, when that is unknown, the
   * only stored block below it.
   */
  ghost predicate Contradicted(s: System, item: Item, queryFails: bool) {
    && item.parent != NoHash
    && if item.num == s.run.start then s.run.seed != NoHash && item.parent != s.run.seed
       else if item.num - 1 in s.run.check.handed && s.run.check.handed[item.num - 1].hash != NoHash
       then item.parent != s.run.check.handed[item.num - 1].hash
       else !queryFails && StoresOther(s.visible, item.num - 1, item.parent)
  }

  /** The cursor stands right below the item, with the hash known there, if any. */
  ghost predicate CursorBelow(r: Run, item: Item) {
    && r.check.lastNum == item.num - 1 && item.num >= r.start
    && r.check.lastHash == (if item.num == r.start then r.seed
                            else if item.num - 1 in r.check.handed then r.check.handed[item.num - 1].hash else NoHash)
  }

  lemma CursorStands(r: Run, item: Item)
    requires ChainInv(r) && !r.ctl.cancelled && r.ctl.episode.None? && item.num == r.check.next
    ensures CursorBelow(r, item)
  {
  }

  lemma GapIff(r: Run, visible: set<Block>, queryFails: bool, item: Item)
    ensures GapBreak(r, visible, queryFails, item) <==>
              && item.parent != NoHash && item.num != r.start && r.check.lastNum == item.num - 1 && r.check.lastHash == NoHash
              && !queryFails && StoresOther(visible, item.num - 1, item.parent)
  {
    StoresOtherIff(visible, item.num - 1, item.parent);
  }

  lemma BreakIffContradicted(s: System, item: Item, queryFails: bool)
    requires CursorBelow(s.run, item)
    ensures ContinuityBreak(s.run.start, s.run.seed, s.run.check.lastNum, s.run.check.lastHash, item)
            || GapBreak(Pop(s.run), s.visible, queryFails, item)
            <==> Contradicted(s, item, queryFails)
  {
    GapIff(Pop(s.run), s.visible, queryFails, item);
  }

  /** What becomes of a popped item. */
  datatype Fate = Hole | Parked | Dispatched

  ghost function FateOf(s: System, item: Item, queryFails: bool): Fate {
    if !item.ok then Hole else if Contradicted(s, item, queryFails) then Parked else Dispatched
  }

  /** The step after which the item has met its fate. */
  ghost predicate Met(fate: Fate, s: System, t: System, item: Item) {
    && t.visible == s.visible && t.run.check.next == item.num + 1 && !t.run.ctl.cancelled && t.run.ctl.point.None?
    && item.num !in t.run.feed.pending
    && match fate
       case Hole =>
         && t.run.apply == s.run.apply.(holes := s.run.apply.holes + {item.num}) && t.run.pool == s.run.pool && t.run.ctl.episode.None?
         && t.run.check.handed == s.run.check.handed
       case Parked =>
         && t.run.apply == s.run.apply && t.run.pool == s.run.pool && t.run.check.handed == s.run.check.handed
         && t.run.ctl.episode.Some? && Anchored(t.run.ctl.episode.value, item)
         && t.run.ctl.episode.value.rewalks == t.run.ctl.episode.value.gapRefills == 0
       case Dispatched =>
         && t.run.apply == s.run.apply && t.run.ctl.episode.None? && t.run.check.handed == s.run.check.handed[item.num := item]
         && t.run.pool.holding == Some(item) && t.run.pool.inFlight == s.run.pool.inFlight + 1
  }

  /** A wait that stands on this item. */
  ghost predicate Anchored(ep: Episode, item: Item) {
    !ep.stalePinned && ep.baseHeight == item.num && ep.baseParent == item.parent && ep.lastParked == item.hash
  }

  lemma PopStep(s: System, workers: nat, queryFails: bool)
    requires ChainInv(s.run) && AboutToPop(s) && s.run.feed.pending[s.run.check.next].num == s.run.check.next
    requires Enabled(s, workers, CollectorTop(queryFails))
    ensures var item := s.run.feed.pending[s.run.check.next];
            Met(FateOf(s, item, queryFails), s, Step(s, workers, CollectorTop(queryFails)), item)
  {
    var item := s.run.feed.pending[s.run.check.next];
    CursorStands(s.run, item);
    BreakIffContradicted(s, item, queryFails);
  }

  /**
   * In every run a popped item becomes a hole exactly when its fetch failed, is parked
   * and opens a wait exactly when it contradicts the known parent, and is dispatched
   * otherwise.
   */
  lemma PopDecision(workers: nat, states: seq<System>, actions: seq<Action>, i: nat)
    requires IsRun(workers, states, actions) && i < |actions| && actions[i].CollectorTop? && AboutToPop(states[i])
    ensures var item := states[i].run.feed.pending[states[i].run.check.next];
            Met(FateOf(states[i], item, actions[i].gapQueryFails), states[i], states[i + 1], item)
  {
    RunKeepsCheck(workers, states, actions, i);
    RunKeepsFeed(workers, states, actions, i);
    PopStep(states[i], workers, actions[i].gapQueryFails);
  }

  /** A waiting dispatch is given up exactly when an episode, a rollback point or a cancellation is there. */
  lemma GuardDecides(s: System, workers: nat)
    requires s.phase.Running? && Enabled(s, workers, CollectorGuard)
    ensures var t, p := Step(s, workers, CollectorGuard), s.run.pool;
            var leaving := s.run.ctl.episode.Some? || s.run.ctl.point.Some? || s.run.ctl.cancelled;
            && t.run.ctl.pc.Select? && t.run.check == s.run.check && t.run.apply == s.run.apply
            && (leaving ==> t.run.pool.holding.None?)
            && (leaving && p.holding.Some? ==>
                  t.run.pool.inFlight == p.inFlight - 1 && t.run.pool.dropped == p.dropped + [p.holding.value.num])
            && (!leaving || p.holding.None? ==> t.run.pool == p)
  {
  }

  // ---------------------------------------------------------------- the dispatcher

  /** The dispatcher's lead over the next height to pop. */
  function Lead(r: Run): int {
    r.feed.dispatchedUpTo + 1 - r.check.next
  }

  lemma StepLead(s: System, workers: nat, a: Action)
    requires Enabled(s, workers, a) && Lead(s.run) <= 2 * workers
    ensures Lead(Step(s, workers, a).run) <= 2 * workers
  {
    if !OuterEnabled(s, a) && CollectorEnabled(s.run, workers, a) {
      CollectorLead(s.run, workers, s.visible, s.configuredStart, a);
    }
  }

  lemma CollectorLead(r: Run, workers: nat, visible: set<Block>, configuredStart: int, a: Action)
    requires CollectorEnabled(r, workers, a)
    ensures var q := CollectorStep(r, workers, visible, configuredStart, a);
            q.feed.dispatchedUpTo == r.feed.dispatchedUpTo && q.check.next >= r.check.next
  {
    if !a.CollectorTop? && !a.ReceiveResult? {
      OthersKeepFeed(r, workers, visible, configuredStart, a);
    }
  }

  lemma RunStepLead(workers: nat, states: seq<System>, actions: seq<Action>, k: nat)
    requires IsRun(workers, states, actions) && k < |actions| && Lead(states[k].run) <= 2 * workers
    ensures Lead(states[k + 1].run) <= 2 * workers
  {
    StepLead(states[k], workers, actions[k]);
  }

  /**
   * In every run the dispatcher is at most twice the workers ahead; while it is less far
   * ahead and its channel is open it can dispatch, and then the next height in order.
   */
  lemma {:induction false} DispatchAhead(workers: nat, states: seq<System>, actions: seq<Action>, i: nat)
    requires IsRun(workers, states, actions) && i < |states|
    ensures Lead(states[i].run) <= 2 * workers
    ensures states[i].phase.Running? && !states[i].run.feed.resultsClosed && Lead(states[i].run) < 2 * workers ==>
              && Enabled(states[i], workers, Dispatch)
              && Step(states[i], workers, Dispatch).run.feed.dispatchedUpTo == states[i].run.feed.dispatchedUpTo + 1
              && states[i].run.feed.dispatchedUpTo + 1 in Step(states[i], workers, Dispatch).run.feed.fetching
    decreases i
  {
    if i > 0 {
      DispatchAhead(workers, states, actions, i - 1);
      RunStepLead(workers, states, actions, i - 1);
    }
  }

  /** Until the run is cancelled every dispatched height not yet popped is being fetched, on its way or waiting. */
  ghost predicate NothingLost(r: Run) {
    !r.ctl.cancelled ==> forall n :: r.check.next <= n <= r.feed.dispatchedUpTo ==> OnItsWay(r.feed, n)
  }

  ghost predicate OnItsWay(feed: Feed, n: int) {
    n in feed.fetching || n in feed.pending || exists item :: item in feed.results && item.num == n
  }

  lemma FeedKeepsAll(r: Run, workers: nat, a: Action)
    requires NothingLost(r) && FeedEnabled(r, workers, a)
    ensures NothingLost(FeedStep(r, a))
  {
    var q := FeedStep(r, a);
    if !q.ctl.cancelled {
      forall n | q.check.next <= n <= q.feed.dispatchedUpTo ensures OnItsWay(q.feed, n) {
        if a.Fetched? {
          assert a.item in q.feed.results;
        }
        assert n <= r.feed.dispatchedUpTo ==> OnItsWay(r.feed, n);
      }
    }
  }

  lemma ReceiveKeepsAll(r: Run)
    requires NothingLost(r)
    ensures NothingLost(ReceiveResultStep(r))
  {
    var q := ReceiveResultStep(r);
    if !q.ctl.cancelled && r.feed.results != [] {
      assert r.feed.results == [r.feed.results[0]] + r.feed.results[1..];
      forall n | q.check.next <= n <= q.feed.dispatchedUpTo ensures OnItsWay(q.feed, n) {
        assert OnItsWay(r.feed, n);
      }
    }
  }

  lemma PopKeepsAll(r: Run, visible: set<Block>, queryFails: bool)
    requires NothingLost(r)
    ensures NothingLost(TopStep(r, visible, queryFails))
  {
    var q := TopStep(r, visible, queryFails);
    if !q.ctl.cancelled {
      forall n | q.check.next <= n <= q.feed.dispatchedUpTo ensures OnItsWay(q.feed, n) {
        assert OnItsWay(r.feed, n);
      }
    }
  }

  /** The other steps of the collector leave the feed and the pop cursor alone. */
  lemma OthersKeepFeed(r: Run, workers: nat, visible: set<Block>, configuredStart: int, a: Action)
    requires CollectorEnabled(r, workers, a) && !a.CollectorTop? && !a.ReceiveResult?
    ensures var q := CollectorStep(r, workers, visible, configuredStart, a);
            q.feed == r.feed && q.check == r.check && (r.ctl.cancelled ==> q.ctl.cancelled)
  {
    if (a.ReceiveCompletion? || a.DrainReceive?) && r.pool.completions != [] {
      var t := if a.DrainReceive? then TakeCompletion(r) else At(TakeCompletion(r), Top);
      var b := Park(r.apply, r.pool.completions[0]);
      ApplyBatchFrame(t.(apply := b), Batch(r.apply, b), a.DrainReceive? && r.ctl.pc.confirmed.None?);
    } else if a.FinishEpisode? {
      var d := Finalize(r.ctl, r.ctl.episode.value, r.ctl.pc.confirmed, visible, configuredStart, a.answers, a.interrupted);
      ApplyBatchFrame(At(r.(ctl := d), Top), r.ctl.pc.rest, false);
    }
  }

  lemma StepKeepsAll(s: System, workers: nat, a: Action)
    requires NothingLost(s.run) && Enabled(s, workers, a)
    ensures NothingLost(Step(s, workers, a).run)
  {
    if !OuterEnabled(s, a) && CollectorEnabled(s.run, workers, a) {
      if a.CollectorTop? {
        PopKeepsAll(s.run, s.visible, a.gapQueryFails);
      } else if a.ReceiveResult? {
        ReceiveKeepsAll(s.run);
      } else {
        OthersKeepFeed(s.run, workers, s.visible, s.configuredStart, a);
      }
    } else if !OuterEnabled(s, a) && !PoolEnabled(s.run, workers, a) {
      FeedKeepsAll(s.run, workers, a);
    }
  }

  lemma RunStepKeepsAll(workers: nat, states: seq<System>, actions: seq<Action>, k: nat)
    requires IsRun(workers, states, actions) && k < |actions| && NothingLost(states[k].run)
    ensures NothingLost(states[k + 1].run)
  {
    StepKeepsAll(states[k], workers, actions[k]);
  }

  /** In every run no dispatched height is lost before a cancellation. */
  lemma {:induction false} DispatchedIsKept(workers: nat, states: seq<System>, actions: seq<Action>, i: nat)
    requires IsRun(workers, states, actions) && i < |states|
    ensures NothingLost(states[i].run)
    decreases i
  {
    if i > 0 {
      DispatchedIsKept(workers, states, actions, i - 1);
      RunStepKeepsAll(workers, states, actions, i - 1);
    }
  }

  // ---------------------------------------------------------------- the confirmation wait

  /** The rules look at one item of an open wait that nothing has cancelled. */
  ghost predicate Deciding(s: System) {
    s.phase.Running? && s.run.ctl.pc.Resolving? && s.run.ctl.episode.Some? && s.run.ctl.point.None? && !s.run.ctl.cancelled
  }

  /** The run ends with an error. */
  ghost predicate FailsRun(ctl: Control) {
    ctl.fatal && ctl.cancelled && ctl.episode.None? && ctl.point.None?
  }

  /** The wait goes on. */
  ghost predicate GoesOn(ctl: Control) {
    ctl.episode.Some? && ctl.point.None? && !ctl.cancelled
  }

  /** A usable item: its chained successor confirms, any other re-anchors the wait on itself, up to 64 times. */
  lemma UsableItemDecides(s: System, workers: nat, refetched: Item, interrupted: bool)
    requires Deciding(s) && Enabled(s, workers, Resolve(refetched, interrupted)) && Usable(s.run.ctl.pc.item)
    ensures var t, ep, item := Step(s, workers, Resolve(refetched, interrupted)), s.run.ctl.episode.value, s.run.ctl.pc.item;
            && t.visible == s.visible && t.run.check == s.run.check
            && (item.parent == ep.lastParked ==>
                  GoesOn(t.run.ctl) && t.run.ctl.pc == Draining(Some(item), false, []) && t.run.ctl.episode == s.run.ctl.episode
                  && t.run.ctl.fatal == s.run.ctl.fatal)
            && (item.parent != ep.lastParked && ep.rewalks < 64 ==>
                  && GoesOn(t.run.ctl) && t.run.ctl.pc.Guard? && t.run.ctl.fatal == s.run.ctl.fatal
                  && t.run.ctl.episode.value == Episode(ep.stalePinned, item.num, item.parent, item.hash, ep.rewalks + 1, ep.gapRefills,
                                                        ep.staleTop, ep.staleTopHash, ep.popped))
            && (item.parent != ep.lastParked && ep.rewalks >= 64 ==> FailsRun(t.run.ctl))
  {
  }

  /** An unusable item is fetched again up to 64 times; a failed re-fetch fails the run unless a shutdown interrupted it. */
  lemma UnusableItemDecides(s: System, workers: nat, refetched: Item, interrupted: bool)
    requires Deciding(s) && Enabled(s, workers, Resolve(refetched, interrupted)) && !Usable(s.run.ctl.pc.item)
    ensures var t, ep := Step(s, workers, Resolve(refetched, interrupted)), s.run.ctl.episode.value;
            && t.visible == s.visible && t.run.check == s.run.check && t.run.pool == s.run.pool
            && (ep.gapRefills >= 64 ==> FailsRun(t.run.ctl))
            && (ep.gapRefills < 64 && refetched.ok ==>
                  && GoesOn(t.run.ctl) && t.run.ctl.pc == Resolving(refetched) && t.run.ctl.fatal == s.run.ctl.fatal
                  && t.run.ctl.episode == Some(ep.(gapRefills := ep.gapRefills + 1)))
            && (ep.gapRefills < 64 && !refetched.ok && interrupted ==>
                  t.run.ctl.cancelled && t.run.ctl.fatal == s.run.ctl.fatal && t.run.ctl.point.None?)
            && (ep.gapRefills < 64 && !refetched.ok && !interrupted ==> FailsRun(t.run.ctl))
  {
  }

  // ---------------------------------------------------------------- the failure handler

  /** A store lands exactly when it succeeded or failed after landing. */
  lemma StoreLands(s: System, workers: nat, index: nat, result: StoreResult, landed: bool, queryFails: bool)
    requires s.phase.Running? && Enabled(s, workers, PoolStore(index, result, landed, queryFails))
    ensures var t, item := Step(s, workers, PoolStore(index, result, landed, queryFails)), s.run.pool.busy[index];
            && t.visible == s.visible + (if result == Stored || landed then {Block(item.num, item.hash, item.parent)} else {})
            && t.run == s.run.(pool := t.run.pool) && |t.run.pool.finished| == |s.run.pool.finished| + 1
            && t.run.pool.finished[|s.run.pool.finished|].item == item && t.run.pool.finished[|s.run.pool.finished|].result == result
  {
  }

  /**
   * The failure handler reports a stale orphan exactly for a failed store of a named
   * item at whose height a single other, named block is visible.
   */
  lemma StaleIff(item: Item, visible: set<Block>, result: StoreResult, landed: bool, queryFails: bool, h: Hash)
    ensures var after := visible + (if result == Stored || landed then {BlockOf(item)} else {});
            Outcome(item, visible, result, landed, queryFails).stale == Some(h) <==>
              && result == Failed && item.hash != NoHash && !queryFails
              && h != NoHash && h != item.hash && StoresOnly(after, item.num, h)
  {
    var after := visible + (if result == Stored || landed then {BlockOf(item)} else {});
    assert Land(visible, item, result, landed) == after;
    if h != NoHash {
      StoresOnlyIff(after, item.num, h);
    }
  }

  /** A completion that reports a stale orphan. */
  predicate IsStale(c: Completion) {
    c.result == Failed && c.stale.Some?
  }

  /** An episode pinned to this stale item. */
  ghost predicate PinnedTo(ctl: Control, item: Item) {
    && ctl.episode.Some? && ctl.episode.value.stalePinned
    && ctl.episode.value.staleTop == item.num && ctl.episode.value.staleTopHash == item.hash
  }

  /** Applying a stale report with no episode, point or fatal error opens the pinned episode and starts the drain. */
  lemma StaleOpens(r: Run, batch: seq<Completion>, suppress: bool)
    requires batch != [] && IsStale(batch[0]) && r.ctl.episode.None? && r.ctl.point.None? && !r.ctl.fatal
    ensures var q := ApplyBatch(r, batch, suppress);
            && PinnedTo(q.ctl, batch[0].item) && q.ctl.pc == Draining(None, false, batch[1..]) && q.pool.holding.None?
            && q.ctl.point.None? && !q.ctl.fatal && q.apply == r.apply && q.book == r.book
  {
  }

  /** Among these completions the stale report of the greatest height, if any is above top. */
  ghost predicate RaisedBy(ep: Episode, after: Episode, batch: seq<Completion>) {
    && after == ep.(staleTop := after.staleTop, staleTopHash := after.staleTopHash)
    && (forall c :: c in batch && IsStale(c) ==> c.item.num <= after.staleTop)
    && (after == ep || (after.staleTop > ep.staleTop
                        && exists c :: c in batch && IsStale(c) && c.item.num == after.staleTop && c.item.hash == after.staleTopHash))
  }

  /** Drained stale reports raise the pinned anchor to the highest of them, and nothing is reported to the caller. */
  lemma {:induction false} PinnedBatch(r: Run, batch: seq<Completion>)
    requires r.ctl.episode.Some? && r.ctl.episode.value.stalePinned && r.ctl.point.None?
    ensures var q := ApplyBatch(r, batch, true);
            && q.apply == r.apply && q.book == r.book && q.pool == r.pool && q.ctl.pc == r.ctl.pc && q.ctl.point.None?
            && q.ctl.episode.Some? && q.ctl.episode.value.stalePinned
            && (r.ctl.fatal ==> q.ctl.fatal) && (!q.ctl.fatal ==> RaisedBy(r.ctl.episode.value, q.ctl.episode.value, batch))
    decreases |batch|
  {
    if batch != [] {
      var r1 := ApplyOne(r, batch[0], true);
      PinnedBatch(r1, batch[1..]);
      var q := ApplyBatch(r, batch, true);
      if !q.ctl.fatal {
        RaisedTwice(r.ctl.episode.value, r1.ctl.episode.value, q.ctl.episode.value, batch);
      }
    }
  }

  lemma RaisedTwice(a: Episode, b: Episode, c: Episode, batch: seq<Completion>)
    requires batch != [] && RaisedBy(a, b, batch[..1]) && RaisedBy(b, c, batch[1..])
    ensures RaisedBy(a, c, batch)
  {
    assert batch == batch[..1] + batch[1..];
  }

  /** Without an episode the first stale report of a batch opens the pinned episode; what follows it waits. */
  lemma {:induction false} FirstStaleOpens(r: Run, batch: seq<Completion>, k: nat)
    requires k < |batch| && IsStale(batch[k]) && r.ctl.episode.None? && r.ctl.point.None? && !r.ctl.fatal
    requires forall m :: 0 <= m < k ==> !IsStale(batch[m]) && batch[m].result != Refused
    ensures var q := ApplyBatch(r, batch, false);
            PinnedTo(q.ctl, batch[k].item) && q.ctl.pc == Draining(None, false, batch[k + 1..]) && q.ctl.point.None? && !q.ctl.fatal
    decreases k
  {
    if k == 0 {
      StaleOpens(r, batch, false);
    } else {
      var r1 := ApplyOne(r, batch[0], false);
      FirstStaleOpens(r1, batch[1..], k - 1);
      assert batch[1..][k..] == batch[k + 1..];
    }
  }

  /** The store refused a deleted document: the run fails. */
  lemma {:induction false} RefusedFails(r: Run, batch: seq<Completion>, suppress: bool, k: nat)
    requires k < |batch| && batch[k].result == Refused && (r.ctl.episode.Some? || forall m :: 0 <= m < k ==> !IsStale(batch[m]))
    ensures ApplyBatch(r, batch, suppress).ctl.fatal && ApplyBatch(r, batch, suppress).ctl.cancelled
    decreases k
  {
    var r1 := ApplyOne(r, batch[0], suppress || Ended(r));
    if k > 0 {
      ApplyOneFrame(r, batch[0], suppress || Ended(r));
      RefusedFails(r1, batch[1..], suppress, k - 1);
    } else {
      ApplyBatchFrame(r1, batch[1..], suppress);
    }
  }

  /** What a step newly consumed in order. */
  function NewlyConsumed(s: System, t: System): seq<Completion> {
    Batch(s.run.apply, t.run.apply)
  }

  /** Receiving a completion with no episode, point or fatal error opens the pinned episode for the first stale report it releases. */
  lemma ReceiveOpensPinned(s: System, workers: nat, k: nat)
    requires s.phase.Running? && Enabled(s, workers, ReceiveCompletion) && s.run.pool.completions != []
    requires s.run.ctl.episode.None? && s.run.ctl.point.None? && !s.run.ctl.fatal
    ensures var t := Step(s, workers, ReceiveCompletion); var batch := NewlyConsumed(s, t);
            k < |batch| && IsStale(batch[k]) && (forall m :: 0 <= m < k ==> !IsStale(batch[m]) && batch[m].result != Refused) ==>
              PinnedTo(t.run.ctl, batch[k].item) && t.run.ctl.pc == Draining(None, false, batch[k + 1..])
  {
    var r := s.run;
    var t := Step(s, workers, ReceiveCompletion);
    var b := Park(r.apply, r.pool.completions[0]);
    var parked := At(TakeCompletion(r), Top).(apply := b);
    ApplyBatchFrame(parked, Batch(r.apply, b), false);
    var batch := NewlyConsumed(s, t);
    assert batch == Batch(r.apply, b);
    if k < |batch| && IsStale(batch[k]) && forall m :: 0 <= m < k ==> !IsStale(batch[m]) && batch[m].result != Refused {
      FirstStaleOpens(parked, batch, k);
    }
  }

  // ---------------------------------------------------------------- the drain of a pinned episode

  /** From a pinned run to a later one: nothing was reported, and the anchor rose to the stale reports drained since. */
  ghost predicate PinnedStep(r: Run, q: Run) {
    && Pinned(r.ctl) && Pinned(q.ctl)
    && r.apply.consumed <= q.apply.consumed && q.apply.callbacks == r.apply.callbacks && (r.ctl.fatal ==> q.ctl.fatal)
    && (q.ctl.fatal || RaisedBy(r.ctl.episode.value, q.ctl.episode.value, Batch(r.apply, q.apply)))
  }

  lemma NothingRaised(ep: Episode)
    ensures RaisedBy(ep, ep, [])
  {
  }

  lemma PinnedReceive(r: Run)
    requires r.ctl.pc.Draining? && Pinned(r.ctl) && r.ctl.pc.confirmed.None? && r.ctl.point.None? && r.pool.completions != []
    ensures PinnedStep(r, DrainReceiveStep(r))
  {
    var a := r.apply.(reorder := r.apply.reorder[r.pool.completions[0].item.num := r.pool.completions[0]]);
    var b := Park(r.apply, r.pool.completions[0]);
    CollectReadyGrows(a);
    ParkCallbacks(a);
    PinnedBatch(TakeCompletion(r).(apply := b), Batch(r.apply, b));
  }

  lemma {:induction false} CollectReadyGrows(a: Apply)
    ensures a.consumed <= CollectReady(a).consumed
    decreases |a.holes| + |a.reorder|
  {
    if a.cursor in a.holes {
      CollectReadyGrows(SkipHole(a));
    } else if a.cursor in a.reorder {
      CollectReadyGrows(Consume(a));
    }
  }

  /** While a pinned episode is open the collector drains: the anchor rises to the stale reports and nothing is reported. */
  lemma PinnedCollector(r: Run, workers: nat, visible: set<Block>, configuredStart: int, a: Action)
    requires CollectorEnabled(r, workers, a) && CallbackInv(r) && WaitNotPinned(r.ctl) && Pinned(r.ctl) && r.ctl.point.None?
    requires r.ctl.pc.Draining? || r.ctl.pc.WalkingBack?
    ensures var q := CollectorStep(r, workers, visible, configuredStart, a);
            PinnedStep(r, q) || a.FinishEpisode?
  {
    NothingRaised(r.ctl.episode.value);
    if a.DrainReceive? {
      PinnedReceive(r);
    }
  }

  lemma PinnedOther(s: System, workers: nat, a: Action)
    requires s.phase.Running? && Enabled(s, workers, a) && !CollectorEnabled(s.run, workers, a) && Pinned(s.run.ctl) && !s.run.ctl.pc.Exited?
    ensures PinnedStep(s.run, Step(s, workers, a).run)
  {
    NothingRaised(s.run.ctl.episode.value);
  }

  lemma PinnedEpisodeStep(s: System, workers: nat, a: Action)
    requires s.phase.Running? && Enabled(s, workers, a) && CallbackInv(s.run) && WaitNotPinned(s.run.ctl) && Pinned(s.run.ctl) && s.run.ctl.point.None?
    ensures PinnedStep(s.run, Step(s, workers, a).run) || a.FinishEpisode?
  {
    if CollectorEnabled(s.run, workers, a) {
      PinnedCollector(s.run, workers, s.visible, s.configuredStart, a);
    } else {
      PinnedOther(s, workers, a);
    }
  }

  lemma RaisedThrough(a: Episode, b: Episode, c: Episode, x: seq<Completion>, y: seq<Completion>)
    requires RaisedBy(a, b, x) && RaisedBy(b, c, y)
    ensures RaisedBy(a, c, x + y)
  {
  }

  /** The states i to j of a run lie in one pinned episode. */
  ghost predicate OnePinnedEpisode(states: seq<System>, actions: seq<Action>, i: nat, j: nat) {
    && i <= j < |states| && |states| == |actions| + 1
    && (forall k :: i <= k <= j ==> states[k].phase.Running? && Pinned(states[k].run.ctl) && states[k].run.ctl.point.None?)
    && (forall k :: i <= k < j ==> !actions[k].FinishEpisode?)
  }

  /**
   * Over any stretch of a run inside one pinned episode: no height is reported, and
   * unless the run failed the anchor is the highest stale item among the one it started
   * with and those drained since.
   */
  lemma PinnedAnchorIsHighest(workers: nat, states: seq<System>, actions: seq<Action>, i: nat, j: nat)
    requires IsRun(workers, states, actions) && OnePinnedEpisode(states, actions, i, j)
    ensures PinnedStep(states[i].run, states[j].run)
  {
    forall k | i <= k < j ensures PinnedNext(states, k) {
      PinnedAction(states, actions, i, j, k);
      RunPinnedStep(workers, states, actions, k);
    }
    assert Pinned(states[i].run.ctl);
    PinnedStretch(states, i, j);
  }

  lemma PinnedAction(states: seq<System>, actions: seq<Action>, i: nat, j: nat, k: nat)
    requires OnePinnedEpisode(states, actions, i, j) && i <= k < j
    ensures !actions[k].FinishEpisode? && states[k].phase.Running? && Pinned(states[k].run.ctl) && states[k].run.ctl.point.None?
  {
  }

  ghost predicate PinnedNext(states: seq<System>, k: nat) {
    k + 1 < |states| && PinnedStep(states[k].run, states[k + 1].run)
  }

  lemma {:induction false} PinnedStretch(states: seq<System>, i: nat, j: nat)
    requires i <= j < |states| && Pinned(states[i].run.ctl) && forall k :: i <= k < j ==> PinnedNext(states, k)
    ensures PinnedStep(states[i].run, states[j].run)
    decreases j
  {
    if i == j {
      NothingRaised(states[i].run.ctl.episode.value);
    } else {
      PinnedStretch(states, i, j - 1);
      assert PinnedNext(states, j - 1);
      PinnedSteps(states[i].run, states[j - 1].run, states[j].run);
    }
  }

  lemma PinnedSteps(a: Run, b: Run, c: Run)
    requires Pinned(a.ctl) && Pinned(b.ctl) && Pinned(c.ctl) && PinnedStep(a, b) && PinnedStep(b, c)
    ensures PinnedStep(a, c)
  {
    assert Batch(a.apply, c.apply) == Batch(a.apply, b.apply) + Batch(b.apply, c.apply);
    if !c.ctl.fatal {
      RaisedThrough(a.ctl.episode.value, b.ctl.episode.value, c.ctl.episode.value, Batch(a.apply, b.apply), Batch(b.apply, c.apply));
    }
  }

  lemma RunPinnedStep(workers: nat, states: seq<System>, actions: seq<Action>, k: nat)
    requires IsRun(workers, states, actions) && k < |actions| && !actions[k].FinishEpisode?
    requires states[k].phase.Running? && Pinned(states[k].run.ctl) && states[k].run.ctl.point.None?
    ensures PinnedStep(states[k].run, states[k + 1].run)
  {
    RunKeepsApply(workers, states, actions, k);
    PinnedEpisodeStep(states[k], workers, actions[k]);
  }

  // ---------------------------------------------------------------- the end of an episode

  /** Where the walk-back of an episode must start: at the highest stale item, or below the parked mismatch. */
  ghost function Anchor(ep: Episode): (int, Hash) {
    if ep.stalePinned then (ep.staleTop, ep.staleTopHash) else (ep.baseHeight - 1, ep.baseParent)
  }

  /** From this episode an honest descent reaches this fork point. */
  ghost predicate ForksAt(s: System, ep: Episode, answers: W.Answers, fork: int) {
    Anchor(ep).1 != NoHash && W.IsForkPoint(s.visible, s.configuredStart, answers, Anchor(ep).0, Anchor(ep).1, fork)
  }

  lemma AnchoredWalk(s: System, ep: Episode, answers: W.Answers, fork: int)
    ensures var out := W.ResolveForkPoint(s.visible, s.configuredStart, answers, WalkStart(ep).0, WalkStart(ep).1);
            out.Found? && out.fork == fork <==> ForksAt(s, ep, answers, fork)
  {
    var start := WalkStart(ep);
    var out := W.ResolveForkPoint(s.visible, s.configuredStart, answers, start.0, start.1);
    if start.1 != NoHash {
      W.WalkBackCorrect(s.visible, s.configuredStart, answers, start.0, start.1);
      if out.Found? && W.IsForkPoint(s.visible, s.configuredStart, answers, start.0, start.1, fork) {
        W.ForkPointUnique(s.visible, s.configuredStart, answers, start.0, start.1, fork, out.fork);
      }
    }
  }

  lemma {:induction false} EndedBatchQuiet(r: Run, batch: seq<Completion>)
    requires Ended(r) && r.ctl.episode.None?
    ensures var q := ApplyBatch(r, batch, false); q.ctl.episode.None? && q.ctl.point == r.ctl.point && (r.ctl.fatal ==> q.ctl.fatal)
    decreases |batch|
  {
    if batch != [] {
      EndedBatchQuiet(ApplyOne(r, batch[0], true), batch[1..]);
    }
  }

  lemma FinalizeDecides(s: System, answers: W.Answers, interrupted: bool, fork: int)
    requires s.run.ctl.pc.WalkingBack? && s.run.ctl.episode.Some? && s.run.ctl.point.None?
    ensures var ctl, ep := s.run.ctl, s.run.ctl.episode.value;
            var d := Finalize(ctl, ep, ctl.pc.confirmed, s.visible, s.configuredStart, answers, interrupted);
            && d.cancelled && d.episode.None? && d.pc == ctl.pc
            && (d.point.Some? && d.point.value.fork == fork <==> !ctl.cancelled && ForksAt(s, ep, answers, fork))
            && (!ctl.cancelled && !interrupted && (forall f :: !ForksAt(s, ep, answers, f)) ==> d.fatal)
            && (ctl.cancelled || interrupted ==> d.fatal == ctl.fatal)
  {
    var ep := s.run.ctl.episode.value;
    AnchoredWalk(s, ep, answers, fork);
    var out := W.ResolveForkPoint(s.visible, s.configuredStart, answers, WalkStart(ep).0, WalkStart(ep).1);
    if out.Found? {
      AnchoredWalk(s, ep, answers, out.fork);
    }
  }

  /**
   * The end of an episode: a rollback point exactly when the anchor's descent has a
   * fork point and the run was not cancelled before; a fatal error when it has none and
   * nothing interrupted it; a silent end otherwise.
   */
  lemma FinishDecides(s: System, workers: nat, answers: W.Answers, interrupted: bool, fork: int)
    requires s.phase.Running? && Enabled(s, workers, FinishEpisode(answers, interrupted)) && s.run.ctl.point.None?
    ensures var t, ep := Step(s, workers, FinishEpisode(answers, interrupted)), s.run.ctl.episode.value;
            && t.visible == s.visible && t.run.ctl.cancelled
            && (t.run.ctl.point.Some? && t.run.ctl.point.value.fork == fork <==> !s.run.ctl.cancelled && ForksAt(s, ep, answers, fork))
            && (!s.run.ctl.cancelled && !interrupted && (forall f :: !ForksAt(s, ep, answers, f)) ==> t.run.ctl.fatal && t.run.ctl.episode.None?)
            && (s.run.ctl.pc.confirmed.Some? && (s.run.ctl.cancelled || interrupted) ==> t.run.ctl.fatal == s.run.ctl.fatal && t.run.ctl.episode.None?)
  {
    var r := s.run;
    var d := Finalize(r.ctl, r.ctl.episode.value, r.ctl.pc.confirmed, s.visible, s.configuredStart, answers, interrupted);
    FinalizeDecides(s, answers, interrupted, fork);
    ApplyBatchFrame(At(r.(ctl := d), Top), r.ctl.pc.rest, false);
    if d.fatal || d.point.Some? {
      EndedBatchQuiet(At(r.(ctl := d), Top), r.ctl.pc.rest);
    }
  }

  /**
   * A stale episode of a run walks back from the highest stale item: the one that opened
   * the stretch or a higher one drained since. The rollback point is recorded exactly
   * when that descent has a fork point.
   */
  lemma StaleWalkStartsHighest(workers: nat, states: seq<System>, actions: seq<Action>, i: nat, j: nat, fork: int)
    requires IsRun(workers, states, actions) && OnePinnedEpisode(states, actions, i, j) && j < |actions| && actions[j].FinishEpisode?
    requires !states[j].run.ctl.fatal && !states[j].run.ctl.cancelled
    ensures var from, before, after := states[i].run.ctl.episode.value, states[j], states[j + 1].run.ctl;
            var ep := before.run.ctl.episode.value;
            && RaisedBy(from, ep, Batch(states[i].run.apply, before.run.apply))
            && (after.point.Some? && after.point.value.fork == fork <==>
                  && ep.staleTopHash != NoHash
                  && W.IsForkPoint(before.visible, before.configuredStart, actions[j].answers, ep.staleTop, ep.staleTopHash, fork))
  {
    PinnedAnchorIsHighest(workers, states, actions, i, j);
    FinishDecides(states[j], workers, actions[j].answers, actions[j].interrupted, fork);
  }

  // ---------------------------------------------------------------- the rollback guards

  /**
   * When a run ends, a rollback begins exactly if no error was recorded, a fork point
   * was, fewer than 64 rollbacks executed since the last report and fewer than 3 of them
   * from the same height; otherwise the processor stops.
   */
  lemma RollbackBeginsIff(workers: nat, states: seq<System>, actions: seq<Action>, i: nat)
    requires IsRun(workers, states, actions) && i < |actions| && actions[i].RunEnds?
    ensures var s, t := states[i], states[i + 1];
            var ctl, done := s.run.ctl, s.run.book.guards.executed;
            && t.visible == s.visible
            && (RollbackBegins(s, t) <==>
                  !ctl.fatal && ctl.point.Some? && |done| < 64 && multiset(done)[ctl.point.value.fork + 1] < 3)
            && (RollbackBegins(s, t) ==> t.phase == RollingBack(ctl.point.value.fork + 1, s.run.feed.dispatchedUpTo, ctl.point.value))
            && (!RollbackBegins(s, t) ==> t.phase.Stopped?)
  {
    RunKeepsGuards(workers, states, actions, i);
    GuardsDecide(states[i]);
  }

  lemma GuardsDecide(s: System)
    requires s.phase.Running? && GuardsInv(s.run.book.guards, false)
    ensures var ctl, done, t := s.run.ctl, s.run.book.guards.executed, RunEndsStep(s);
            && t.visible == s.visible
            && (t.phase.RollingBack? <==> !ctl.fatal && ctl.point.Some? && |done| < 64 && multiset(done)[ctl.point.value.fork + 1] < 3)
            && (t.phase.RollingBack? ==> t.phase == RollingBack(ctl.point.value.fork + 1, s.run.feed.dispatchedUpTo, ctl.point.value))
            && (!t.phase.RollingBack? ==> t.phase.Stopped?)
  {
    if s.run.ctl.point.Some? {
      var restart := s.run.ctl.point.value.fork + 1;
      assert CountAt(s.run.book.guards.perHeight, restart) == multiset(s.run.book.guards.executed)[restart];
    }
  }

  // ---------------------------------------------------------------- reports survive a cancellation

  /** One of these completions reports a stale orphan. */
  predicate StaleIn(cs: seq<Completion>) {
    exists c :: c in cs && IsStale(c)
  }

  /**
   * Until an error or a fork point is recorded, and while no stale orphan was drained,
   * every successful store the cursor passed was reported, cancelled or not.
   */
  ghost predicate ReportInv(r: Run) {
    && ((r.ctl.pc.Draining? || r.ctl.pc.WalkingBack?) && r.ctl.pc.confirmed.None? ==> StaleIn(r.apply.consumed))
    && (!Ended(r) && !StaleIn(r.apply.consumed) ==> Reported(r.apply.consumed, r.apply.callbacks))
  }

  lemma {:induction false} BatchPc(r: Run, batch: seq<Completion>, suppress: bool)
    ensures ApplyBatch(r, batch, suppress).ctl.pc == r.ctl.pc || StaleIn(batch)
    decreases |batch|
  {
    if batch != [] {
      var r1 := ApplyOne(r, batch[0], suppress || Ended(r));
      assert batch[0] in batch;
      if !(r.ctl.episode.None? && r1.ctl.episode.Some?) {
        BatchPc(r1, batch[1..], suppress);
      }
    }
  }

  lemma {:induction false} BatchReportsAll(r: Run, batch: seq<Completion>)
    requires !StaleIn(batch)
    ensures var q := ApplyBatch(r, batch, false);
            && (forall n :: n in r.apply.callbacks ==> n in q.apply.callbacks)
            && (!Ended(q) ==> Reported(batch, q.apply.callbacks))
    decreases |batch|
  {
    if batch != [] {
      assert batch[0] in batch && forall c :: c in batch[1..] ==> c in batch;
      var r1 := ApplyOne(r, batch[0], Ended(r));
      var q := ApplyBatch(r, batch, false);
      BatchReportsAll(r1, batch[1..]);
      ApplyBatchFrame(r1, batch[1..], false);
      if !Ended(q) {
        forall k | 0 <= k < |batch| && batch[k].result.Stored? ensures batch[k].item.num in q.apply.callbacks {
          if k == 0 {
            assert r1.apply.callbacks == r.apply.callbacks + [batch[0].item.num];
          } else {
            assert batch[k] == batch[1..][k - 1];
          }
        }
      }
    }
  }

  lemma StaleSplit(a: Apply, b: Apply)
    requires a.consumed <= b.consumed
    ensures StaleIn(b.consumed) <==> StaleIn(a.consumed) || StaleIn(Batch(a, b))
  {
    assert b.consumed == a.consumed + Batch(a, b);
  }

  lemma ReceiveKeepsReports(r: Run, pc: Pc, suppress: bool)
    requires ReportInv(r) && r.pool.completions != [] && (pc == r.ctl.pc || pc.Top?)
    requires suppress ==> StaleIn(r.apply.consumed)
    ensures ReportInv(ApplyCompletion(At(TakeCompletion(r), pc), r.pool.completions[0], suppress))
  {
    var c := r.pool.completions[0];
    var b := Park(r.apply, c);
    var parked := At(TakeCompletion(r), pc).(apply := b);
    var batch := Batch(r.apply, b);
    CollectReadyGrows(r.apply.(reorder := r.apply.reorder[c.item.num := c]));
    ParkCallbacks(r.apply.(reorder := r.apply.reorder[c.item.num := c]));
    StaleSplit(r.apply, b);
    BatchPc(parked, batch, suppress);
    ApplyBatchFrame(parked, batch, suppress);
    var q := ApplyBatch(parked, batch, suppress);
    if !Ended(q) && !StaleIn(b.consumed) {
      BatchReportsAll(parked, batch);
      ReportedSplit(r.apply, b, q.apply.callbacks);
    }
  }

  lemma FinishKeepsReports(r: Run, visible: set<Block>, configuredStart: int, answers: W.Answers, interrupted: bool)
    requires ReportInv(r) && r.ctl.pc.WalkingBack? && r.ctl.episode.Some?
    ensures ReportInv(FinishEpisodeStep(r, visible, configuredStart, answers, interrupted))
  {
    var d := Finalize(r.ctl, r.ctl.episode.value, r.ctl.pc.confirmed, visible, configuredStart, answers, interrupted);
    ApplyBatchFrame(At(r.(ctl := d), Top), r.ctl.pc.rest, false);
  }

  /** The other steps of the collector consume and report nothing, and drain only for a confirmed wait. */
  ghost predicate QuietSpec(r: Run, q: Run) {
    && q.apply.consumed == r.apply.consumed && q.apply.callbacks == r.apply.callbacks && (Ended(r) ==> Ended(q))
    && ((q.ctl.pc.Draining? || q.ctl.pc.WalkingBack?) && q.ctl.pc.confirmed.None? ==>
          (r.ctl.pc.Draining? || r.ctl.pc.WalkingBack?) && r.ctl.pc.confirmed.None?)
  }

  lemma TopReports(r: Run, visible: set<Block>, queryFails: bool)
    requires r.ctl.pc.Top?
    ensures QuietSpec(r, TopStep(r, visible, queryFails))
  {
  }

  lemma ResolveReportsNothing(r: Run, refetched: Item, interrupted: bool)
    requires r.ctl.pc.Resolving?
    ensures QuietSpec(r, ResolveStep(r, r.ctl.pc.item, refetched, interrupted))
  {
  }

  lemma QuietReports(r: Run, workers: nat, visible: set<Block>, configuredStart: int, a: Action)
    requires CollectorEnabled(r, workers, a) && !a.CollectorTop? && !a.Resolve? && !a.DrainReceive? && !a.FinishEpisode?
    requires a.ReceiveCompletion? ==> r.pool.completions == []
    ensures QuietSpec(r, CollectorStep(r, workers, visible, configuredStart, a))
  {
  }

  lemma QuietKeepsReports(r: Run, q: Run)
    requires ReportInv(r) && QuietSpec(r, q)
    ensures ReportInv(q)
  {
  }

  lemma CollectorKeepsReports(r: Run, workers: nat, visible: set<Block>, configuredStart: int, a: Action)
    requires ReportInv(r) && CollectorEnabled(r, workers, a)
    ensures ReportInv(CollectorStep(r, workers, visible, configuredStart, a))
  {
    if a.ReceiveCompletion? && r.pool.completions != [] {
      ReceiveKeepsReports(r, Top, false);
    } else if a.DrainReceive? {
      ReceiveKeepsReports(r, r.ctl.pc, r.ctl.pc.confirmed.None?);
    } else if a.FinishEpisode? {
      FinishKeepsReports(r, visible, configuredStart, a.answers, a.interrupted);
    } else {
      if a.CollectorTop? {
        TopReports(r, visible, a.gapQueryFails);
      } else if a.Resolve? {
        ResolveReportsNothing(r, a.refetched, a.waitInterrupted);
      } else {
        QuietReports(r, workers, visible, configuredStart, a);
      }
      QuietKeepsReports(r, CollectorStep(r, workers, visible, configuredStart, a));
    }
  }

  lemma StepKeepsReports(s: System, workers: nat, a: Action)
    requires ReportInv(s.run) && Enabled(s, workers, a)
    ensures ReportInv(Step(s, workers, a).run)
  {
    if !OuterEnabled(s, a) && CollectorEnabled(s.run, workers, a) {
      CollectorKeepsReports(s.run, workers, s.visible, s.configuredStart, a);
    }
  }

  lemma RunStepReports(workers: nat, states: seq<System>, actions: seq<Action>, k: nat)
    requires IsRun(workers, states, actions) && k < |actions| && ReportInv(states[k].run)
    ensures ReportInv(states[k + 1].run)
  {
    StepKeepsReports(states[k], workers, actions[k]);
  }

  /** A shutdown loses no report: in every run the stores that finish after a cancellation are still reported. */
  lemma {:induction false} CancelledRunsReport(workers: nat, states: seq<System>, actions: seq<Action>, i: nat)
    requires IsRun(workers, states, actions) && i < |states|
    ensures ReportInv(states[i].run)
    decreases i
  {
    if i > 0 {
      CancelledRunsReport(workers, states, actions, i - 1);
      RunStepReports(workers, states, actions, i - 1);
    }
  }

  /** What a stale report left of its batch is applied once the episode is over: a refusal fails the run, a store is reported. */
  lemma LeftoverIsApplied(s: System, workers: nat, answers: W.Answers, interrupted: bool)
    requires s.phase.Running? && Enabled(s, workers, FinishEpisode(answers, interrupted))
    requires s.run.ctl.pc.confirmed.None? && !StaleIn(s.run.ctl.pc.rest)
    ensures var t, rest := Step(s, workers, FinishEpisode(answers, interrupted)), s.run.ctl.pc.rest;
            && (!Ended(t.run) ==> Reported(rest, t.run.apply.callbacks))
            && ((exists c :: c in rest && c.result == Refused) ==> t.run.ctl.fatal)
  {
    var r, rest := s.run, s.run.ctl.pc.rest;
    var d := Finalize(r.ctl, r.ctl.episode.value, r.ctl.pc.confirmed, s.visible, s.configuredStart, answers, interrupted);
    var from := At(r.(ctl := d), Top);
    BatchReportsAll(from, rest);
    if c :| c in rest && c.result == Refused {
      var k :| 0 <= k < |rest| && rest[k] == c;
      assert forall m :: 0 <= m < k ==> rest[m] in rest;
      RefusedFails(from, rest, false, k);
    }
  }

  // ---------------------------------------------------------------- the committed history

  /** The history holds reported heights only, and every reported height from two below the next one on. */
  ghost predicate BookInv(r: Run) {
    && (forall n :: n in r.book.committed ==> n in r.apply.callbacks)
    && (forall n :: n in r.apply.callbacks && n >= r.check.next - 2 ==> n in r.book.committed)
  }

  lemma {:induction false} BatchBook(r: Run, batch: seq<Completion>, suppress: bool)
    requires BookInv(r)
    ensures BookInv(ApplyBatch(r, batch, suppress))
    decreases |batch|
  {
    if batch != [] {
      var r1 := ApplyOne(r, batch[0], suppress || Ended(r));
      if !(r.ctl.episode.None? && r1.ctl.episode.Some?) {
        BatchBook(r1, batch[1..], suppress);
      }
    }
  }

  lemma ReceiveBook(r: Run, pc: Pc, suppress: bool)
    requires BookInv(r) && r.pool.completions != []
    ensures BookInv(ApplyCompletion(At(TakeCompletion(r), pc), r.pool.completions[0], suppress))
  {
    var c := r.pool.completions[0];
    var b := Park(r.apply, c);
    ParkCallbacks(r.apply.(reorder := r.apply.reorder[c.item.num := c]));
    BatchBook(At(TakeCompletion(r), pc).(apply := b), Batch(r.apply, b), suppress);
  }

  lemma CollectorBook(r: Run, workers: nat, visible: set<Block>, configuredStart: int, a: Action)
    requires BookInv(r) && CollectorEnabled(r, workers, a)
    ensures BookInv(CollectorStep(r, workers, visible, configuredStart, a))
  {
    if a.ReceiveCompletion? && r.pool.completions != [] {
      ReceiveBook(r, Top, false);
    } else if a.DrainReceive? {
      ReceiveBook(r, r.ctl.pc, r.ctl.pc.confirmed.None?);
    } else if a.FinishEpisode? {
      var d := Finalize(r.ctl, r.ctl.episode.value, r.ctl.pc.confirmed, visible, configuredStart, a.answers, a.interrupted);
      BatchBook(At(r.(ctl := d), Top), r.ctl.pc.rest, false);
    }
  }

  lemma StepBook(s: System, workers: nat, a: Action)
    requires BookInv(s.run) && Enabled(s, workers, a)
    ensures BookInv(Step(s, workers, a).run)
  {
    if !OuterEnabled(s, a) && CollectorEnabled(s.run, workers, a) {
      CollectorBook(s.run, workers, s.visible, s.configuredStart, a);
    }
  }

  lemma RunStepBook(workers: nat, states: seq<System>, actions: seq<Action>, k: nat)
    requires IsRun(workers, states, actions) && k < |actions| && BookInv(states[k].run)
    ensures BookInv(states[k + 1].run)
  {
    StepBook(states[k], workers, actions[k]);
  }

  lemma {:induction false} RunKeepsBook(workers: nat, states: seq<System>, actions: seq<Action>, i: nat)
    requires IsRun(workers, states, actions) && i < |states|
    ensures BookInv(states[i].run)
    decreases i
  {
    if i > 0 {
      RunKeepsBook(workers, states, actions, i - 1);
      RunStepBook(workers, states, actions, i - 1);
    }
  }

  /** The history repeats the hashes that were handed over. */
  ghost predicate HandedHistory(r: Run) {
    forall n :: n in r.book.committed ==> n in r.check.handed && r.book.committed[n] == r.check.handed[n].hash
  }

  lemma CheckedHistory(r: Run)
    requires CheckInv(r)
    ensures HandedHistory(r)
  {
  }

  /** In every run the last two popped heights, once reported, are remembered with the hash that was handed over. */
  lemma HistoryHoldsFrontier(workers: nat, states: seq<System>, actions: seq<Action>, i: nat)
    requires IsRun(workers, states, actions) && i < |states|
    ensures BookInv(states[i].run) && HandedHistory(states[i].run)
  {
    RunKeepsBook(workers, states, actions, i);
    RunKeepsCheck(workers, states, actions, i);
    CheckedHistory(states[i].run);
  }

  /** A report trims the history to the frontier and clears both rollback guards. */
  lemma {:induction false} ReportTrims(r: Run, batch: seq<Completion>, suppress: bool)
    ensures var q := ApplyBatch(r, batch, suppress);
            && q.check == r.check
            && (|| (q.apply.callbacks == r.apply.callbacks && q.book == r.book)
                || (q.book.guards == Guards(0, map[], []) && forall n :: n in q.book.committed ==> n >= r.check.next - 2))
    decreases |batch|
  {
    if batch != [] {
      var r1 := ApplyOne(r, batch[0], suppress || Ended(r));
      if !(r.ctl.episode.None? && r1.ctl.episode.Some?) {
        ReportTrims(r1, batch[1..], suppress);
      }
    }
  }

  // ---------------------------------------------------------------- rollback and restart

  /**
   * One height of the rollback deletes what is stored there exactly when the walk-back
   * or the wait verified a hash for it and the only stored block carries another one.
   */
  lemma RollbackDecides(s: System, workers: nat, fault: RollbackFault)
    requires Enabled(s, workers, RollbackHeight(fault))
    ensures var t, h := Step(s, workers, RollbackHeight(fault)), s.phase.height;
            var verified := h in s.phase.point.hashes && s.phase.point.hashes[h] != NoHash;
            var doomed := verified && !fault.QueryFault? && StoresOther(s.visible, h, s.phase.point.hashes[h]);
            && t.run == s.run
            && (doomed && !fault.DeleteFault? ==> t.visible == (set b | b in s.visible && b.num != h) && t.phase == s.phase.(height := h - 1))
            && (doomed && fault.DeleteFault? ==>
                  t.phase.Stopped? && t.visible == if fault.blockGone then (set b | b in s.visible && b.num != h) else s.visible)
            && (!doomed ==> t.visible == s.visible)
            && (!doomed && verified && (fault.QueryFault? || StoresSeveral(s.visible, h)) ==> t.phase.Stopped?)
            && (!doomed && !(verified && (fault.QueryFault? || StoresSeveral(s.visible, h))) ==> t.phase == s.phase.(height := h - 1))
  {
    var h := s.phase.height;
    StoredHashCases(s.visible, h);
    if h in s.phase.point.hashes {
      StoresOtherIff(s.visible, h, s.phase.point.hashes[h]);
    }
    assert s.visible - BlocksAt(s.visible, h) == set b | b in s.visible && b.num != h;
  }

  /** A fresh run at this height with this seed and these guards. */
  ghost predicate FreshRun(t: System, start: int, seed: Hash, guards: Guards) {
    && t.phase.Running? && t.run.start == start && t.run.seed == seed && t.run.book == Book(map[], guards)
    && t.run.check == Check(start, start - 1, seed, map[]) && t.run.apply == Apply(start, map[], {}, [], {}, [])
    && t.run.feed.dispatchedUpTo == start - 1 && t.run.feed.fetching == {} && t.run.pool.inFlight == 0
    && t.run.ctl == Control(None, None, false, false, false, false, Top)
  }

  /** The query answers the hash of the only block at a height, and the empty hash at an empty height. */
  lemma StoredHashIs(visible: set<Block>, num: int)
    ensures forall b :: b in visible && b.num == num && !StoresSeveral(visible, num) ==> StoredHash(visible, num) == Answer(b.hash)
    ensures (forall b :: b in visible ==> b.num != num) ==> StoredHash(visible, num) == Answer(NoHash)
  {
    forall b | b in visible && b.num == num && !StoresSeveral(visible, num) ensures StoredHash(visible, num) == Answer(b.hash) {
      assert BlocksAt(visible, num) == {b};
    }
    if forall b :: b in visible ==> b.num != num {
      assert BlocksAt(visible, num) == {};
    }
  }

  /** A restart that found its seed begins a fresh run; one that did not stops. */
  lemma RestartBegins(s: System, workers: nat, queryFails: bool)
    requires Enabled(s, workers, Restart(queryFails))
    ensures var t := Step(s, workers, Restart(queryFails));
            var seed := ResolveSeed(s.phase.from, s.run.book.committed, s.visible, queryFails);
            && t.visible == s.visible
            && (seed.Answer? ==> FreshRun(t, s.phase.from, seed.hash, s.run.book.guards))
            && (seed.QueryError? ==> t.phase.Stopped?)
  {
  }

  /** The restart seed: the reported hash below, also when the store cannot be read; else the only stored one. */
  lemma RestartDecides(s: System, workers: nat, queryFails: bool)
    requires Enabled(s, workers, Restart(queryFails))
    ensures var t, from, known := Step(s, workers, Restart(queryFails)), s.phase.from, s.run.book.committed;
            var reported := from > 0 && from - 1 in known && known[from - 1] != NoHash;
            && t.visible == s.visible
            && (from <= 0 ==> FreshRun(t, from, NoHash, s.run.book.guards))
            && (reported ==> FreshRun(t, from, known[from - 1], s.run.book.guards))
            && (from > 0 && !reported && (queryFails || StoresSeveral(s.visible, from - 1)) ==> t.phase.Stopped?)
            && (from > 0 && !reported && !queryFails ==>
                  forall b :: b in s.visible && b.num == from - 1 && !StoresSeveral(s.visible, from - 1) ==>
                    FreshRun(t, from, b.hash, s.run.book.guards))
            && (from > 0 && !reported && !queryFails && (forall b :: b in s.visible ==> b.num != from - 1) ==>
                  FreshRun(t, from, NoHash, s.run.book.guards))
  {
    StoredHashCases(s.visible, s.phase.from - 1);
    StoredHashIs(s.visible, s.phase.from - 1);
    RestartBegins(s, workers, queryFails);
  }
}
