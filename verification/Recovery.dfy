/**
 * What the processor can always do next: a quiet run indexes the next block of the
 * chain, and a run whose top block was orphaned can get back onto the new chain.
 */
module Recovery {
  import opened Chain
  import opened Processor
  import opened OrderedApply
  import opened Continuity
  import opened Safety
  import W = WalkBack

  // ---------------------------------------------------------------- paths

  /** One move: an enabled action whose fetched blocks, if any, are named. */
  ghost function Moves(workers: nat): (System, Action) -> Option<System> {
    (s: System, a: Action) => if WellFormed(a) && NamedAction(a) && Enabled(s, workers, a) then Some(Step(s, workers, a)) else None
  }

  /** These actions lead from s to t. */
  ghost predicate Walk(move: (System, Action) -> Option<System>, s: System, actions: seq<Action>, t: System)
    decreases |actions|
  {
    if actions == [] then s == t
    else move(s, actions[0]).Some? && Walk(move, move(s, actions[0]).value, actions[1..], t)
  }

  ghost predicate Path(workers: nat, s: System, actions: seq<Action>, t: System) {
    Walk(Moves(workers), s, actions, t)
  }

  ghost predicate Reach(workers: nat, s: System, t: System) {
    exists actions :: Path(workers, s, actions, t)
  }

  lemma Move(workers: nat, s: System, a: Action)
    requires WellFormed(a) && NamedAction(a) && Enabled(s, workers, a)
    ensures Reach(workers, s, Step(s, workers, a))
  {
    assert Moves(workers)(s, a) == Some(Step(s, workers, a));
    assert Walk(Moves(workers), Step(s, workers, a), [], Step(s, workers, a));
    assert [a][1..] == [];
    assert Path(workers, s, [a], Step(s, workers, a));
  }

  lemma {:induction false} WalkOn(move: (System, Action) -> Option<System>, s: System, x: seq<Action>, t: System, y: seq<Action>, u: System)
    requires Walk(move, s, x, t) && Walk(move, t, y, u)
    ensures Walk(move, s, x + y, u)
    decreases |x|
  {
    if x == [] {
      assert x + y == y;
    } else {
      WalkOn(move, move(s, x[0]).value, x[1..], t, y, u);
      assert (x + y)[1..] == x[1..] + y;
    }
  }

  lemma Then(workers: nat, s: System, t: System, u: System)
    requires Reach(workers, s, t) && Reach(workers, t, u)
    ensures Reach(workers, s, u)
  {
    var x :| Path(workers, s, x, t);
    var y :| Path(workers, t, y, u);
    WalkOn(Moves(workers), s, x, t, y, u);
    assert Path(workers, s, x + y, u);
  }

  lemma Stay(workers: nat, s: System)
    ensures Reach(workers, s, s)
  {
    assert Path(workers, s, [], s);
  }

  /** Everything the run theorems keep. */
  ghost predicate Good(workers: nat, s: System) {
    SafeInv(s) && ApplyInv(s.run, workers) && CheckInv(s.run)
  }

  lemma {:induction false} PathKeepsGood(workers: nat, s: System, actions: seq<Action>, t: System)
    requires Good(workers, s) && Path(workers, s, actions, t)
    ensures Good(workers, t)
    decreases |actions|
  {
    if actions != [] {
      StepKeepsSafe(s, workers, actions[0]);
      StepKeepsApply(s, workers, actions[0]);
      StepKeepsCheck(s, workers, actions[0]);
      PathKeepsGood(workers, Step(s, workers, actions[0]), actions[1..], t);
    }
  }

  /** A path continues a run. */
  lemma {:induction false} PathExtendsRun(workers: nat, states: seq<System>, actions: seq<Action>, more: seq<Action>, t: System)
    returns (states': seq<System>, actions': seq<Action>)
    requires IsRun(workers, states, actions) && NamedRun(actions) && Path(workers, states[|states| - 1], more, t)
    ensures IsRun(workers, states', actions') && NamedRun(actions')
    ensures states <= states' && actions <= actions' && states'[|states'| - 1] == t
    decreases |more|
  {
    if more == [] {
      states', actions' := states, actions;
    } else {
      var next := Step(states[|states| - 1], workers, more[0]);
      states', actions' := PathExtendsRun(workers, states + [next], actions + [more[0]], more[1..], t);
    }
  }

  // ---------------------------------------------------------------- moves of a running processor

  lemma CollectorMove(workers: nat, s: System, a: Action)
    requires s.phase.Running? && CollectorEnabled(s.run, workers, a) && WellFormed(a)
    ensures Reach(workers, s, s.(run := CollectorStep(s.run, workers, s.visible, s.configuredStart, a)))
  {
    Move(workers, s, a);
  }

  lemma PoolMove(workers: nat, s: System, a: Action)
    requires s.phase.Running? && PoolEnabled(s.run, workers, a)
    ensures Reach(workers, s, s.(run := s.run.(pool := PoolStep(s.run.pool, s.visible, a)),
                                 visible := if a.PoolStore? then Land(s.visible, s.run.pool.busy[a.index], a.result, a.landed) else s.visible))
  {
    Move(workers, s, a);
  }

  lemma FeedMove(workers: nat, s: System, a: Action)
    requires s.phase.Running? && FeedEnabled(s.run, workers, a) && WellFormed(a) && NamedAction(a)
    ensures Reach(workers, s, s.(run := FeedStep(s.run, a)))
  {
    Move(workers, s, a);
  }

  /** With nothing to pop and nothing held, the collector gets to its channels. */
  lemma ToSelect(workers: nat, s: System)
    requires s.phase.Running? && s.run.ctl.pc.Top? && s.run.pool.holding.None? && s.run.check.next !in s.run.feed.pending
    ensures Reach(workers, s, s.(run := At(s.run, Select)))
  {
    var s1 := s.(run := At(s.run, Guard));
    CollectorMove(workers, s, CollectorTop(false));
    CollectorMove(workers, s1, CollectorGuard);
    Then(workers, s, s1, s.(run := At(s.run, Select)));
  }

  /** The next height is dispatched, fetched and delivered. */
  lemma FetchNext(workers: nat, s: System, item: Item)
    requires workers > 0 && s.phase.Running? && s.run.ctl.pc.Select? && Usable(item)
    requires s.run.feed == Feed(item.num - 1, {}, [], false, map[]) && s.run.check.next == item.num
    ensures Reach(workers, s, s.(run := At(s.run.(feed := Feed(item.num, {}, [], false, map[item.num := item])), Top)))
  {
    var n := item.num;
    var s1 := s.(run := s.run.(feed := Feed(n, {} + {n}, [], false, map[])));
    FeedMove(workers, s, Dispatch);
    var s2 := s.(run := s.run.(feed := Feed(n, {}, [item], false, map[])));
    assert {} + {n} - {n} == {};
    assert [] + [item] == [item];
    FeedMove(workers, s1, Fetched(item));
    Then(workers, s, s1, s2);
    var s3 := s.(run := At(s.run.(feed := Feed(n, {}, [], false, map[n := item])), Top));
    assert [item][1..] == [];
    CollectorMove(workers, s2, ReceiveResult);
    Then(workers, s, s2, s3);
  }

  // ---------------------------------------------------------------- indexing the next block

  /** Nothing in flight, nothing fetched ahead, no episode: the collector waits for the next height. */
  ghost predicate Quiet(r: Run) {
    && r.feed == Feed(r.check.next - 1, {}, [], false, map[])
    && r.pool == Pool(None, [], false, [], [], 0, [], false, 0, r.pool.dropped)
    && r.apply == r.apply.(cursor := r.check.next, reorder := map[], holes := {})
    && r.ctl == Control(None, None, false, false, false, false, Top)
  }

  /** The next block of the chain the run is on. */
  ghost predicate Continues(s: System, item: Item) {
    && Usable(item) && item.num == s.run.check.next
    && (s.run.seed == NoHash || item.num != s.run.start || item.parent == s.run.seed)
    && (s.run.check.lastHash == NoHash || item.parent == s.run.check.lastHash)
    && (forall b :: b in s.visible && b.num == item.num - 1 ==> b.hash == item.parent)
  }

  lemma ContinuesPasses(s: System, item: Item)
    requires Continues(s, item)
    ensures !ContinuityBreak(s.run.start, s.run.seed, s.run.check.lastNum, s.run.check.lastHash, item)
    ensures forall r: Run :: !GapBreak(r, s.visible, false, item)
  {
    StoredHashSound(s.visible, item.num - 1);
  }

  /** The run once the item has passed the check and waits for the pool. */
  function Dispatched(r: Run, item: Item): Run {
    r.(feed := Feed(item.num, {}, [], false, map[]),
       check := Check(item.num + 1, item.num, item.hash, r.check.handed[item.num := item]),
       pool := Register(r.pool, item))
  }

  lemma DispatchNext(workers: nat, s: System, item: Item)
    requires workers > 0 && s.phase.Running? && Quiet(s.run) && Continues(s, item)
    ensures Reach(workers, s, s.(run := At(Dispatched(s.run, item), Select)))
  {
    var r := s.run;
    var s1 := s.(run := At(r, Select));
    ToSelect(workers, s);
    var s2 := s.(run := At(r.(feed := Feed(item.num, {}, [], false, map[item.num := item])), Top));
    FetchNext(workers, s1, item);
    Then(workers, s, s1, s2);
    var s3 := s.(run := At(Dispatched(r, item), Guard));
    ContinuesPasses(s, item);
    assert map[item.num := item] - {item.num} == map[];
    CollectorMove(workers, s2, CollectorTop(false));
    Then(workers, s, s2, s3);
    CollectorMove(workers, s3, CollectorGuard);
    Then(workers, s, s3, s.(run := At(Dispatched(r, item), Select)));
  }

  /** A pool with this one report waiting for the collector. */
  function ReportedPool(p: Pool, item: Item): Pool {
    p.(holding := None, inFlight := 0, completions := [Completion(item, Stored, None)])
  }

  /** A held item goes through the channel to a worker. */
  lemma SendOne(workers: nat, s: System, item: Item)
    requires workers > 0 && s.phase.Running? && s.run.ctl.pc.Select?
    requires s.run.pool == Pool(Some(item), [], false, [], [], 0, [], false, 1, s.run.pool.dropped)
    ensures Reach(workers, s, s.(run := At(s.run.(pool := s.run.pool.(holding := None, busy := [item])), Top)))
  {
    var r, p := s.run, s.run.pool;
    var s1 := s.(run := At(r.(pool := p.(holding := None, queue := [item])), Top));
    assert [] + [item] == [item];
    CollectorMove(workers, s, SendToPool);
    assert [item][1..] == [];
    PoolMove(workers, s1, PoolTake);
    Then(workers, s, s1, s.(run := At(r.(pool := p.(holding := None, busy := [item])), Top)));
  }

  /** The worker stores it, reports it and drops its registration. */
  lemma WorkOne(workers: nat, s: System, item: Item)
    requires workers > 0 && s.phase.Running?
    requires s.run.pool == Pool(None, [], false, [item], [], 0, [], false, 1, s.run.pool.dropped)
    ensures Reach(workers, s, s.(run := s.run.(pool := ReportedPool(s.run.pool, item).(busy := [])), visible := s.visible + {BlockOf(item)}))
  {
    var p, c := s.run.pool, Completion(item, Stored, None);
    var s1 := s.(run := s.run.(pool := p.(busy := [], finished := [c])), visible := s.visible + {BlockOf(item)});
    assert Remove([item], 0) == [];
    assert [] + [c] == [c];
    PoolMove(workers, s, PoolStore(0, Stored, true, false));
    var s2 := s1.(run := s1.run.(pool := p.(busy := [], completions := [c], reported := 1)));
    assert Remove([c], 0) == [];
    PoolMove(workers, s1, PoolReport(0));
    Then(workers, s, s1, s2);
    PoolMove(workers, s2, PoolDone);
    Then(workers, s, s2, s.(run := s.run.(pool := ReportedPool(p, item).(busy := [])), visible := s.visible + {BlockOf(item)}));
  }

  lemma StoreOne(workers: nat, s: System, item: Item)
    requires workers > 0 && s.phase.Running? && s.run.ctl.pc.Select?
    requires s.run.pool == Pool(Some(item), [], false, [], [], 0, [], false, 1, s.run.pool.dropped)
    ensures Reach(workers, s, s.(run := At(s.run.(pool := ReportedPool(s.run.pool, item)), Top), visible := s.visible + {BlockOf(item)}))
  {
    var s1 := s.(run := At(s.run.(pool := s.run.pool.(holding := None, busy := [item])), Top));
    SendOne(workers, s, item);
    WorkOne(workers, s1, item);
    Then(workers, s, s1, s.(run := At(s.run.(pool := ReportedPool(s.run.pool, item)), Top), visible := s.visible + {BlockOf(item)}));
  }

  /** The single waiting report is applied and committed. */
  lemma CommitOne(workers: nat, s: System, item: Item)
    requires s.phase.Running? && s.run.ctl == Control(None, None, false, false, false, false, Select)
    requires s.run.pool.completions == [Completion(item, Stored, None)]
    requires s.run.apply == s.run.apply.(cursor := item.num, reorder := map[], holes := {})
    ensures var c := Completion(item, Stored, None);
            var r := At(TakeCompletion(s.run), Top).(apply := s.run.apply.(cursor := item.num + 1, consumed := s.run.apply.consumed + [c]));
            Reach(workers, s, s.(run := Commit(r, item)))
  {
    var c := Completion(item, Stored, None);
    ParkAlone(s.run.apply, c);
    var after := s.run.apply.(cursor := item.num + 1, consumed := s.run.apply.consumed + [c]);
    assert Batch(s.run.apply, after) == [c];
    var r := At(TakeCompletion(s.run), Top).(apply := after);
    assert [c][1..] == [];
    assert ApplyBatch(r, [c], false) == Commit(r, item);
    CollectorMove(workers, s, ReceiveCompletion);
  }

  lemma ParkAlone(a: Apply, c: Completion)
    requires a == a.(cursor := c.item.num, reorder := map[], holes := {})
    ensures Park(a, c) == a.(cursor := c.item.num + 1, consumed := a.consumed + [c])
  {
    var parked := a.(reorder := map[c.item.num := c]);
    assert a.reorder[c.item.num := c] == map[c.item.num := c];
    assert map[c.item.num := c] - {c.item.num} == map[];
    assert CollectReady(Consume(parked)) == Consume(parked);
  }

  /** A quiet run indexes the next block of its chain and is quiet again. */
  lemma IndexNext(workers: nat, s: System, item: Item) returns (t: System)
    requires workers > 0 && s.phase.Running? && Quiet(s.run) && Continues(s, item)
    ensures Reach(workers, s, t) && t.phase.Running? && Quiet(t.run) && t.configuredStart == s.configuredStart
    ensures t.visible == s.visible + {BlockOf(item)}
    ensures t.run.start == s.run.start && t.run.seed == s.run.seed && t.run.check.next == item.num + 1 && t.run.check.lastHash == item.hash
    ensures t.run.apply.callbacks == s.run.apply.callbacks + [item.num] && t.run.book.guards == Guards(0, map[], [])
  {
    var s1 := s.(run := At(Dispatched(s.run, item), Select));
    DispatchNext(workers, s, item);
    var s2 := s1.(run := At(s1.run.(pool := ReportedPool(s1.run.pool, item)), Top), visible := s.visible + {BlockOf(item)});
    StoreOne(workers, s1, item);
    Then(workers, s, s1, s2);
    var s3 := s2.(run := At(s2.run, Select));
    ToSelect(workers, s2);
    Then(workers, s, s2, s3);
    var c := Completion(item, Stored, None);
    var r := At(TakeCompletion(s3.run), Top).(apply := s3.run.apply.(cursor := item.num + 1, consumed := s3.run.apply.consumed + [c]));
    CommitOne(workers, s3, item);
    t := s3.(run := Commit(r, item));
    Then(workers, s, s3, t);
  }

  // ---------------------------------------------------------------- meeting a reorg

  /** The control state of a wait that stands on x after this many flips, at this position. */
  function Waiting(x: Item, flips: nat, popped: nat, pc: Pc): Control {
    Control(Some(StartEpisode(x).(rewalks := flips, popped := popped)), None, false, false, false, false, pc)
  }

  /** The run with the heights up to n popped and nothing more fetched. */
  function Popped(r: Run, n: int): Run {
    r.(feed := Feed(n, {}, [], false, map[]), check := r.check.(next := n + 1))
  }

  /** A block that does not continue the chain opens a wait. */
  lemma OpenWait(workers: nat, s: System, x: Item)
    requires workers > 0 && s.phase.Running? && Quiet(s.run) && Usable(x) && x.num == s.run.check.next
    requires ContinuityBreak(s.run.start, s.run.seed, s.run.check.lastNum, s.run.check.lastHash, x)
    ensures Reach(workers, s, s.(run := Popped(s.run, x.num).(ctl := Waiting(x, 0, 0, Select))))
  {
    var r := s.run;
    var s1 := s.(run := At(r, Select));
    ToSelect(workers, s);
    var s2 := s.(run := At(r.(feed := Feed(x.num, {}, [], false, map[x.num := x])), Top));
    FetchNext(workers, s1, x);
    Then(workers, s, s1, s2);
    var s3 := s.(run := Popped(r, x.num).(ctl := Waiting(x, 0, 0, Guard)));
    assert map[x.num := x] - {x.num} == map[];
    CollectorMove(workers, s2, CollectorTop(false));
    Then(workers, s, s2, s3);
    CollectorMove(workers, s3, CollectorGuard);
    Then(workers, s, s3, s.(run := Popped(r, x.num).(ctl := Waiting(x, 0, 0, Select))));
  }

  /** The next height is fetched and popped into the wait. */
  lemma PopIntoWait(workers: nat, s: System, x: Item, flips: nat, y: Item)
    requires workers > 0 && s.phase.Running? && Usable(y) && y.num == x.num + 1 && s.run.pool.holding.None?
    requires s.run.feed == Feed(x.num, {}, [], false, map[]) && s.run.check.next == y.num && s.run.ctl == Waiting(x, flips, flips, Select)
    ensures Reach(workers, s, s.(run := Popped(s.run, y.num).(ctl := Waiting(x, flips, flips + 1, Resolving(y)))))
  {
    var s1 := s.(run := At(s.run.(feed := Feed(y.num, {}, [], false, map[y.num := y])), Top));
    FetchNext(workers, s, y);
    assert map[y.num := y] - {y.num} == map[];
    CollectorMove(workers, s1, CollectorTop(false));
    Then(workers, s, s1, s.(run := Popped(s.run, y.num).(ctl := Waiting(x, flips, flips + 1, Resolving(y)))));
  }

  /** A block that does not chain on the parked one moves the wait onto itself. */
  lemma FlipWait(workers: nat, s: System, x: Item, flips: nat, y: Item)
    requires workers > 0 && s.phase.Running? && Usable(y) && y.num == x.num + 1 && y.parent != x.hash && flips < 64
    requires s.run.feed == Feed(x.num, {}, [], false, map[]) && s.run.check.next == y.num && s.run.ctl == Waiting(x, flips, flips, Select)
    requires s.run.pool.holding.None?
    ensures Reach(workers, s, s.(run := Popped(s.run, y.num).(ctl := Waiting(y, flips + 1, flips + 1, Select))))
  {
    var r := Popped(s.run, y.num);
    var s1 := s.(run := r.(ctl := Waiting(x, flips, flips + 1, Resolving(y))));
    PopIntoWait(workers, s, x, flips, y);
    var s2 := s.(run := r.(ctl := Waiting(y, flips + 1, flips + 1, Guard)));
    CollectorMove(workers, s1, Resolve(y, false));
    Then(workers, s, s1, s2);
    CollectorMove(workers, s2, CollectorGuard);
    Then(workers, s, s2, s.(run := r.(ctl := Waiting(y, flips + 1, flips + 1, Select))));
  }

  /** Blocks of consecutive heights, none of which chains on the one before it. */
  ghost predicate FlipFlop(items: seq<Item>, from: int) {
    && items != []
    && (forall i :: 0 <= i < |items| ==> Usable(items[i]) && items[i].num == from + i)
    && (forall i, j :: 0 <= i && j == i + 1 < |items| ==> items[j].parent != items[i].hash)
  }

  function Last(items: seq<Item>): Item
    requires items != []
  {
    items[|items| - 1]
  }

  /** The wait follows a flip-flopping chain to its newest block. */
  lemma {:induction false} FlipAll(workers: nat, s: System, items: seq<Item>, flips: nat)
    requires workers > 0 && s.phase.Running? && items != [] && FlipFlop(items, items[0].num) && flips + |items| <= 65
    requires s.run.feed == Feed(items[0].num, {}, [], false, map[]) && s.run.check.next == items[0].num + 1
    requires s.run.ctl == Waiting(items[0], flips, flips, Select) && s.run.pool.holding.None?
    ensures var all := flips + |items| - 1;
            Reach(workers, s, s.(run := Popped(s.run, Last(items).num).(ctl := Waiting(Last(items), all, all, Select))))
    decreases |items|
  {
    if |items| == 1 {
      Stay(workers, s);
    } else {
      var q := s.(run := Popped(s.run, items[1].num).(ctl := Waiting(items[1], flips + 1, flips + 1, Select)));
      FlipWait(workers, s, items[0], flips, items[1]);
      FlipAll(workers, q, items[1..], flips + 1);
      var all := flips + |items| - 1;
      Then(workers, s, q, s.(run := Popped(s.run, Last(items).num).(ctl := Waiting(Last(items), all, all, Select))));
    }
  }

  /** A chained successor confirms the wait; the pool is idle, so the drain ends at once. */
  lemma ConfirmWait(workers: nat, s: System, x: Item, flips: nat, y: Item)
    requires workers > 0 && s.phase.Running? && Usable(y) && y.num == x.num + 1 && y.parent == x.hash
    requires s.run.feed == Feed(x.num, {}, [], false, map[]) && s.run.check.next == y.num && s.run.ctl == Waiting(x, flips, flips, Select)
    requires s.run.pool.holding.None? && s.run.pool.inFlight == 0 && s.run.pool.completions == []
    ensures Reach(workers, s, s.(run := Popped(s.run, y.num).(ctl := Waiting(x, flips, flips + 1, WalkingBack(Some(y), [])))))
  {
    var r := Popped(s.run, y.num);
    var s1 := s.(run := r.(ctl := Waiting(x, flips, flips + 1, Resolving(y))));
    PopIntoWait(workers, s, x, flips, y);
    var s2 := s.(run := r.(ctl := Waiting(x, flips, flips + 1, Draining(Some(y), false, []))));
    CollectorMove(workers, s1, Resolve(y, false));
    Then(workers, s, s1, s2);
    EndDrain(workers, s2, x, flips, y);
    Then(workers, s, s2, s.(run := r.(ctl := Waiting(x, flips, flips + 1, WalkingBack(Some(y), [])))));
  }

  lemma EndDrain(workers: nat, s: System, x: Item, flips: nat, y: Item)
    requires s.phase.Running? && s.run.ctl == Waiting(x, flips, flips + 1, Draining(Some(y), false, []))
    requires s.run.pool.inFlight == 0 && s.run.pool.completions == []
    ensures Reach(workers, s, s.(run := s.run.(ctl := Waiting(x, flips, flips + 1, WalkingBack(Some(y), [])))))
  {
    var s1 := s.(run := s.run.(ctl := Waiting(x, flips, flips + 1, Draining(Some(y), true, []))));
    CollectorMove(workers, s, DrainSettle);
    CollectorMove(workers, s1, DrainFinish);
    Then(workers, s, s1, s.(run := s.run.(ctl := Waiting(x, flips, flips + 1, WalkingBack(Some(y), [])))));
  }

  /** The control state of a run that has recorded this point and is leaving. */
  function Leaving(point: RollbackPoint, sawResults: bool, sawCompletions: bool, pc: Pc): Control {
    Control(None, Some(point), false, true, sawResults, sawCompletions, pc)
  }

  lemma FinishWait(workers: nat, s: System, x: Item, flips: nat, y: Item, answers: W.Answers, fork: int, hashes: map<int, Hash>)
    requires s.phase.Running? && s.run.ctl == Waiting(x, flips, flips + 1, WalkingBack(Some(y), []))
    requires W.ResolveForkPoint(s.visible, s.configuredStart, answers, x.num - 1, x.parent) == W.Found(fork, hashes)
    ensures var point := FullEvidence(StartEpisode(x), Some(y), fork, hashes, answers);
            Reach(workers, s, s.(run := s.run.(ctl := Leaving(point, false, false, Guard))))
  {
    CollectorMove(workers, s, FinishEpisode(answers, false));
  }

  /** An idle pool as the leaving run closes it. */
  function ClosedPool(p: Pool, completionsClosed: bool): Pool {
    Pool(None, [], true, [], [], 0, [], completionsClosed, 0, p.dropped)
  }

  /** The channels close one after the other. */
  lemma CloseChannels(workers: nat, s: System, point: RollbackPoint)
    requires s.phase.Running? && s.run.ctl == Leaving(point, false, false, Guard)
    requires s.run.pool == Pool(None, [], false, [], [], 0, [], false, 0, s.run.pool.dropped)
    requires s.run.feed == Feed(s.run.feed.dispatchedUpTo, {}, [], false, map[])
    ensures Reach(workers, s, s.(run := s.run.(ctl := Leaving(point, false, false, Top), pool := ClosedPool(s.run.pool, true),
                                              feed := s.run.feed.(resultsClosed := true))))
  {
    var r := s.run;
    var s1 := s.(run := At(r, Select));
    CollectorMove(workers, s, CollectorGuard);
    var s2 := s.(run := At(r.(pool := ClosedPool(r.pool, false)), Top));
    CollectorMove(workers, s1, SeeCancellation);
    Then(workers, s, s1, s2);
    var s3 := s2.(run := s2.run.(feed := r.feed.(resultsClosed := true)));
    FeedMove(workers, s2, CloseResults);
    Then(workers, s, s2, s3);
    var s4 := s3.(run := s3.run.(pool := ClosedPool(r.pool, true)));
    PoolMove(workers, s3, CloseCompletions);
    Then(workers, s, s3, s4);
  }

  /** The collector sees both channels closed and exits. */
  lemma LeaveRun(workers: nat, s: System, point: RollbackPoint)
    requires s.phase.Running? && s.run.ctl == Leaving(point, false, false, Top) && s.run.pool == ClosedPool(s.run.pool, true)
    requires s.run.feed == Feed(s.run.feed.dispatchedUpTo, {}, [], true, map[])
    ensures Reach(workers, s, s.(run := s.run.(ctl := Leaving(point, true, true, Exited))))
  {
    var r := s.run;
    var s1 := s.(run := At(r, Select));
    ToSelect(workers, s);
    var s2 := s.(run := r.(ctl := Leaving(point, true, false, Top)));
    CollectorMove(workers, s1, ReceiveResult);
    Then(workers, s, s1, s2);
    var s3 := s2.(run := At(s2.run, Select));
    ToSelect(workers, s2);
    Then(workers, s, s2, s3);
    CollectorMove(workers, s3, ReceiveCompletion);
    Then(workers, s, s3, s.(run := r.(ctl := Leaving(point, true, true, Exited))));
  }

  /**
   * From the first block off the chain to the end of the run: the node may flip up to 64
   * times before a block chains on the newest one, and the fork point is then recorded.
   */
  lemma MeetReorg(workers: nat, s: System, items: seq<Item>, y: Item, answers: W.Answers, fork: int, hashes: map<int, Hash>) returns (t: System)
    requires workers > 0 && s.phase.Running? && Quiet(s.run) && FlipFlop(items, s.run.check.next) && |items| <= 65
    requires Usable(y) && y.num == Last(items).num + 1 && y.parent == Last(items).hash
    requires ContinuityBreak(s.run.start, s.run.seed, s.run.check.lastNum, s.run.check.lastHash, items[0])
    requires W.ResolveForkPoint(s.visible, s.configuredStart, answers, Last(items).num - 1, Last(items).parent) == W.Found(fork, hashes)
    ensures Reach(workers, s, t)
    ensures t == s.(run := t.run) && t.run.ctl == Leaving(FullEvidence(StartEpisode(Last(items)), Some(y), fork, hashes, answers), true, true, Exited)
    ensures t.run.book == s.run.book && t.run.feed.dispatchedUpTo == y.num
  {
    var r, x, flips := s.run, Last(items), |items| - 1;
    var s1 := s.(run := Popped(r, items[0].num).(ctl := Waiting(items[0], 0, 0, Select)));
    OpenWait(workers, s, items[0]);
    var s2 := s.(run := Popped(r, x.num).(ctl := Waiting(x, flips, flips, Select)));
    FlipAll(workers, s1, items, 0);
    Then(workers, s, s1, s2);
    var s3 := s.(run := Popped(r, y.num).(ctl := Waiting(x, flips, flips + 1, WalkingBack(Some(y), []))));
    ConfirmWait(workers, s2, x, flips, y);
    Then(workers, s, s2, s3);
    var point := FullEvidence(StartEpisode(x), Some(y), fork, hashes, answers);
    var s4 := s3.(run := s3.run.(ctl := Leaving(point, false, false, Guard)));
    FinishWait(workers, s3, x, flips, y, answers, fork, hashes);
    Then(workers, s, s3, s4);
    t := ExitRun(workers, s4, point);
    Then(workers, s, s4, t);
  }

  lemma ExitRun(workers: nat, s: System, point: RollbackPoint) returns (t: System)
    requires s.phase.Running? && s.run.ctl == Leaving(point, false, false, Guard)
    requires s.run.pool == Pool(None, [], false, [], [], 0, [], false, 0, s.run.pool.dropped)
    requires s.run.feed == Feed(s.run.feed.dispatchedUpTo, {}, [], false, map[])
    ensures Reach(workers, s, t) && t == s.(run := t.run) && t.run.ctl == Leaving(point, true, true, Exited)
    ensures t.run.book == s.run.book && t.run.feed.dispatchedUpTo == s.run.feed.dispatchedUpTo
  {
    var s1 := s.(run := s.run.(ctl := Leaving(point, false, false, Top), pool := ClosedPool(s.run.pool, true),
                               feed := s.run.feed.(resultsClosed := true)));
    CloseChannels(workers, s, point);
    t := s1.(run := s1.run.(ctl := Leaving(point, true, true, Exited)));
    LeaveRun(workers, s1, point);
    Then(workers, s, s1, t);
  }

  // ---------------------------------------------------------------- rolling back and restarting

  lemma ReachKeepsGood(workers: nat, s: System, t: System)
    requires Good(workers, s) && Reach(workers, s, t)
    ensures Good(workers, t)
  {
    var x :| Path(workers, s, x, t);
    PathKeepsGood(workers, s, x, t);
  }

  /** Without faults the rollback runs to its end and leaves exactly what lies at or below the fork point. */
  lemma {:induction false} RollToEnd(workers: nat, s: System) returns (t: System)
    requires Good(workers, s) && s.phase.RollingBack?
    ensures Reach(workers, s, t) && t.phase.RollingBack? && t.phase.from == s.phase.from && t.phase.height < t.phase.from
    ensures t.visible == UpTo(s.visible, s.phase.from - 1) && t.configuredStart == s.configuredStart && SafeInv(t)
    decreases s.phase.height - s.phase.from + 1
  {
    if s.phase.height < s.phase.from {
      t := s;
      Stay(workers, s);
      RolledDown(s);
    } else {
      var q := RollOne(workers, s);
      t := RollToEnd(workers, q);
      Then(workers, s, q, t);
    }
  }

  lemma RollOne(workers: nat, s: System) returns (q: System)
    requires Good(workers, s) && s.phase.RollingBack? && s.phase.height >= s.phase.from
    ensures Reach(workers, s, q) && Good(workers, q)
    ensures q.phase == s.phase.(height := s.phase.height - 1) && q.configuredStart == s.configuredStart
    ensures UpTo(q.visible, s.phase.from - 1) == UpTo(s.visible, s.phase.from - 1)
  {
    q := RollbackHeightStep(s, NoFault);
    RollOneHeight(workers, s);
    ReachKeepsGood(workers, s, q);
  }

  lemma RollOneHeight(workers: nat, s: System)
    requires SafeInv(s) && s.phase.RollingBack? && s.phase.height >= s.phase.from
    ensures var q := RollbackHeightStep(s, NoFault);
            && Reach(workers, s, q) && q.phase == s.phase.(height := s.phase.height - 1) && q.configuredStart == s.configuredStart
            && UpTo(q.visible, s.phase.from - 1) == UpTo(s.visible, s.phase.from - 1)
  {
    var q := RollbackHeightStep(s, NoFault);
    StoredHashOfUnique(s.visible, s.phase.height);
    Move(workers, s, RollbackHeight(NoFault));
    assert q.visible == s.visible || q.visible == s.visible - BlocksAt(s.visible, s.phase.height);
  }

  lemma RolledDown(s: System)
    requires SafeInv(s) && s.phase.RollingBack? && s.phase.height < s.phase.from
    ensures s.visible == UpTo(s.visible, s.phase.from - 1)
  {
  }

  lemma EndRun(workers: nat, s: System, point: RollbackPoint)
    requires s.phase.Running? && s.run.ctl == Leaving(point, true, true, Exited)
    requires !GuardTrips(CountRollback(s.run.book.guards, point.fork + 1), point.fork + 1)
    ensures var t := RunEndsStep(s);
            && Reach(workers, s, t) && t.phase.RollingBack? && t.phase.from == point.fork + 1
            && t.visible == s.visible && t.configuredStart == s.configuredStart
  {
    Move(workers, s, RunEnds);
  }

  lemma RollAndRestart(workers: nat, s: System) returns (t: System)
    requires Good(workers, s) && s.phase.RollingBack?
    ensures Reach(workers, s, t) && t.phase.Running? && Quiet(t.run) && t.configuredStart == s.configuredStart
    ensures t.visible == UpTo(s.visible, s.phase.from - 1)
    ensures t.run.start == t.run.check.next == s.phase.from && t.run.check.lastHash == t.run.seed
  {
    var q := RollToEnd(workers, s);
    t := RestartStep(q, false);
    RestartOne(workers, q);
    Then(workers, s, q, t);
  }

  /** The end of a run with a recorded point, its rollback and its restart. */
  lemma RollbackAndRestart(workers: nat, s: System, point: RollbackPoint) returns (t: System)
    requires Good(workers, s) && s.phase.Running? && s.run.ctl == Leaving(point, true, true, Exited)
    requires !GuardTrips(CountRollback(s.run.book.guards, point.fork + 1), point.fork + 1)
    ensures Reach(workers, s, t) && t.phase.Running? && Quiet(t.run) && t.configuredStart == s.configuredStart
    ensures t.visible == UpTo(s.visible, point.fork)
    ensures t.run.start == t.run.check.next == point.fork + 1 && t.run.check.lastHash == t.run.seed
  {
    var q := RunEndsStep(s);
    EndRun(workers, s, point);
    ReachKeepsGood(workers, s, q);
    t := RollAndRestart(workers, q);
    Then(workers, s, q, t);
  }

  lemma RestartOne(workers: nat, s: System)
    requires SafeInv(s) && s.phase.RollingBack? && s.phase.height < s.phase.from
    ensures var t := RestartStep(s, false);
            && Reach(workers, s, t) && t.phase.Running? && Quiet(t.run) && t.visible == s.visible && t.configuredStart == s.configuredStart
            && t.run.start == t.run.check.next == s.phase.from && t.run.check.lastHash == t.run.seed
  {
    StoredHashOfUnique(s.visible, s.phase.from - 1);
    Move(workers, s, Restart(false));
  }

  // ---------------------------------------------------------------- getting back onto the chain

  /** A branch of the chain from one height up: its blocks are named and each is the parent of the next. */
  ghost predicate Branch(chain: int -> Block, from: int, tip: int) {
    && (forall h :: from <= h <= tip ==> chain(h).num == h && chain(h).hash != NoHash && chain(h).parent != NoHash)
    && (forall h :: from < h <= tip ==> chain(h).parent == chain(h - 1).hash)
  }

  function ItemOf(b: Block): Item {
    Item(b.num, b.hash, b.parent, true)
  }

  ghost function BlocksOf(chain: int -> Block, from: int, tip: int): set<Block> {
    set h | from <= h <= tip :: chain(h)
  }

  /** A quiet run whose top is on the branch indexes the rest of the branch. */
  lemma {:induction false} IndexBranch(workers: nat, s: System, chain: int -> Block, tip: int) returns (t: System)
    requires workers > 0 && UniqueHeights(s.visible) && EmptyFrom(s.visible, s.run.check.next) && s.phase.Running? && Quiet(s.run)
    requires s.run.start <= s.run.check.next <= tip + 1 && Branch(chain, s.run.check.next - 1, tip) && chain(s.run.check.next - 1) in s.visible
    requires s.run.check.lastHash == chain(s.run.check.next - 1).hash
    requires s.run.seed == NoHash || s.run.check.next != s.run.start || s.run.seed == s.run.check.lastHash
    ensures Reach(workers, s, t) && t.phase.Running? && Quiet(t.run) && t.run.check.next == tip + 1
    ensures t.visible == s.visible + BlocksOf(chain, s.run.check.next, tip)
    ensures s.run.book.guards == Guards(0, map[], []) ==> t.run.book.guards == Guards(0, map[], [])
    decreases tip - s.run.check.next + 1
  {
    var n := s.run.check.next;
    if n > tip {
      t := s;
      Stay(workers, s);
      assert BlocksOf(chain, n, tip) == {};
    } else {
      assert chain(n).parent == chain(n - 1).hash && chain(n).num == n;
      var q := IndexNext(workers, s, ItemOf(chain(n)));
      t := IndexBranch(workers, q, chain, tip);
      Then(workers, s, q, t);
      assert BlocksOf(chain, n, tip) == {chain(n)} + BlocksOf(chain, n + 1, tip);
    }
  }

  /** A node that follows the branch. */
  function Honest(chain: int -> Block): W.Answers {
    W.Answers(false, (n: int, h: Hash) => if h == chain(n).hash then Some(chain(n).parent) else None, n => false)
  }

  lemma {:induction false} HonestChain(chain: int -> Block, from: int, top: int, n: int)
    requires Branch(chain, from, top) && from <= n <= top
    ensures W.ChainHash(Honest(chain), top, chain(top).hash, n) == chain(n).hash
    decreases top - n
  {
    if n < top {
      HonestChain(chain, from, top, n + 1);
    }
  }

  /**
   * The store shares the branch's block at the fork height and disagrees with it above;
   * a walk-back from the height top stays within the depth cap.
   */
  ghost predicate Forked(s: System, chain: int -> Block, fork: int, top: int) {
    && 0 <= fork < s.run.check.next - 1 <= top <= fork + W.MAX_WALK_BACK_DEPTH
    && chain(fork) in s.visible
    && BlocksAt(s.visible, s.run.check.next - 1) != {}
    && (forall b :: b in s.visible && b.num > fork ==> b.hash != chain(b.num).hash)
    && (forall n :: fork < n <= top && BlocksAt(s.visible, n) == {} ==> n >= s.configuredStart)
  }

  /** Above the fork an honest walk-back goes on. */
  lemma AboveFork(s: System, chain: int -> Block, fork: int, top: int, n: int)
    requires StoreSafe(s.visible) && Forked(s, chain, fork, top) && Branch(chain, fork, top) && fork < n <= top
    ensures !W.StopsAt(s.visible, s.configuredStart, Honest(chain), n, chain(n).hash)
    ensures W.MayDescend(s.visible, Honest(chain), top, n, chain(n).hash)
  {
    StoredHashOfUnique(s.visible, n);
    StoredHashSound(s.visible, n);
  }

  lemma AtFork(s: System, chain: int -> Block, fork: int, top: int)
    requires StoreSafe(s.visible) && Forked(s, chain, fork, top) && Branch(chain, fork, top)
    ensures W.StopsAt(s.visible, s.configuredStart, Honest(chain), fork, chain(fork).hash)
  {
    StoredHashOfUnique(s.visible, fork);
  }

  /** The walk-back of an honest node finds the fork. */
  lemma FindsFork(s: System, chain: int -> Block, fork: int, top: int) returns (hashes: map<int, Hash>)
    requires StoreSafe(s.visible) && Forked(s, chain, fork, top) && Branch(chain, fork, top)
    ensures W.ResolveForkPoint(s.visible, s.configuredStart, Honest(chain), top, chain(top).hash) == W.Found(fork, hashes)
  {
    var answers := Honest(chain);
    var hash := chain(top).hash;
    AtFork(s, chain, fork, top);
    HonestChain(chain, fork, top, fork);
    forall n | fork < n <= top
      ensures var h := W.ChainHash(answers, top, hash, n);
              !W.StopsAt(s.visible, s.configuredStart, answers, n, h) && W.MayDescend(s.visible, answers, top, n, h)
    {
      HonestChain(chain, fork, top, n);
      AboveFork(s, chain, fork, top, n);
    }
    assert W.IsForkPoint(s.visible, s.configuredStart, answers, top, hash, fork);
    W.WalkBackCorrect(s.visible, s.configuredStart, answers, top, hash);
    var out := W.ResolveForkPoint(s.visible, s.configuredStart, answers, top, hash);
    W.ForkPointUnique(s.visible, s.configuredStart, answers, top, hash, fork, out.fork);
    hashes := out.hashes;
  }

  /** The first block of the other branch does not continue the run. */
  lemma BreaksContinuity(workers: nat, s: System, chain: int -> Block, fork: int, top: int)
    requires Good(workers, s) && Quiet(s.run) && Forked(s, chain, fork, top) && Branch(chain, fork, s.run.check.next)
    ensures ContinuityBreak(s.run.start, s.run.seed, s.run.check.lastNum, s.run.check.lastHash, ItemOf(chain(s.run.check.next)))
  {
    var n := s.run.check.next;
    var b :| b in BlocksAt(s.visible, n - 1);
    assert chain(n).parent == chain(n - 1).hash;
    if n > s.run.start {
      assert b == BlockOf(s.run.check.handed[n - 1]);
    }
  }

  /** Blocks the node served at consecutive heights before it settled on the branch. */
  ghost predicate FlipsBefore(s: System, flips: seq<Item>, chain: int -> Block) {
    && |flips| <= 64 && FlipFlop(flips + [ItemOf(chain(s.run.check.next + |flips|))], s.run.check.next)
    && (flips != [] ==> ContinuityBreak(s.run.start, s.run.seed, s.run.check.lastNum, s.run.check.lastHash, flips[0]))
  }

  /** The first block served does not continue the run. */
  lemma FirstBreaks(workers: nat, s: System, flips: seq<Item>, chain: int -> Block, fork: int)
    requires Good(workers, s) && Quiet(s.run) && FlipsBefore(s, flips, chain)
    requires Forked(s, chain, fork, s.run.check.next + |flips| - 1) && Branch(chain, fork, s.run.check.next + |flips|)
    ensures ContinuityBreak(s.run.start, s.run.seed, s.run.check.lastNum, s.run.check.lastHash,
                            (flips + [ItemOf(chain(s.run.check.next + |flips|))])[0])
  {
    if flips == [] {
      BreaksContinuity(workers, s, chain, fork, s.run.check.next - 1);
    }
  }

  /** Two neighbours of the branch as fetched blocks. */
  lemma NextOnBranch(chain: int -> Block, fork: int, tip: int, n: int)
    requires Branch(chain, fork, tip) && fork < n < tip
    ensures var x, y := ItemOf(chain(n)), ItemOf(chain(n + 1));
            Usable(y) && x.num == n && y.num == n + 1 && y.parent == x.hash && x.parent == chain(n - 1).hash
  {
    assert chain(n).parent == chain(n - 1).hash && chain(n + 1).parent == chain(n + 1 - 1).hash;
  }

  /** The run meets the branch, after any flips, and ends with the fork recorded. */
  lemma MeetBranch(workers: nat, s: System, items: seq<Item>, chain: int -> Block, fork: int, n: int) returns (t: System, point: RollbackPoint)
    requires workers > 0 && StoreSafe(s.visible) && s.phase.Running? && Quiet(s.run) && FlipFlop(items, s.run.check.next) && |items| <= 65
    requires Last(items) == ItemOf(chain(n)) && Forked(s, chain, fork, n - 1) && Branch(chain, fork, n + 1)
    requires ContinuityBreak(s.run.start, s.run.seed, s.run.check.lastNum, s.run.check.lastHash, items[0])
    ensures Reach(workers, s, t) && t.phase.Running? && t.visible == s.visible && t.run.book == s.run.book
    ensures t.run.ctl == Leaving(point, true, true, Exited) && point.fork == fork
  {
    var hashes := FindsFork(s, chain, fork, n - 1);
    NextOnBranch(chain, fork, n + 1, n);
    t := MeetReorg(workers, s, items, ItemOf(chain(n + 1)), Honest(chain), fork, hashes);
    point := t.run.ctl.point.value;
  }

  lemma MeetFlips(workers: nat, s: System, flips: seq<Item>, chain: int -> Block, fork: int) returns (t: System, point: RollbackPoint)
    requires workers > 0 && Good(workers, s) && s.phase.Running? && Quiet(s.run) && FlipsBefore(s, flips, chain)
    requires Forked(s, chain, fork, s.run.check.next + |flips| - 1) && Branch(chain, fork, s.run.check.next + |flips| + 1)
    ensures Reach(workers, s, t) && t.phase.Running? && t.visible == s.visible && t.run.book == s.run.book
    ensures t.run.ctl == Leaving(point, true, true, Exited) && point.fork == fork
  {
    FirstBreaks(workers, s, flips, chain, fork);
    var n := s.run.check.next + |flips|;
    t, point := MeetBranch(workers, s, flips + [ItemOf(chain(n))], chain, fork, n);
  }

  lemma BackFrom(workers: nat, s: System, q: System, point: RollbackPoint) returns (t: System)
    requires Reach(workers, s, q) && Good(workers, q) && q.phase.Running? && q.run.ctl == Leaving(point, true, true, Exited)
    requires !GuardTrips(CountRollback(q.run.book.guards, point.fork + 1), point.fork + 1)
    ensures Reach(workers, s, t) && t.phase.Running? && Quiet(t.run) && t.visible == UpTo(q.visible, point.fork)
    ensures t.run.start == t.run.check.next == point.fork + 1 && t.run.check.lastHash == t.run.seed
  {
    t := RollbackAndRestart(workers, q, point);
    Then(workers, s, q, t);
  }

  /** The run meets the branch, rolls back to the fork and waits above it for the branch. */
  lemma BackToFork(workers: nat, s: System, flips: seq<Item>, chain: int -> Block, fork: int) returns (t: System)
    requires workers > 0 && Good(workers, s) && s.phase.Running? && Quiet(s.run) && FlipsBefore(s, flips, chain)
    requires Forked(s, chain, fork, s.run.check.next + |flips| - 1) && Branch(chain, fork, s.run.check.next + |flips| + 1)
    requires !GuardTrips(CountRollback(s.run.book.guards, fork + 1), fork + 1)
    ensures Reach(workers, s, t) && t.phase.Running? && Quiet(t.run)
    ensures t.visible == UpTo(s.visible, fork) && t.run.start == t.run.check.next == fork + 1 && t.run.check.lastHash == t.run.seed
  {
    var q, point := MeetFlips(workers, s, flips, chain, fork);
    ReachKeepsGood(workers, s, q);
    t := BackFrom(workers, s, q, point);
  }

  lemma SeedOnBranch(workers: nat, s: System, t: System, b: Block)
    requires Good(workers, s) && Reach(workers, s, t) && b in t.visible && b.num == t.run.start - 1
    ensures t.run.seed == b.hash && UniqueHeights(t.visible)
  {
    ReachKeepsGood(workers, s, t);
  }

  /** From the fork the restarted run indexes the branch. */
  lemma IndexFromFork(workers: nat, s: System, q: System, chain: int -> Block, tip: int) returns (t: System)
    requires workers > 0 && Reach(workers, s, q) && q.phase.Running? && Quiet(q.run) && UniqueHeights(q.visible)
    requires q.run.start == q.run.check.next <= tip + 1 && q.visible == UpTo(q.visible, q.run.start - 1)
    requires Branch(chain, q.run.start - 1, tip) && chain(q.run.start - 1) in q.visible
    requires q.run.check.lastHash == q.run.seed == chain(q.run.start - 1).hash
    ensures Reach(workers, s, t) && t.phase.Running? && Quiet(t.run) && t.run.check.next == tip + 1
    ensures t.visible == q.visible + BlocksOf(chain, q.run.start, tip)
  {
    assert EmptyFrom(q.visible, q.run.check.next);
    t := IndexBranch(workers, q, chain, tip);
    Then(workers, s, q, t);
  }

  /**
   * A reorg can be repaired. Whatever a quiet run has stored, if the node moves to a
   * branch that forks off within the walk-back's reach, after flipping at most 64 times,
   * the processor can roll back to the fork, restart and index the branch: the store
   * then holds exactly the old blocks up to the fork and the branch above it.
   */
  lemma ReorgConverges(workers: nat, s: System, flips: seq<Item>, chain: int -> Block, fork: int, tip: int) returns (t: System)
    requires workers > 0 && Good(workers, s) && s.phase.Running? && Quiet(s.run) && FlipsBefore(s, flips, chain)
    requires Forked(s, chain, fork, s.run.check.next + |flips| - 1) && tip > s.run.check.next + |flips| && Branch(chain, fork, tip)
    requires !GuardTrips(CountRollback(s.run.book.guards, fork + 1), fork + 1)
    ensures Reach(workers, s, t) && t.phase.Running? && Quiet(t.run) && t.run.check.next == tip + 1
    ensures t.visible == UpTo(s.visible, fork) + BlocksOf(chain, fork + 1, tip)
  {
    var q := BackToFork(workers, s, flips, chain, fork);
    assert chain(fork) in q.visible;
    SeedOnBranch(workers, s, q, chain(fork));
    t := IndexFromFork(workers, s, q, chain, tip);
  }

  /** The same for whole runs: every run that gets to such a state has a continuation that ends on the branch. */
  lemma ReorgIsRepaired(workers: nat, states: seq<System>, actions: seq<Action>, flips: seq<Item>, chain: int -> Block, fork: int, tip: int)
    returns (states': seq<System>, actions': seq<Action>)
    requires workers > 0 && IsRun(workers, states, actions) && NamedRun(actions)
    requires StoreSafe(states[0].visible) && EmptyFrom(states[0].visible, states[0].run.start)
    requires var s := states[|states| - 1];
             && s.phase.Running? && Quiet(s.run) && FlipsBefore(s, flips, chain)
             && Forked(s, chain, fork, s.run.check.next + |flips| - 1) && tip > s.run.check.next + |flips| && Branch(chain, fork, tip)
             && !GuardTrips(CountRollback(s.run.book.guards, fork + 1), fork + 1)
    ensures IsRun(workers, states', actions') && NamedRun(actions') && states <= states'
    ensures states'[|states'| - 1].visible == UpTo(states[|states| - 1].visible, fork) + BlocksOf(chain, fork + 1, tip)
  {
    var s := states[|states| - 1];
    RunKeepsSafe(workers, states, actions, |states| - 1);
    RunKeepsApply(workers, states, actions, |states| - 1);
    RunKeepsCheck(workers, states, actions, |states| - 1);
    var t := ReorgConverges(workers, s, flips, chain, fork, tip);
    var more :| Path(workers, s, more, t);
    states', actions' := PathExtendsRun(workers, states, actions, more, t);
  }

  /** A processor starting above one stored block. */
  function StartAt(b: Block): System {
    System({b}, b.num + 1, Running, NewRun(b.num + 1, b.hash, Guards(0, map[], [])))
  }

  lemma StartIsGood(workers: nat, b: Block)
    requires b.num >= 0 && b.hash != NoHash
    ensures Initial(StartAt(b)) && Good(workers, StartAt(b)) && Quiet(StartAt(b).run)
    ensures StoreSafe(StartAt(b).visible) && EmptyFrom(StartAt(b).visible, StartAt(b).run.start)
  {
    var s := StartAt(b);
    StoredHashOfUnique(s.visible, b.num);
    assert ResolveSeed(s.run.start, map[], s.visible, false) == Answer(b.hash);
    InitialSafe(s);
    NewRunApply(s.run.start, b.hash, Guards(0, map[], []), workers);
    NewRunCheck(s.run.start, b.hash, Guards(0, map[], []));
  }

  /** After indexing the first branch, the next one forks off. */
  lemma FirstBranchForked(s: System, first: int -> Block, second: int -> Block, base: int, fork: int, top: int)
    requires 0 <= base <= fork < top <= fork + W.MAX_WALK_BACK_DEPTH && Branch(first, base, top) && first(fork) == second(fork)
    requires forall h :: fork < h <= top ==> first(h).hash != second(h).hash
    requires s.run.check.next == top + 1 && s.visible == BlocksOf(first, base, top)
    ensures Forked(s, second, fork, top) && UpTo(s.visible, fork) == BlocksOf(first, base, fork)
  {
    forall h | base <= h <= top ensures first(h) in BlocksAt(s.visible, h) {
      assert first(h) in s.visible;
    }
    forall b | b in UpTo(s.visible, fork) ensures b in BlocksOf(first, base, fork) {
      var h :| base <= h <= top && b == first(h);
    }
  }

  /** A fresh processor indexes a whole branch. */
  lemma IndexFirst(workers: nat, chain: int -> Block, base: int, top: int) returns (t: System)
    requires workers > 0 && 0 <= base <= top && Branch(chain, base, top)
    ensures Reach(workers, StartAt(chain(base)), t) && Good(workers, t) && t.phase.Running? && Quiet(t.run)
    ensures t.run.check.next == top + 1 && t.visible == BlocksOf(chain, base, top) && t.run.book.guards == Guards(0, map[], [])
  {
    t := IndexBranch(workers, StartAt(chain(base)), chain, top);
    assert BlocksOf(chain, base, top) == {chain(base)} + BlocksOf(chain, base + 1, top);
    GoodFromStart(workers, chain(base), t);
  }

  lemma GoodFromStart(workers: nat, b: Block, t: System)
    requires b.num >= 0 && b.hash != NoHash && Reach(workers, StartAt(b), t)
    ensures Good(workers, t)
  {
    StartIsGood(workers, b);
    ReachKeepsGood(workers, StartAt(b), t);
  }

  /** Two paths from an initial state make a run through both of their ends. */
  lemma RunThrough(workers: nat, s: System, q: System, t: System) returns (states: seq<System>, actions: seq<Action>, i: nat)
    requires Initial(s) && Reach(workers, s, q) && Reach(workers, q, t)
    ensures IsRun(workers, states, actions) && NamedRun(actions) && states[0] == s && i < |states| && states[i] == q && states[|states| - 1] == t
  {
    var x :| Path(workers, s, x, q);
    var y :| Path(workers, q, y, t);
    var before, acts := PathExtendsRun(workers, [s], [], x, q);
    i := |before| - 1;
    states, actions := PathExtendsRun(workers, before, acts, y, t);
    assert states[i] == before[i] && states[0] == before[0] && [s][0] == before[0];
  }

  /** The branch met without any flips. */
  lemma FollowSecond(workers: nat, s: System, chain: int -> Block, fork: int, tip: int) returns (t: System)
    requires workers > 0 && Good(workers, s) && s.phase.Running? && Quiet(s.run) && s.run.book.guards == Guards(0, map[], [])
    requires Forked(s, chain, fork, s.run.check.next - 1) && tip > s.run.check.next && Branch(chain, fork, tip)
    ensures Reach(workers, s, t) && t.visible == UpTo(s.visible, fork) + BlocksOf(chain, fork + 1, tip)
  {
    assert [] + [ItemOf(chain(s.run.check.next))] == [ItemOf(chain(s.run.check.next))];
    t := ReorgConverges(workers, s, [], chain, fork, tip);
  }

  /**
   * From a fresh start: for any two branches that share a block and then differ, some
   * run indexes the first, meets the next and ends with exactly the next one stored.
   */
  lemma TwoBranches(workers: nat, first: int -> Block, second: int -> Block, base: int, fork: int, top: int, tip: int)
    returns (states: seq<System>, actions: seq<Action>)
    requires workers > 0 && 0 <= base <= fork < top <= fork + W.MAX_WALK_BACK_DEPTH && tip > top + 1
    requires Branch(first, base, top) && Branch(second, fork, tip) && first(fork) == second(fork)
    requires forall h :: fork < h <= top ==> first(h).hash != second(h).hash
    ensures IsRun(workers, states, actions) && NamedRun(actions) && states[0] == StartAt(first(base))
    ensures exists i :: 0 <= i < |states| && states[i].visible == BlocksOf(first, base, top)
    ensures states[|states| - 1].visible == BlocksOf(first, base, fork) + BlocksOf(second, fork + 1, tip)
  {
    var q := IndexFirst(workers, first, base, top);
    FirstBranchForked(q, first, second, base, fork, top);
    var t := FollowSecond(workers, q, second, fork, tip);
    StartIsGood(workers, first(base));
    var i;
    states, actions, i := RunThrough(workers, StartAt(first(base)), q, t);
  }
}
