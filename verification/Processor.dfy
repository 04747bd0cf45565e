/**
 * The concurrent block processor as a state machine.
 *
 * One value of type `System` is the visible block store together with one
 * processing run: the dispatcher, the fetch workers, the store pool, the single
 * result collector and the outer rollback/restart loop. Every goroutine step is
 * an `Action`; answers of the node and of the store travel inside the action, so
 * a run is determined by its actions. Fields marked "history" record what already
 * happened and are never read by a step.
 */
module Processor {
  import opened Chain
  import W = WalkBack

  const WORKERS_AHEAD := 2
  const MAX_ROLLBACKS_PER_RUN := 64
  const MAX_ROLLBACKS_PER_HEIGHT := 3
  const MAX_REWALKS := 64
  const MAX_GAP_REFILLS := 64

  /** A fetched and converted block, or a failed fetch (not ok, no hashes). */
  datatype Item = Item(num: int, hash: Hash, parent: Hash, ok: bool)

  function BlockOf(item: Item): Block {
    Block(item.num, item.hash, item.parent)
  }

  /** Stored: success; Refused: the store holds a soft-deleted twin; Failed: any other error. */
  datatype StoreResult = Stored | Failed | Refused

  /** One pool report; `stale` is the stored hash that disagrees with the failed item's own hash. */
  datatype Completion = Completion(item: Item, result: StoreResult, stale: Option<Hash>)

  /** The confirmation wait, or the pinned episode of a verified stale store. */
  datatype Episode = Episode(
    stalePinned: bool,
    baseHeight: int,
    baseParent: Hash,
    lastParked: Hash,
    rewalks: nat,
    gapRefills: nat,
    staleTop: int,
    staleTopHash: Hash,
    popped: nat            // history: items popped into this wait
  )

  /** A resolved fork; `top` (history) is the highest height with a verified hash. */
  datatype RollbackPoint = RollbackPoint(fork: int, hashes: map<int, Hash>, top: int, answers: W.Answers)

  /** Dispatcher and fetch workers: heights being fetched, the result channel, the ordered inbox. */
  datatype Feed = Feed(
    dispatchedUpTo: int,
    fetching: set<int>,
    results: seq<Item>,
    resultsClosed: bool,
    pending: map<int, Item>
  )

  /**
   * The bounded store pool. A task moves holding -> queue -> busy -> finished ->
   * completions; `reported` counts workers that have sent their completion and not
   * yet dropped their registration.
   */
  datatype Pool = Pool(
    holding: Option<Item>,
    queue: seq<Item>,
    queueClosed: bool,
    busy: seq<Item>,
    finished: seq<Completion>,
    reported: nat,
    completions: seq<Completion>,
    completionsClosed: bool,
    inFlight: int,
    dropped: seq<int>      // history: heights whose waiting dispatch was abandoned
  )

  /** The ordered apply: cursor, reorder buffer and recorded holes. */
  datatype Apply = Apply(
    cursor: int,
    reorder: map<int, Completion>,
    holes: set<int>,
    consumed: seq<Completion>,  // history: completions the cursor passed
    skipped: set<int>,          // history: holes the cursor passed
    callbacks: seq<int>         // history: heights reported to the caller
  )

  /** The rollback-loop guards; `executed` (history) lists restart heights since the last commit. */
  datatype Guards = Guards(rollbacks: nat, perHeight: map<int, nat>, executed: seq<int>)

  /** Where the collector goroutine stands. */
  datatype Pc =
    | Top                                            // about to pop
    | Guard                                          // about to abandon a waiting dispatch if the run is leaving
    | Select                                         // waiting on its channels
    | Resolving(item: Item)                          // confirmation-wait rules for one popped item
    | Draining(confirmed: Option<Item>, settled: bool, rest: seq<Completion>)
    | WalkingBack(confirmed: Option<Item>, rest: seq<Completion>)
    | Exited

  /** The check cursor: the next height to pop and the hash the next item must chain from. */
  datatype Check = Check(
    next: int,
    lastNum: int,
    lastHash: Hash,
    handed: map<int, Item>  // history: items that passed the check and were registered for the pool
  )

  /** Commit bookkeeping: recent committed hashes and the guards. */
  datatype Book = Book(committed: map<int, Hash>, guards: Guards)

  /** Control state shared by the collector and the outer loop. */
  datatype Control = Control(
    episode: Option<Episode>,
    point: Option<RollbackPoint>,
    fatal: bool,
    cancelled: bool,
    sawResultsClosed: bool,
    sawCompletionsClosed: bool,
    pc: Pc
  )

  datatype Run = Run(start: int, seed: Hash, feed: Feed, check: Check, pool: Pool, apply: Apply, book: Book, ctl: Control)

  datatype Phase = Running | RollingBack(from: int, height: int, point: RollbackPoint) | Stopped

  datatype System = System(visible: set<Block>, configuredStart: int, phase: Phase, run: Run)

  // ---------------------------------------------------------------- checks

  /** The parent-hash rules on fetched hashes: at the run seam against the seed, afterwards against the previous pop. */
  predicate ContinuityBreak(runStart: int, seed: Hash, lastNum: int, lastHash: Hash, next: Item) {
    || (next.num == runStart && seed != NoHash && next.parent != NoHash && next.parent != seed)
    || (lastNum == next.num - 1 && lastHash != NoHash && next.parent != NoHash && next.parent != lastHash)
  }

  /** The gap fallback: after an unusable pop the stored hash one below is compared instead. */
  predicate GapBreak(r: Run, visible: set<Block>, queryFails: bool, next: Item) {
    && next.parent != NoHash
    && next.num != r.start
    && r.check.lastNum == next.num - 1
    && r.check.lastHash == NoHash
    && !queryFails
    && var stored := StoredHash(visible, next.num - 1);
       stored.Answer? && stored.hash != NoHash && stored.hash != next.parent
  }

  function StartEpisode(parked: Item): Episode {
    Episode(false, parked.num, parked.parent, parked.hash, 0, 0, 0, NoHash, 0)
  }

  /** One popped item through the ordered check: a hole, an opened episode, or a registered dispatch. */
  function CheckForDispatch(r: Run, visible: set<Block>, queryFails: bool, item: Item): Run {
    if !item.ok then
      r.(check := r.check.(lastNum := item.num, lastHash := NoHash),
         apply := r.apply.(holes := r.apply.holes + {item.num}))
    else if ContinuityBreak(r.start, r.seed, r.check.lastNum, r.check.lastHash, item) || GapBreak(r, visible, queryFails, item) then
      r.(ctl := r.ctl.(episode := Some(StartEpisode(item))))
    else
      r.(check := r.check.(lastNum := item.num, lastHash := item.hash, handed := r.check.handed[item.num := item]),
         pool := Register(r.pool, item))
  }

  /** The in-flight registration is taken before the item can reach a worker. */
  function Register(p: Pool, item: Item): Pool {
    p.(holding := Some(item), inFlight := p.inFlight + 1)
  }

  function At(r: Run, pc: Pc): Run {
    r.(ctl := r.ctl.(pc := pc))
  }

  function Pop(r: Run): Run {
    r.(feed := r.feed.(pending := r.feed.pending - {r.check.next}), check := r.check.(next := r.check.next + 1))
  }

  /** The head of the collector loop: pop the next ordered result, if nothing waits for the pool. */
  function TopStep(r: Run, visible: set<Block>, queryFails: bool): Run {
    if r.pool.holding.Some? || r.check.next !in r.feed.pending then At(r, Guard)
    else
      var item := r.feed.pending[r.check.next];
      if r.ctl.point.Some? || r.ctl.cancelled then At(Pop(r), Guard)
      else if r.ctl.episode.Some? then
        var ep := r.ctl.episode.value;
        Pop(r).(ctl := r.ctl.(episode := Some(ep.(popped := ep.popped + 1)), pc := Resolving(item)))
      else At(CheckForDispatch(Pop(r), visible, queryFails, item), Guard)
  }

  function DropHolding(p: Pool): Pool {
    if p.holding.Some?
    then p.(holding := None, inFlight := p.inFlight - 1, dropped := p.dropped + [p.holding.value.num])
    else p
  }

  /** A waiting dispatch is abandoned once an episode, a rollback point or a cancellation is there. */
  function GuardStep(r: Run): Run {
    var leaving := r.ctl.episode.Some? || r.ctl.point.Some? || r.ctl.cancelled;
    At(if leaving then r.(pool := DropHolding(r.pool)) else r, Select)
  }

  // ---------------------------------------------------------------- ordered apply

  function SkipHole(a: Apply): Apply {
    a.(holes := a.holes - {a.cursor}, skipped := a.skipped + {a.cursor}, cursor := a.cursor + 1)
  }

  function Consume(a: Apply): Apply
    requires a.cursor in a.reorder
  {
    a.(reorder := a.reorder - {a.cursor}, consumed := a.consumed + [a.reorder[a.cursor]], cursor := a.cursor + 1)
  }

  /** Everything the cursor can reach: holes advance it silently, parked completions are consumed. */
  function CollectReady(a: Apply): Apply
    decreases |a.holes| + |a.reorder|
  {
    if a.cursor in a.holes then CollectReady(SkipHole(a))
    else if a.cursor in a.reorder then CollectReady(Consume(a))
    else a
  }

  /** A successful store becomes a commit: history trimmed to the frontier, guards reset. */
  function CommitBook(book: Book, next: int, item: Item): Book {
    var all := book.committed[item.num := item.hash];
    Book(map h | h in all && h >= next - 2 :: all[h], Guards(0, map[], []))
  }

  function Commit(r: Run, item: Item): Run {
    r.(book := CommitBook(r.book, r.check.next, item),
       apply := r.apply.(callbacks := r.apply.callbacks + [item.num]))
  }

  /** What a failed store does to the control state. */
  function ApplyFailure(ctl: Control, c: Completion): Control {
    if c.stale.None? || ctl.point.Some? || ctl.fatal then ctl
    else if ctl.episode.None? then
      ctl.(episode := Some(Episode(true, c.item.num, NoHash, NoHash, 0, 0, c.item.num, c.item.hash, 0)))
    else
      var ep := ctl.episode.value;
      if ep.stalePinned && c.item.num > ep.staleTop
      then ctl.(episode := Some(ep.(staleTop := c.item.num, staleTopHash := c.item.hash)))
      else ctl
  }

  function ApplyOne(r: Run, c: Completion, suppress: bool): Run {
    match c.result
    case Refused => r.(ctl := r.ctl.(fatal := true, cancelled := true))
    case Stored => if suppress then r else Commit(r, c.item)
    case Failed => r.(ctl := ApplyFailure(r.ctl, c))
  }

  predicate Ended(r: Run) {
    r.ctl.point.Some? || r.ctl.fatal
  }

  /** The collector stops selecting and waits for the pool; a waiting dispatch is dropped first. */
  function EnterDrain(r: Run, confirmed: Option<Item>, rest: seq<Completion>): Run {
    At(r.(pool := DropHolding(r.pool)), Draining(confirmed, false, rest))
  }

  /** The ordered batch; a stale report without an open episode opens one and leaves the rest for later. */
  function ApplyBatch(r: Run, batch: seq<Completion>, suppress: bool): Run
    decreases |batch|
  {
    if batch == [] then r
    else
      var r1 := ApplyOne(r, batch[0], suppress || Ended(r));
      if r.ctl.episode.None? && r1.ctl.episode.Some? then EnterDrain(r1, None, batch[1..])
      else ApplyBatch(r1, batch[1..], suppress)
  }

  function Park(a: Apply, c: Completion): Apply {
    CollectReady(a.(reorder := a.reorder[c.item.num := c]))
  }

  /** The completions a cursor pass has consumed. */
  function Batch(before: Apply, after: Apply): seq<Completion> {
    if |before.consumed| <= |after.consumed| then after.consumed[|before.consumed|..] else []
  }

  function ApplyCompletion(r: Run, c: Completion, suppress: bool): Run {
    var after := Park(r.apply, c);
    ApplyBatch(r.(apply := after), Batch(r.apply, after), suppress)
  }

  // ---------------------------------------------------------------- confirmation wait

  predicate Usable(item: Item) {
    item.ok && item.hash != NoHash && item.parent != NoHash
  }

  /** A failed wait or walk-back: the run ends with an error. */
  function FailWait(ctl: Control): Control {
    ctl.(episode := None, fatal := true, cancelled := true)
  }

  function Reanchor(ctl: Control, ep: Episode, item: Item): Control {
    if ep.rewalks >= MAX_REWALKS then FailWait(ctl)
    else ctl.(episode := Some(ep.(rewalks := ep.rewalks + 1, baseHeight := item.num, baseParent := item.parent,
                                  lastParked := item.hash)))
  }

  /** An unusable item is fetched again at the same height, a bounded number of times per wait. */
  function Refill(ctl: Control, ep: Episode, refetched: Item, interrupted: bool): Control {
    if ep.gapRefills >= MAX_GAP_REFILLS then FailWait(ctl).(pc := Guard)
    else
      var counted := ctl.(episode := Some(ep.(gapRefills := ep.gapRefills + 1)));
      if refetched.ok then counted.(pc := Resolving(refetched))
      else if interrupted then counted.(cancelled := true, pc := Guard)
      else FailWait(counted).(pc := Guard)
  }

  /**
   * One turn of the confirmation-wait rules; `refetched` is what a re-fetch of the
   * same height returns, `interrupted` a shutdown arriving during it.
   */
  function ResolveStep(r: Run, item: Item, refetched: Item, interrupted: bool): Run {
    if r.ctl.episode.None? || r.ctl.point.Some? || r.ctl.cancelled then At(r, Guard)
    else
      var ep := r.ctl.episode.value;
      if !Usable(item) then r.(ctl := Refill(r.ctl, ep, refetched, interrupted))
      else if item.parent == ep.lastParked then EnterDrain(r, Some(item), [])
      else r.(ctl := Reanchor(r.ctl, ep, item).(pc := Guard))
  }

  /** Where the walk-back of an episode starts. */
  function WalkStart(ep: Episode): (int, Hash) {
    if ep.stalePinned then (ep.staleTop, ep.staleTopHash) else (ep.baseHeight - 1, ep.baseParent)
  }

  /** The walk-back's own evidence, extended by the parked mismatch and its confirmed successor. */
  function FullEvidence(ep: Episode, confirmed: Option<Item>, fork: int, hashes: map<int, Hash>, answers: W.Answers): RollbackPoint {
    if ep.stalePinned || confirmed.None? then RollbackPoint(fork, hashes, WalkStart(ep).0, answers)
    else
      var item := confirmed.value;
      RollbackPoint(fork, hashes[ep.baseHeight := ep.lastParked][item.num := item.hash], item.num, answers)
  }

  /** After the drain: walk back and record the rollback point, or fail, or abandon on shutdown. */
  function Finalize(ctl: Control, ep: Episode, confirmed: Option<Item>, visible: set<Block>, configuredStart: int,
                    answers: W.Answers, interrupted: bool): Control {
    if ctl.cancelled then ctl.(episode := None)
    else
      match W.ResolveForkPoint(visible, configuredStart, answers, WalkStart(ep).0, WalkStart(ep).1)
      case Failed(_) => if interrupted then ctl.(episode := None, cancelled := true) else FailWait(ctl)
      case Found(fork, hashes) =>
        ctl.(episode := None, point := Some(FullEvidence(ep, confirmed, fork, hashes, answers)), cancelled := true)
  }

  /** The collector resumes where the episode interrupted it. */
  function Resume(r: Run, confirmed: Option<Item>, rest: seq<Completion>): Run {
    if confirmed.Some? then At(r, Guard) else ApplyBatch(At(r, Top), rest, false)
  }

  // ---------------------------------------------------------------- actions

  datatype Action =
    // dispatcher and fetch workers
    | Dispatch
    | Fetched(item: Item)
    | FetchDropped(num: int)
    | CloseResults
    | UserCancel
    // collector
    | CollectorTop(gapQueryFails: bool)
    | CollectorGuard
    | ReceiveResult
    | ReceiveCompletion
    | SendToPool
    | SeeCancellation
    | Resolve(refetched: Item, waitInterrupted: bool)
    | DrainReceive
    | DrainSettle
    | DrainFinish
    | FinishEpisode(answers: W.Answers, interrupted: bool)
    // store pool
    | PoolTake
    | PoolStore(index: nat, result: StoreResult, landed: bool, staleQueryFails: bool)
    | PoolReport(index: nat)
    | PoolDone
    | CloseCompletions
    // outer loop
    | RunEnds
    | RollbackHeight(fault: RollbackFault)
    | Restart(seedQueryFails: bool)

  datatype RollbackFault = NoFault | QueryFault | DeleteFault(blockGone: bool)

  predicate CollectorEnabled(r: Run, workers: nat, a: Action) {
    match a
    case CollectorTop(_) => r.ctl.pc.Top?
    case CollectorGuard => r.ctl.pc.Guard?
    case ReceiveResult => r.ctl.pc.Select? && (r.feed.results != [] || (r.feed.resultsClosed && !r.ctl.sawResultsClosed))
    case ReceiveCompletion =>
      r.ctl.pc.Select? && (r.pool.completions != [] || (r.pool.completionsClosed && !r.ctl.sawCompletionsClosed))
    case SendToPool => r.ctl.pc.Select? && r.pool.holding.Some? && |r.pool.queue| < workers * WORKERS_AHEAD
    case SeeCancellation => r.ctl.pc.Select? && r.ctl.cancelled && !r.pool.queueClosed
    case Resolve(refetched, _) => r.ctl.pc.Resolving? && refetched.num == r.ctl.pc.item.num
    case DrainReceive => r.ctl.pc.Draining? && r.pool.completions != []
    case DrainSettle => r.ctl.pc.Draining? && !r.ctl.pc.settled && r.pool.inFlight == 0
    case DrainFinish => r.ctl.pc.Draining? && r.ctl.pc.settled && r.pool.completions == []
    case FinishEpisode(_, _) => r.ctl.pc.WalkingBack? && r.ctl.episode.Some?
    case _ => false
  }

  predicate PoolEnabled(r: Run, workers: nat, a: Action) {
    match a
    case PoolTake => r.pool.queue != [] && |r.pool.busy| + |r.pool.finished| + r.pool.reported < workers
    case PoolStore(i, _, _, _) => i < |r.pool.busy|
    case PoolReport(i) => i < |r.pool.finished| && |r.pool.completions| < workers * (WORKERS_AHEAD + 1)
    case PoolDone => r.pool.reported > 0
    case CloseCompletions =>
      && r.feed.resultsClosed && r.pool.queueClosed && !r.pool.completionsClosed
      && r.pool.queue == [] && r.pool.busy == [] && r.pool.finished == [] && r.pool.reported == 0
    case _ => false
  }

  predicate FeedEnabled(r: Run, workers: nat, a: Action) {
    match a
    case Dispatch => !r.feed.resultsClosed && r.feed.dispatchedUpTo + 1 - r.check.next < workers * WORKERS_AHEAD
    case Fetched(item) => item.num in r.feed.fetching && |r.feed.results| < workers * WORKERS_AHEAD
    case FetchDropped(n) => r.ctl.cancelled && n in r.feed.fetching
    case CloseResults => r.ctl.cancelled && r.feed.fetching == {} && !r.feed.resultsClosed
    case UserCancel => true
    case _ => false
  }

  predicate OuterEnabled(s: System, a: Action) {
    match a
    case RunEnds => s.phase.Running? && s.run.ctl.pc.Exited?
    case RollbackHeight(_) => s.phase.RollingBack? && s.phase.height >= s.phase.from
    case Restart(_) => s.phase.RollingBack? && s.phase.height < s.phase.from
    case _ => false
  }

  predicate Enabled(s: System, workers: nat, a: Action) {
    || (s.phase.Running? && (|| CollectorEnabled(s.run, workers, a)
                             || PoolEnabled(s.run, workers, a)
                             || FeedEnabled(s.run, workers, a)))
    || OuterEnabled(s, a)
  }

  function FeedStep(r: Run, a: Action): Run {
    match a
    case Dispatch =>
      var n := r.feed.dispatchedUpTo + 1;
      r.(feed := r.feed.(dispatchedUpTo := n, fetching := r.feed.fetching + {n}))
    case Fetched(item) =>
      r.(feed := r.feed.(fetching := r.feed.fetching - {item.num}, results := r.feed.results + [item]))
    case FetchDropped(n) => r.(feed := r.feed.(fetching := r.feed.fetching - {n}))
    case CloseResults => r.(feed := r.feed.(resultsClosed := true))
    case UserCancel => r.(ctl := r.ctl.(cancelled := true))
    case _ => r
  }

  function Remove<T>(s: seq<T>, i: nat): seq<T>
    requires i < |s|
  {
    s[..i] + s[i + 1..]
  }

  /** The failure handler of the pool: a usable stored hash at the failed height that disagrees with the item. */
  function StaleCheck(item: Item, result: StoreResult, visible: set<Block>, queryFails: bool): Option<Hash> {
    if !result.Failed? || item.hash == NoHash || queryFails then None
    else
      match StoredHash(visible, item.num)
      case QueryError => None
      case Answer(stored) => if stored == NoHash || stored == item.hash then None else Some(stored)
  }

  /** The store itself: a success leaves the block visible, a failure may or may not have landed it. */
  function Land(visible: set<Block>, item: Item, result: StoreResult, landed: bool): set<Block> {
    if result.Stored? || landed then visible + {BlockOf(item)} else visible
  }

  function TakeTask(p: Pool): Pool
    requires p.queue != []
  {
    p.(queue := p.queue[1..], busy := p.busy + [p.queue[0]])
  }

  function FinishTask(p: Pool, i: nat, c: Completion): Pool
    requires i < |p.busy|
  {
    p.(busy := Remove(p.busy, i), finished := p.finished + [c])
  }

  function ReportTask(p: Pool, i: nat): Pool
    requires i < |p.finished|
  {
    p.(finished := Remove(p.finished, i), completions := p.completions + [p.finished[i]], reported := p.reported + 1)
  }

  /** What a worker reports for one item. */
  function Outcome(item: Item, visible: set<Block>, result: StoreResult, landed: bool, queryFails: bool): Completion {
    Completion(item, result, StaleCheck(item, result, Land(visible, item, result, landed), queryFails))
  }

  function PoolStep(p: Pool, visible: set<Block>, a: Action): Pool
    requires a.PoolTake? ==> p.queue != []
    requires a.PoolStore? ==> a.index < |p.busy|
    requires a.PoolReport? ==> a.index < |p.finished|
    requires a.PoolDone? ==> p.reported > 0
  {
    match a
    case PoolTake => TakeTask(p)
    case PoolStore(i, result, landed, queryFails) => FinishTask(p, i, Outcome(p.busy[i], visible, result, landed, queryFails))
    case PoolReport(i) => ReportTask(p, i)
    case PoolDone => p.(reported := p.reported - 1, inFlight := p.inFlight - 1)
    case CloseCompletions => p.(completionsClosed := true)
    case _ => p
  }

  function LeaveIfClosed(ctl: Control): Control {
    if ctl.sawResultsClosed && ctl.sawCompletionsClosed then ctl.(pc := Exited) else ctl.(pc := Top)
  }

  function SendStep(r: Run): Run
    requires r.pool.holding.Some?
  {
    At(r.(pool := r.pool.(holding := None, queue := r.pool.queue + [r.pool.holding.value])), Top)
  }

  function SeeCancellationStep(r: Run): Run {
    At(r.(pool := DropHolding(r.pool).(queueClosed := true)), Top)
  }

  function ReceiveResultStep(r: Run): Run {
    if r.feed.results == [] then r.(ctl := LeaveIfClosed(r.ctl.(sawResultsClosed := true)))
    else
      var item := r.feed.results[0];
      At(r.(feed := r.feed.(results := r.feed.results[1..], pending := r.feed.pending[item.num := item])), Top)
  }

  /** Take the oldest completion off the channel. */
  function TakeCompletion(r: Run): Run
    requires r.pool.completions != []
  {
    r.(pool := r.pool.(completions := r.pool.completions[1..]))
  }

  function ReceiveCompletionStep(r: Run): Run {
    if r.pool.completions == [] then r.(ctl := LeaveIfClosed(r.ctl.(sawCompletionsClosed := true)))
    else ApplyCompletion(At(TakeCompletion(r), Top), r.pool.completions[0], false)
  }

  function DrainReceiveStep(r: Run): Run
    requires r.ctl.pc.Draining? && r.pool.completions != []
  {
    ApplyCompletion(TakeCompletion(r), r.pool.completions[0], r.ctl.pc.confirmed.None?)
  }

  function FinishEpisodeStep(r: Run, visible: set<Block>, configuredStart: int, answers: W.Answers, interrupted: bool): Run
    requires r.ctl.pc.WalkingBack? && r.ctl.episode.Some?
  {
    var pc := r.ctl.pc;
    var ctl := Finalize(r.ctl, r.ctl.episode.value, pc.confirmed, visible, configuredStart, answers, interrupted);
    Resume(r.(ctl := ctl), pc.confirmed, pc.rest)
  }

  function CollectorStep(r: Run, workers: nat, visible: set<Block>, configuredStart: int, a: Action): Run
    requires CollectorEnabled(r, workers, a)
  {
    match a
    case CollectorTop(queryFails) => TopStep(r, visible, queryFails)
    case CollectorGuard => GuardStep(r)
    case ReceiveResult => ReceiveResultStep(r)
    case ReceiveCompletion => ReceiveCompletionStep(r)
    case SendToPool => SendStep(r)
    case SeeCancellation => SeeCancellationStep(r)
    case Resolve(refetched, interrupted) => ResolveStep(r, r.ctl.pc.item, refetched, interrupted)
    case DrainReceive => DrainReceiveStep(r)
    case DrainSettle => At(r, r.ctl.pc.(settled := true))
    case DrainFinish => At(r, WalkingBack(r.ctl.pc.confirmed, r.ctl.pc.rest))
    case FinishEpisode(answers, interrupted) => FinishEpisodeStep(r, visible, configuredStart, answers, interrupted)
  }

  // ---------------------------------------------------------------- outer loop

  function NewRun(start: int, seed: Hash, guards: Guards): Run {
    Run(start, seed,
        Feed(start - 1, {}, [], false, map[]),
        Check(start, start - 1, seed, map[]),
        Pool(None, [], false, [], [], 0, [], false, 0, []),
        Apply(start, map[], {}, [], {}, []),
        Book(map[], guards),
        Control(None, None, false, false, false, false, Top))
  }

  /** One more rollback restarting at this height. */
  function CountRollback(g: Guards, restart: int): Guards {
    var atHeight := if restart in g.perHeight then g.perHeight[restart] else 0;
    g.(rollbacks := g.rollbacks + 1, perHeight := g.perHeight[restart := atHeight + 1])
  }

  predicate GuardTrips(g: Guards, restart: int) {
    g.rollbacks > MAX_ROLLBACKS_PER_RUN || (restart in g.perHeight && g.perHeight[restart] > MAX_ROLLBACKS_PER_HEIGHT)
  }

  /** The run is over: stop, or count the rollback against both guards and start it. */
  function RunEndsStep(s: System): System {
    var r := s.run;
    if r.ctl.fatal || r.ctl.point.None? then s.(phase := Stopped)
    else
      var point := r.ctl.point.value;
      var counted := CountRollback(r.book.guards, point.fork + 1);
      if GuardTrips(counted, point.fork + 1)
      then s.(phase := Stopped, run := r.(book := r.book.(guards := counted)))
      else s.(phase := RollingBack(point.fork + 1, r.feed.dispatchedUpTo, point),
              run := r.(book := r.book.(guards := counted.(executed := counted.executed + [point.fork + 1]))))
  }

  /** One height of the rollback: only a verified, non-empty disagreement is deleted. */
  function RollbackHeightStep(s: System, fault: RollbackFault): System
    requires s.phase.RollingBack?
  {
    var h := s.phase.height;
    var below := s.(phase := s.phase.(height := h - 1));
    if h !in s.phase.point.hashes || s.phase.point.hashes[h] == NoHash then below
    else if fault.QueryFault? then s.(phase := Stopped)
    else
      match StoredHash(s.visible, h)
      case QueryError => s.(phase := Stopped)
      case Answer(stored) =>
        if stored == NoHash || stored == s.phase.point.hashes[h] then below
        else
          var rest := s.visible - BlocksAt(s.visible, h);
          match fault
          case DeleteFault(gone) => s.(phase := Stopped, visible := if gone then rest else s.visible)
          case _ => below.(visible := rest)
  }

  /** The expected parent of the run's first block: committed history first, then the store. */
  function ResolveSeed(start: int, committed: map<int, Hash>, visible: set<Block>, queryFails: bool): Query {
    if start <= 0 then Answer(NoHash)
    else if start - 1 in committed && committed[start - 1] != NoHash then Answer(committed[start - 1])
    else if queryFails then QueryError
    else StoredHash(visible, start - 1)
  }

  function RestartStep(s: System, queryFails: bool): System
    requires s.phase.RollingBack?
  {
    match ResolveSeed(s.phase.from, s.run.book.committed, s.visible, queryFails)
    case QueryError => s.(phase := Stopped)
    case Answer(seed) => s.(phase := Running, run := NewRun(s.phase.from, seed, s.run.book.guards))
  }

  function Step(s: System, workers: nat, a: Action): System
    requires Enabled(s, workers, a)
  {
    if OuterEnabled(s, a) then
      match a
      case RunEnds => RunEndsStep(s)
      case RollbackHeight(fault) => RollbackHeightStep(s, fault)
      case Restart(queryFails) => RestartStep(s, queryFails)
    else if CollectorEnabled(s.run, workers, a) then
      s.(run := CollectorStep(s.run, workers, s.visible, s.configuredStart, a))
    else if PoolEnabled(s.run, workers, a) then
      s.(run := s.run.(pool := PoolStep(s.run.pool, s.visible, a)),
         visible := if a.PoolStore? then Land(s.visible, s.run.pool.busy[a.index], a.result, a.landed) else s.visible)
    else s.(run := FeedStep(s.run, a))
  }

  /** A processor that has just resolved its first seed. */
  ghost predicate Initial(s: System) {
    && s.phase.Running?
    && 0 <= s.configuredStart == s.run.start
    && exists seed :: s.run == NewRun(s.run.start, seed, Guards(0, map[], []))
                      && exists fails :: ResolveSeed(s.run.start, map[], s.visible, fails) == Answer(seed)
  }

  /** Every result the fetch workers deliver is what a worker can build: a failed one carries no hashes. */
  predicate WellFormed(a: Action) {
    match a
    case Fetched(item) => !item.ok ==> item.hash == NoHash && item.parent == NoHash
    case Resolve(item, _) => !item.ok ==> item.hash == NoHash && item.parent == NoHash
    case _ => true
  }

  /** A run: states joined by enabled actions. */
  ghost predicate IsRun(workers: nat, states: seq<System>, actions: seq<Action>) {
    && |states| == |actions| + 1
    && Initial(states[0])
    && forall i :: 0 <= i < |actions| ==>
         WellFormed(actions[i]) && Enabled(states[i], workers, actions[i]) && states[i + 1] == Step(states[i], workers, actions[i])
  }
}
