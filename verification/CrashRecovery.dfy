/**
 * Crash recovery: what a stopped rollback looks like to the next process, where
 * that process starts, and why it finds the same fork point again.
 */
module CrashRecovery {
  import opened Chain
  import opened Processor
  import opened StorePool
  import opened OrderedApply
  import opened Continuity
  import opened Safety
  import R = Rollback

  // ---------------------------------------------------------------- documents as blocks

  function AsBlock(d: R.Doc): Block {
    Block(d.num, d.hash, d.parent)
  }

  /** The visible block documents as the processor sees them. */
  function BlockView(l: R.Layout, docs: set<R.Doc>): set<Block> {
    set d | d in docs && d.col == l.blockCol :: AsBlock(d)
  }

  /** Content addressing: a block has one document. */
  ghost predicate ContentAddressed(l: R.Layout, docs: set<R.Doc>) {
    forall d, e :: d in docs && e in docs && d.col == l.blockCol && e.col == l.blockCol && AsBlock(d) == AsBlock(e) ==> d == e
  }

  /** Both levels give the same answer to the stored-hash query. */
  lemma QueriesAgree(l: R.Layout, docs: set<R.Doc>, h: int)
    requires ContentAddressed(l, docs)
    ensures R.DocHash(l, docs, h) == StoredHash(BlockView(l, docs), h)
  {
    var rows, blocks := R.Rows(l, docs, h), BlocksAt(BlockView(l, docs), h);
    assert blocks == set d | d in rows :: AsBlock(d);
    if d :| d in rows {
      assert AsBlock(d) in blocks;
    }
    if d :| d in rows && rows == {d} {
      assert blocks == {AsBlock(d)};
    }
    if b :| b in blocks && blocks == {b} {
      var d :| d in rows && AsBlock(d) == b;
      forall e | e in rows ensures e == d {
        assert AsBlock(e) in blocks;
      }
      assert rows == {d};
    }
  }

  lemma DeletingAHeight(l: R.Layout, docs: set<R.Doc>, h: int)
    requires R.ValidLayout(l)
    ensures BlockView(l, docs - R.HeightDocs(l, docs, h)) == BlockView(l, docs) - BlocksAt(BlockView(l, docs), h)
  {
    var after := docs - R.HeightDocs(l, docs, h);
    forall b | b in BlockView(l, docs) && b.num != h ensures b in BlockView(l, after) {
      var d :| d in docs && d.col == l.blockCol && AsBlock(d) == b;
      assert d in after;
    }
    forall b | b in BlockView(l, after) ensures b.num != h && b in BlockView(l, docs) {
      var d :| d in after && d.col == l.blockCol && AsBlock(d) == b;
      assert d in docs;
    }
  }

  // ---------------------------------------------------------------- the roller refines the processor's rollback

  /** The processor's rollback without faults, down to height j. */
  function RollTo(s: System, j: int): System
    decreases if s.phase.RollingBack? then s.phase.height - j else 0
  {
    if s.phase.RollingBack? && s.phase.height >= s.phase.from && s.phase.height > j then RollTo(RollbackHeightStep(s, NoFault), j) else s
  }

  /** After one height, the rest of the doomed documents is what a rollback from one below must delete. */
  lemma DoomedBelow(l: R.Layout, docs: set<R.Doc>, from: int, h: int, hashes: map<int, Hash>)
    requires R.ValidLayout(l) && from <= h
    ensures var here := if R.IsOrphan(l, docs, hashes, h) then R.HeightDocs(l, docs, h) else {};
            docs - R.Doomed(l, docs, from, h, hashes)
              == (docs - here) - R.Doomed(l, docs - here, from, h - 1, hashes)
  {
    var here := if R.IsOrphan(l, docs, hashes, h) then R.HeightDocs(l, docs, h) else {};
    var after := docs - here;
    forall n | n != h ensures R.IsOrphan(l, after, hashes, n) == R.IsOrphan(l, docs, hashes, n) {
      assert R.Rows(l, after, n) == R.Rows(l, docs, n);
      R.SameHeightSameOrphan(l, after, docs, hashes, n);
    }
  }

  /** A finished rollback of the processor is the block view of a finished rollback of the documents. */
  lemma {:induction false} RollerRefinesProcessor(l: R.Layout, docs: set<R.Doc>, s: System)
    requires R.ValidLayout(l) && ContentAddressed(l, docs) && s.phase.RollingBack? && s.visible == BlockView(l, docs)
    ensures var done := RollTo(s, s.phase.from - 1);
            done.phase.RollingBack? ==>
              done.visible == BlockView(l, docs - R.Doomed(l, docs, s.phase.from, s.phase.height, s.phase.point.hashes))
    decreases s.phase.height - s.phase.from + 1
  {
    var h, from, hashes := s.phase.height, s.phase.from, s.phase.point.hashes;
    if h >= from {
      var q := RollbackHeightStep(s, NoFault);
      var here := if R.IsOrphan(l, docs, hashes, h) then R.HeightDocs(l, docs, h) else {};
      QueriesAgree(l, docs, h);
      DeletingAHeight(l, docs, h);
      DoomedBelow(l, docs, from, h, hashes);
      assert here == {} ==> docs - here == docs;
      if q.phase.RollingBack? {
        RollerRefinesProcessor(l, docs - here, q);
      }
    } else {
      assert R.Doomed(l, docs, from, h, hashes) == {};
      assert docs - {} == docs;
    }
  }

  // ---------------------------------------------------------------- what a crash leaves

  ghost predicate NoneAbove(visible: set<Block>, n: int) {
    forall b :: b in visible ==> b.num <= n
  }

  /** Stopped anywhere, a rollback over proven orphans leaves the old store cut off at some height. */
  lemma CrashCutsOff(l: R.Layout, before: set<R.Doc>, now: set<R.Doc>, to: int, point: RollbackPoint)
    requires R.ValidLayout(l) && ContentAddressed(l, before) && Orphans(BlockView(l, before), point)
    requires UniqueHeights(BlockView(l, before)) && NamedBlocks(BlockView(l, before))
    requires NoneAbove(BlockView(l, before), to)
    requires R.CrashPoint(l, before, now, point.fork + 1, to, point.hashes)
    ensures exists j :: point.fork <= j && BlockView(l, now) == UpTo(BlockView(l, before), j)
  {
    var k :| R.CrashAt(l, before, now, point.fork + 1, to, point.hashes, k);
    var blocks := BlockView(l, before);
    var gone := exists d :: d in R.Rows(l, before, k) && d !in now;
    var cut := if gone then k - 1 else k;
    var j := if cut < point.fork then point.fork else cut;
    forall b | b in blocks ensures b in BlockView(l, now) <==> b.num <= j {
      var d :| d in before && d.col == l.blockCol && AsBlock(d) == b;
      OrphanDocIsDoomed(l, before, to, point, d);
      SurvivorIff(l, before, now, point.fork + 1, to, point.hashes, k, d);
    }
    assert BlockView(l, now) <= blocks;
    assert BlockView(l, now) == UpTo(blocks, j);
  }

  lemma {:induction false} RollToCuts(s: System, j: int)
    requires SafeInv(s) && s.phase.RollingBack? && j >= s.phase.from - 1
    ensures RollTo(s, j).phase.RollingBack? && RollTo(s, j).visible == UpTo(s.visible, j)
    decreases s.phase.height - j
  {
    if s.phase.height >= s.phase.from && s.phase.height > j {
      var q := RollbackHeightStep(s, NoFault);
      RollbackHeightSafe(s, NoFault);
      StoredHashOfUnique(s.visible, s.phase.height);
      assert UpTo(s.visible - BlocksAt(s.visible, s.phase.height), j) == UpTo(s.visible, j);
      RollToCuts(q, j);
    } else {
      assert s.visible == UpTo(s.visible, j);
    }
  }

  /** Every stop of the document rollback, also in the middle of a height, shows the blocks of some state of the processor's rollback. */
  lemma CrashRefinesProcessor(l: R.Layout, before: set<R.Doc>, now: set<R.Doc>, s: System)
    requires R.ValidLayout(l) && ContentAddressed(l, before)
    requires SafeInv(s) && s.phase.RollingBack? && s.phase.height >= s.phase.from - 1 && s.visible == BlockView(l, before)
    requires R.CrashPoint(l, before, now, s.phase.from, s.phase.height, s.phase.point.hashes)
    ensures exists j :: RollTo(s, j).phase.RollingBack? && RollTo(s, j).visible == BlockView(l, now)
  {
    CrashCutsOff(l, before, now, s.phase.height, s.phase.point);
    var j :| s.phase.point.fork <= j && BlockView(l, now) == UpTo(s.visible, j);
    RollToCuts(s, j);
  }

  /** Above the fork point every block document is doomed, at or below it none is. */
  lemma OrphanDocIsDoomed(l: R.Layout, before: set<R.Doc>, to: int, point: RollbackPoint, d: R.Doc)
    requires R.ValidLayout(l) && ContentAddressed(l, before) && Orphans(BlockView(l, before), point)
    requires UniqueHeights(BlockView(l, before)) && NamedBlocks(BlockView(l, before))
    requires NoneAbove(BlockView(l, before), to)
    requires d in before && d.col == l.blockCol
    ensures d in R.Doomed(l, before, point.fork + 1, to, point.hashes) <==> d.num > point.fork
  {
    assert AsBlock(d) in BlockView(l, before);
    QueriesAgree(l, before, d.num);
    StoredHashOfUnique(BlockView(l, before), d.num);
  }

  /** Which block documents a crash at k has spared. */
  lemma SurvivorIff(l: R.Layout, before: set<R.Doc>, now: set<R.Doc>, from: int, to: int, hashes: map<int, Hash>, k: int, d: R.Doc)
    requires R.CrashAt(l, before, now, from, to, hashes, k) && ContentAddressed(l, before)
    requires UniqueHeights(BlockView(l, before))
    requires d in before && d.col == l.blockCol
    requires d in R.Doomed(l, before, from, to, hashes) <==> d.num >= from
    ensures AsBlock(d) in BlockView(l, now) <==>
              d.num < from || d.num < k || (d.num == k && !exists e :: e in R.Rows(l, before, k) && e !in now)
  {
    assert AsBlock(d) in BlockView(l, now) <==> d in now by {
      if AsBlock(d) in BlockView(l, now) {
        var e :| e in now && e.col == l.blockCol && AsBlock(e) == AsBlock(d);
        assert e in before;
      }
    }
    if d.num == k {
      assert d in R.Rows(l, before, k);
      forall e | e in R.Rows(l, before, k) ensures e == d {
        assert AsBlock(e) in BlockView(l, before) && AsBlock(d) in BlockView(l, before);
      }
    }
  }

  // ---------------------------------------------------------------- where the next process starts

  /** The indexer settings a start may rewrite. */
  class IndexerConfig {
    var startHeight: int
    const startBuffer: nat

    constructor (startHeight: int, startBuffer: nat)
      ensures this.startHeight == startHeight && this.startBuffer == startBuffer
    {
      this.startHeight := startHeight;
      this.startBuffer := startBuffer;
    }

    /** Resume above the store, skip ahead when the tip is far, or fall back to the configured height. */
    method ResolveStartHeight(highestStored: Option<int>, tip: Option<int>) returns (start: Option<int>)
      modifies this
      ensures tip.None? ==> start == None && startHeight == old(startHeight)
      ensures tip.Some? ==>
                start == Some(startHeight) && startHeight == StartHeight(old(startHeight), highestStored, tip.value, startBuffer)
      ensures tip.Some? && highestStored.Some? && highestStored.value > 0 ==>
                startHeight == Max(highestStored.value + 1, tip.value - startBuffer)
      ensures tip.Some? && (highestStored.None? || highestStored.value <= 0) ==>
                startHeight == if old(startHeight) > 0 then old(startHeight) else Max(tip.value - startBuffer, 0)
    {
      var highestExisting := 0;
      if highestStored.Some? {
        highestExisting := highestStored.value;
      }
      if tip.None? {
        return None;
      }
      if highestExisting > 0 {
        var resumeFrom := highestExisting + 1;
        if tip.value - highestExisting > startBuffer {
          resumeFrom := tip.value - startBuffer;
        }
        startHeight := resumeFrom;
      } else if startHeight <= 0 {
        startHeight := if tip.value - startBuffer > 0 then tip.value - startBuffer else 0;
      }
      return Some(startHeight);
    }
  }

  function Max(a: int, b: int): int {
    if a < b then b else a
  }

  function StartHeight(configured: int, highestStored: Option<int>, tip: int, buffer: nat): int {
    if highestStored.Some? && highestStored.value > 0 then
      if tip - highestStored.value > buffer then tip - buffer else highestStored.value + 1
    else if configured > 0 then configured
    else if tip - buffer > 0 then tip - buffer
    else 0
  }

  /** The answer of the highest-block query: the top of a non-empty store; a failed query looks like an empty store. */
  ghost predicate HighestAnswer(visible: set<Block>, answer: Option<int>, failed: bool) {
    match answer
    case None => visible == {} || failed
    case Some(top) => !failed && (exists b :: b in visible && b.num == top) && forall b :: b in visible ==> b.num <= top
  }

  /**
   * A process starts above everything stored, which is what a safe run needs, unless
   * the store is not empty and either the query failed or only height 0 is stored;
   * then it depends on the fallback height alone.
   */
  lemma StartsAboveStoreIff(visible: set<Block>, answer: Option<int>, failed: bool, configured: int, tip: int, buffer: nat)
    requires NamedBlocks(visible) && HighestAnswer(visible, answer, failed)
    ensures EmptyFrom(visible, StartHeight(configured, answer, tip, buffer)) <==>
              || visible == {}
              || (answer.Some? && answer.value > 0)
              || EmptyFrom(visible, StartHeight(configured, None, tip, buffer))
  {
  }

  // ---------------------------------------------------------------- the resumed walk-back

  ghost predicate HasBlock(visible: set<Block>, n: int) {
    exists b :: b in visible && b.num == n
  }

  /** Between the fork point and any stored block no height is empty. */
  ghost predicate HoleFree(visible: set<Block>, fork: int) {
    forall b, n :: b in visible && fork < n < b.num ==> HasBlock(visible, n)
  }

  /** The tip is within the start buffer of every stored block. */
  ghost predicate NearTip(visible: set<Block>, tip: int, buffer: nat) {
    forall b :: b in visible ==> tip - b.num <= buffer
  }

  /** The node serves this chain, by height and by header. */
  ghost predicate OnChain(answers: W.Answers, chainAt: int -> Hash, start: int, fork: int) {
    forall n :: fork <= n <= start ==> chainAt(n) != NoHash && W.ChainHash(answers, start, chainAt(start), n) == chainAt(n)
  }

  /** Cutting the store off at j changes no answer at or below j. */
  lemma CutKeepsAnswers(visible: set<Block>, j: int, n: int)
    requires n <= j
    ensures StoredHash(UpTo(visible, j), n) == StoredHash(visible, n)
  {
    assert BlocksAt(UpTo(visible, j), n) == BlocksAt(visible, n);
  }

  /** The chain below a height is the same from wherever above it is followed. */
  lemma {:induction false} ChainHashRestart(answers: W.Answers, start: int, hash: Hash, j: int, n: int)
    requires n <= j <= start
    ensures W.ChainHash(answers, j, W.ChainHash(answers, start, hash, j), n) == W.ChainHash(answers, start, hash, n)
    decreases j - n
  {
    if n < j {
      ChainHashRestart(answers, start, hash, j, n + 1);
    }
  }

  /**
   * The next process resumes with its lower bound at its own start, so every empty
   * height below counts as the end of the store. It finds the old fork point if and
   * only if the surviving range has no hole.
   */
  lemma SameForkIffNoHole(before: set<Block>, configuredStart: int, answers: W.Answers, start: int, hash: Hash, fork: int, j: int)
    requires UniqueHeights(before) && NamedBlocks(before)
    requires W.IsForkPoint(before, configuredStart, answers, start, hash, fork) && fork < j <= start && HasBlock(before, j)
    ensures W.IsForkPoint(UpTo(before, j), j + 1, answers, j, W.ChainHash(answers, start, hash, j), fork) <==>
              forall n :: fork < n < j ==> HasBlock(before, n)
  {
    var now, top := UpTo(before, j), W.ChainHash(answers, start, hash, j);
    forall n | fork <= n <= j ensures W.ChainHash(answers, j, top, n) == W.ChainHash(answers, start, hash, n) {
      ChainHashRestart(answers, start, hash, j, n);
    }
    forall n | fork < n <= j
      ensures W.StopsAt(now, j + 1, answers, n, W.ChainHash(answers, j, top, n)) <==> !HasBlock(before, n)
      ensures W.MayDescend(now, answers, j, n, W.ChainHash(answers, j, top, n))
    {
      W.ForkPointLeaves(before, configuredStart, answers, start, hash, fork, n);
      CutKeepsAnswers(before, j, n);
      StoredHashOfUnique(before, n);
      assert HasBlock(before, n) <==> BlocksAt(before, n) != {} by {
        if b :| b in before && b.num == n {
          assert b in BlocksAt(before, n);
        }
      }
    }
    CutKeepsAnswers(before, j, fork);
    if W.IsForkPoint(now, j + 1, answers, j, top, fork) {
      forall n | fork < n < j ensures HasBlock(before, n) {
        W.ForkPointLeaves(now, j + 1, answers, j, top, fork, n);
      }
    } else if forall n :: fork < n < j ==> HasBlock(before, n) {
      assert W.StopsAt(now, j + 1, answers, fork, W.ChainHash(answers, j, top, fork));
      assert W.IsForkPoint(now, j + 1, answers, j, top, fork);
    }
  }

  /** A hole in the surviving range makes the resumed walk-back stop too high. */
  lemma HoleHidesFork()
    ensures exists before: set<Block>, answers: W.Answers ::
              && W.IsForkPoint(before, 1, answers, 4, Digest(4), 1)
              && HasBlock(before, 4) && !HasBlock(before, 3)
              && W.ResolveForkPoint(UpTo(before, 4), 5, answers, 4, Digest(4)).Found?
              && W.ResolveForkPoint(UpTo(before, 4), 5, answers, 4, Digest(4)).fork == 3
  {
    var b1, b2, b4 := Block(1, Digest(1), Digest(0)), Block(2, Digest(102), Digest(1)), Block(4, Digest(104), Digest(103));
    var before := {b1, b2, b4};
    var answers := W.Answers(true, (n: int, h: Hash) => if n >= 1 then Some(Digest(n - 1)) else None, (n: int) => false);
    assert BlocksAt(before, 1) == {b1};
    assert BlocksAt(before, 2) == {b2};
    assert BlocksAt(before, 3) == {};
    assert BlocksAt(before, 4) == {b4};
    assert W.ChainHash(answers, 4, Digest(4), 3) == Digest(3);
    assert W.ChainHash(answers, 4, Digest(4), 2) == Digest(2);
    assert W.ChainHash(answers, 4, Digest(4), 1) == Digest(1);
    assert W.IsForkPoint(before, 1, answers, 4, Digest(4), 1);
    assert UpTo(before, 4) == before;
    assert W.IsForkPoint(before, 5, answers, 4, Digest(4), 3);
    W.WalkBackCorrect(before, 5, answers, 4, Digest(4));
    W.ForkPointUnique(before, 5, answers, 4, Digest(4), 3, W.ResolveForkPoint(before, 5, answers, 4, Digest(4)).fork);
  }

  /** The next process re-detects the break on its first block and walks back to the same fork point. */
  ghost predicate Redetects(now: set<Block>, answers: W.Answers, chainAt: int -> Hash, j: int, fork: int) {
    && (exists seed ::
          && ResolveSeed(j + 1, map[], now, false) == Answer(seed)
          && ContinuityBreak(j + 1, seed, j, seed, Item(j + 1, chainAt(j + 1), chainAt(j), true)))
    && W.ResolveForkPoint(now, j + 1, answers, j, chainAt(j)).Found?
    && W.ResolveForkPoint(now, j + 1, answers, j, chainAt(j)).fork == fork
  }

  lemma CutStoreRedetects(before: set<Block>, configuredStart: int, answers: W.Answers, chainAt: int -> Hash, start: int, fork: int, j: int)
    requires UniqueHeights(before) && NamedBlocks(before)
    requires W.IsForkPoint(before, configuredStart, answers, start, chainAt(start), fork)
    requires OnChain(answers, chainAt, start, fork)
    requires fork < j <= start && (forall n :: fork < n <= j ==> HasBlock(before, n))
    ensures Redetects(UpTo(before, j), answers, chainAt, j, fork)
  {
    var now := UpTo(before, j);
    SameForkIffNoHole(before, configuredStart, answers, start, chainAt(start), fork, j);
    W.WalkBackCorrect(now, j + 1, answers, j, chainAt(j));
    W.ForkPointUnique(now, j + 1, answers, j, chainAt(j), fork, W.ResolveForkPoint(now, j + 1, answers, j, chainAt(j)).fork);
    W.ForkPointLeaves(before, configuredStart, answers, start, chainAt(start), fork, j);
    CutKeepsAnswers(before, j, j);
    StoredHashOfUnique(before, j);
    var b :| b in before && b.num == j;
    assert ResolveSeed(j + 1, map[], now, false) == Answer(b.hash);
  }

  /** No orphan is left, or the next process starts right above the highest survivor and re-detects the fork. */
  ghost predicate Recovers(now: set<Block>, answers: W.Answers, chainAt: int -> Hash, fork: int, configured: int, tip: int, buffer: nat) {
    NoneAbove(now, fork) || exists j ::
      && HighestAnswer(now, Some(j), false)
      && StartHeight(configured, Some(j), tip, buffer) == j + 1
      && Redetects(now, answers, chainAt, j, fork)
  }

  /**
   * Crash recovery. Stop the rollback of a hole-free orphan range after any prefix
   * of its deletions and start a new process on what is left, with the tip within
   * the start buffer and the chain unchanged. Either no orphan is left, or the
   * process starts right above the highest survivor, its first block breaks the seed
   * check, and its walk-back returns the same fork point.
   */
  lemma CrashRecoveryHolds(l: R.Layout, before: set<R.Doc>, now: set<R.Doc>, to: int, point: RollbackPoint,
                           configuredStart: int, answers: W.Answers, chainAt: int -> Hash, start: int,
                           configured: int, tip: int, buffer: nat)
    requires R.ValidLayout(l) && ContentAddressed(l, before) && Orphans(BlockView(l, before), point)
    requires UniqueHeights(BlockView(l, before)) && NamedBlocks(BlockView(l, before))
    requires NoneAbove(BlockView(l, before), to) && NoneAbove(BlockView(l, before), start)
    requires R.CrashPoint(l, before, now, point.fork + 1, to, point.hashes)
    requires W.IsForkPoint(BlockView(l, before), configuredStart, answers, start, chainAt(start), point.fork)
    requires OnChain(answers, chainAt, start, point.fork)
    requires HoleFree(BlockView(l, before), point.fork) && NearTip(BlockView(l, now), tip, buffer)
    ensures Recovers(BlockView(l, now), answers, chainAt, point.fork, configured, tip, buffer)
  {
    var blocks := BlockView(l, before);
    CrashCutsOff(l, before, now, to, point);
    var cut :| point.fork <= cut && BlockView(l, now) == UpTo(blocks, cut);
    if b :| b in BlockView(l, now) && b.num > point.fork {
      var j := CutRecovers(blocks, cut, b, configuredStart, answers, chainAt, start, point.fork);
      assert StartHeight(configured, Some(j), tip, buffer) == j + 1;
    }
  }

  // ---------------------------------------------------------------- crash recovery of a run

  /** The hash a rollback point holds for a height. */
  function HashAt(point: RollbackPoint): int -> Hash {
    n => if n in point.hashes then point.hashes[n] else NoHash
  }

  /** A recorded point is still what the walk-back would find: nothing has landed since. */
  ghost predicate Stands(visible: set<Block>, configuredStart: int, point: RollbackPoint) {
    && point.fork <= point.top - 2 && NoneAbove(visible, point.top - 2)
    && W.IsForkPoint(visible, configuredStart, point.answers, point.top - 2, HashAt(point)(point.top - 2), point.fork)
    && OnChain(point.answers, HashAt(point), point.top - 2, point.fork)
  }

  ghost predicate PointStands(s: System) {
    s.phase.Running? && s.run.ctl.point.Some? ==>
      Stands(s.visible, s.configuredStart, s.run.ctl.point.value) && s.run.ctl.point.value.top < s.run.check.next
  }

  /** The walk-back of a confirmed wait records a point that stands. */
  lemma FinishStands(s: System, answers: W.Answers, interrupted: bool)
    requires SafeInv(s) && CheckInv(s.run) && s.phase.Running? && s.run.ctl.pc.WalkingBack? && s.run.ctl.episode.Some? && s.run.ctl.point.None?
    ensures PointStands(s.(run := FinishEpisodeStep(s.run, s.visible, s.configuredStart, answers, interrupted)))
  {
    var r := s.run;
    var ep := r.ctl.episode.value;
    var item := r.ctl.pc.confirmed.value;
    var q := FinishEpisodeStep(r, s.visible, s.configuredStart, answers, interrupted);
    if q.ctl.point.Some? {
      WalkedPoint(s, ep, item, answers);
    }
  }

  lemma WalkedPoint(s: System, ep: Episode, item: Item, answers: W.Answers)
    requires RunOwns(s.visible, s.run) && s.run.start <= ep.baseHeight && !ep.stalePinned && ep.baseParent != NoHash && Confirms(ep, item)
    requires forall n :: n in s.run.check.handed ==> n < ep.baseHeight
    ensures var out := W.ResolveForkPoint(s.visible, s.configuredStart, answers, WalkStart(ep).0, WalkStart(ep).1);
            out.Found? ==>
              var point := FullEvidence(ep, Some(item), out.fork, out.hashes, answers);
              Stands(s.visible, s.configuredStart, point) && point.top == ep.baseHeight + 1
  {
    var out := W.ResolveForkPoint(s.visible, s.configuredStart, answers, WalkStart(ep).0, WalkStart(ep).1);
    if out.Found? {
      WalkedChainStands(s.visible, s.configuredStart, ep, item, answers);
    }
  }

  /** The recorded hashes below the base are the chain the walk-back followed. */
  lemma WalkedChainStands(visible: set<Block>, configuredStart: int, ep: Episode, item: Item, answers: W.Answers)
    requires !ep.stalePinned && ep.baseParent != NoHash && item.num == ep.baseHeight + 1
    requires W.ResolveForkPoint(visible, configuredStart, answers, ep.baseHeight - 1, ep.baseParent).Found?
    ensures var out := W.ResolveForkPoint(visible, configuredStart, answers, ep.baseHeight - 1, ep.baseParent);
            var chainAt := HashAt(FullEvidence(ep, Some(item), out.fork, out.hashes, answers));
            && W.IsForkPoint(visible, configuredStart, answers, ep.baseHeight - 1, chainAt(ep.baseHeight - 1), out.fork)
            && OnChain(answers, chainAt, ep.baseHeight - 1, out.fork)
  {
    var out := W.ResolveForkPoint(visible, configuredStart, answers, ep.baseHeight - 1, ep.baseParent);
    W.WalkBackCorrect(visible, configuredStart, answers, ep.baseHeight - 1, ep.baseParent);
    W.EvidenceIsOneChain(visible, configuredStart, answers, ep.baseHeight - 1, ep.baseParent);
    var point := FullEvidence(ep, Some(item), out.fork, out.hashes, answers);
    forall n | out.fork <= n < ep.baseHeight ensures HashAt(point)(n) == out.hashes[n] != NoHash {
    }
  }

  /** No other step of the collector changes the recorded point, and the pop cursor never goes back. */
  lemma CollectorKeepsPoint(r: Run, workers: nat, visible: set<Block>, configuredStart: int, a: Action)
    requires CollectorEnabled(r, workers, a) && !a.FinishEpisode?
    ensures var q := CollectorStep(r, workers, visible, configuredStart, a); q.ctl.point == r.ctl.point && q.check.next >= r.check.next
  {
    if (a.ReceiveCompletion? || a.DrainReceive?) && r.pool.completions != [] {
      var t := if a.DrainReceive? then TakeCompletion(r) else At(TakeCompletion(r), Top);
      var b := Park(r.apply, r.pool.completions[0]);
      ApplyBatchFrame(t.(apply := b), Batch(r.apply, b), a.DrainReceive? && r.ctl.pc.confirmed.None?);
    }
  }

  lemma CollectorKeepsStands(s: System, workers: nat, a: Action)
    requires SafeInv(s) && CheckInv(s.run) && Positioned(s.run.pool, s.run.ctl) && PointStands(s) && s.phase.Running?
    requires CollectorEnabled(s.run, workers, a)
    ensures PointStands(s.(run := CollectorStep(s.run, workers, s.visible, s.configuredStart, a)))
  {
    if a.FinishEpisode? {
      FinishStands(s, a.answers, a.interrupted);
    } else {
      CollectorKeepsPoint(s.run, workers, s.visible, s.configuredStart, a);
    }
  }

  lemma StepKeepsStands(s: System, workers: nat, a: Action)
    requires SafeInv(s) && CheckInv(s.run) && PoolInv(s.run.pool, s.run.ctl, workers) && PointStands(s) && Enabled(s, workers, a)
    ensures PointStands(Step(s, workers, a))
  {
    if !OuterEnabled(s, a) && CollectorEnabled(s.run, workers, a) {
      CollectorKeepsStands(s, workers, a);
    }
  }

  lemma {:induction false} RunKeepsStands(workers: nat, states: seq<System>, actions: seq<Action>, i: nat)
    requires IsRun(workers, states, actions) && NamedRun(actions) && i < |states|
    requires StoreSafe(states[0].visible) && EmptyFrom(states[0].visible, states[0].run.start)
    ensures PointStands(states[i])
  {
    if i > 0 {
      RunKeepsStands(workers, states, actions, i - 1);
      RunKeepsSafe(workers, states, actions, i - 1);
      RunKeepsPool(workers, states, actions, i - 1);
      RunKeepsCheck(workers, states, actions, i - 1);
      StepKeepsStands(states[i - 1], workers, actions[i - 1]);
    }
  }

  /** What a rollback begins with in a run: proven orphans, and a fork point that stands. */
  lemma RollbackBeginsStanding(workers: nat, states: seq<System>, actions: seq<Action>, i: nat)
    requires IsRun(workers, states, actions) && NamedRun(actions) && i + 1 < |states|
    requires states[i].phase.Running? && states[i + 1].phase.RollingBack?
    requires StoreSafe(states[0].visible) && EmptyFrom(states[0].visible, states[0].run.start)
    ensures var t := states[i + 1];
            && StoreSafe(t.visible) && Orphans(t.visible, t.phase.point) && Stands(t.visible, t.configuredStart, t.phase.point)
            && t.phase.from == t.phase.point.fork + 1 && NoneAbove(t.visible, t.phase.height)
  {
    RunKeepsStands(workers, states, actions, i);
    RunKeepsApply(workers, states, actions, i);
    RunKeepsSafe(workers, states, actions, i + 1);
    assert states[i + 1] == Step(states[i], workers, actions[i]);
  }

  /**
   * Crash recovery of a run. Whatever run led to a rollback, stop the document
   * rollback after any prefix of its deletions: over a hole-free orphan range, with the
   * tip within the start buffer and the chain unchanged, either no orphan is left or
   * the next process starts right above the highest survivor, breaks on its first block
   * and walks back to the fork point the run had found.
   */
  lemma RunCrashRecovers(workers: nat, states: seq<System>, actions: seq<Action>, i: nat, l: R.Layout, before: set<R.Doc>, now: set<R.Doc>,
                         configured: int, tip: int, buffer: nat)
    requires IsRun(workers, states, actions) && NamedRun(actions) && i + 1 < |states|
    requires states[i].phase.Running? && states[i + 1].phase.RollingBack?
    requires StoreSafe(states[0].visible) && EmptyFrom(states[0].visible, states[0].run.start)
    requires R.ValidLayout(l) && ContentAddressed(l, before) && BlockView(l, before) == states[i + 1].visible
    requires var phase := states[i + 1].phase; R.CrashPoint(l, before, now, phase.from, phase.height, phase.point.hashes)
    requires HoleFree(states[i + 1].visible, states[i + 1].phase.point.fork) && NearTip(BlockView(l, now), tip, buffer)
    ensures var point := states[i + 1].phase.point;
            Recovers(BlockView(l, now), point.answers, HashAt(point), point.fork, configured, tip, buffer)
  {
    RollbackBeginsStanding(workers, states, actions, i);
    RollingBackRecovers(l, before, now, states[i + 1], configured, tip, buffer);
  }

  lemma RollingBackRecovers(l: R.Layout, before: set<R.Doc>, now: set<R.Doc>, s: System, configured: int, tip: int, buffer: nat)
    requires s.phase.RollingBack? && s.phase.from == s.phase.point.fork + 1 && NoneAbove(s.visible, s.phase.height)
    requires StoreSafe(s.visible) && Orphans(s.visible, s.phase.point) && Stands(s.visible, s.configuredStart, s.phase.point)
    requires R.ValidLayout(l) && ContentAddressed(l, before) && BlockView(l, before) == s.visible
    requires R.CrashPoint(l, before, now, s.phase.from, s.phase.height, s.phase.point.hashes)
    requires HoleFree(s.visible, s.phase.point.fork) && NearTip(BlockView(l, now), tip, buffer)
    ensures var point := s.phase.point;
            Recovers(BlockView(l, now), point.answers, HashAt(point), point.fork, configured, tip, buffer)
  {
    StandingRecovers(l, before, now, s.phase.height, s.phase.point, s.configuredStart, configured, tip, buffer);
  }

  lemma StandingRecovers(l: R.Layout, before: set<R.Doc>, now: set<R.Doc>, to: int, point: RollbackPoint, configuredStart: int,
                         configured: int, tip: int, buffer: nat)
    requires R.ValidLayout(l) && ContentAddressed(l, before) && StoreSafe(BlockView(l, before)) && NoneAbove(BlockView(l, before), to)
    requires Orphans(BlockView(l, before), point) && Stands(BlockView(l, before), configuredStart, point)
    requires R.CrashPoint(l, before, now, point.fork + 1, to, point.hashes)
    requires HoleFree(BlockView(l, before), point.fork) && NearTip(BlockView(l, now), tip, buffer)
    ensures Recovers(BlockView(l, now), point.answers, HashAt(point), point.fork, configured, tip, buffer)
  {
    CrashRecoveryHolds(l, before, now, to, point, configuredStart, point.answers, HashAt(point), point.top - 2, configured, tip, buffer);
  }

  /** On a hole-free store cut off above the fork point, the highest survivor leads back to it. */
  lemma CutRecovers(blocks: set<Block>, cut: int, b: Block, configuredStart: int, answers: W.Answers, chainAt: int -> Hash,
                    start: int, fork: int) returns (j: int)
    requires UniqueHeights(blocks) && NamedBlocks(blocks) && b in UpTo(blocks, cut) && b.num > fork
    requires NoneAbove(blocks, start)
    requires W.IsForkPoint(blocks, configuredStart, answers, start, chainAt(start), fork)
    requires OnChain(answers, chainAt, start, fork)
    requires HoleFree(blocks, fork)
    ensures j > 0 && HighestAnswer(UpTo(blocks, cut), Some(j), false)
    ensures Redetects(UpTo(blocks, cut), answers, chainAt, j, fork)
  {
    var top := Highest(UpTo(blocks, cut), b);
    j := top.num;
    forall n | fork < n <= j ensures HasBlock(blocks, n) {
      assert top in blocks;
    }
    assert UpTo(blocks, cut) == UpTo(blocks, j);
    CutStoreRedetects(blocks, configuredStart, answers, chainAt, start, fork, j);
  }

  /** A non-empty store has a highest block. */
  ghost function Highest(visible: set<Block>, b: Block): (top: Block)
    requires b in visible
    ensures top in visible && forall c :: c in visible ==> c.num <= top.num
    decreases visible
  {
    if c :| c in visible && c.num > b.num then
      HighestOfRest(visible, b, c);
      Highest(visible - {b}, c)
    else b
  }

  lemma HighestOfRest(visible: set<Block>, b: Block, c: Block)
    requires b in visible && c in visible && c.num > b.num
    ensures visible - {b} < visible
  {
  }

  // ---------------------------------------------------------------- any number of processes

  /** The life of one process, ended anywhere: its states, its actions and the start settings it read. */
  datatype Session = Session(states: seq<System>, actions: seq<Action>, configured: int, tip: int, buffer: nat)

  ghost predicate IsSession(workers: nat, x: Session) {
    IsRun(workers, x.states, x.actions) && NamedRun(x.actions)
  }

  ghost predicate StartsClean(x: Session) {
    x.states != [] && StoreSafe(x.states[0].visible) && EmptyFrom(x.states[0].visible, x.states[0].run.start)
  }

  /** Process y starts on the store x left behind, above its highest block. */
  ghost predicate Follows(x: Session, y: Session) {
    && x.states != [] && y.states != []
    && y.states[0].visible == x.states[|x.states| - 1].visible
    && exists top :: top > 0 && HighestAnswer(y.states[0].visible, Some(top), false)
                     && y.states[0].run.start == StartHeight(y.configured, Some(top), y.tip, y.buffer)
  }

  /**
   * Safety across process lifetimes: kill and restart the indexer any number of
   * times, mid-run or mid-rollback, each time resuming from the store; the store
   * stays safe in every state of every process.
   */
  lemma {:induction false} SafeAcrossProcesses(workers: nat, sessions: seq<Session>, k: nat, i: nat)
    requires k < |sessions| && i < |sessions[k].states|
    requires forall m :: 0 <= m < |sessions| ==> IsSession(workers, sessions[m])
    requires forall m :: 0 < m < |sessions| ==> Follows(sessions[m - 1], sessions[m])
    requires StartsClean(sessions[0])
    ensures StoreSafe(sessions[k].states[i].visible)
    decreases k
  {
    var x := sessions[k];
    if k > 0 {
      var w := sessions[k - 1];
      SafeAcrossProcesses(workers, sessions, k - 1, |w.states| - 1);
      assert Follows(sessions[k - 1], sessions[k]);
      var top :| top > 0 && HighestAnswer(x.states[0].visible, Some(top), false)
                 && x.states[0].run.start == StartHeight(x.configured, Some(top), x.tip, x.buffer);
      StartsAboveStoreIff(x.states[0].visible, Some(top), false, x.configured, x.tip, x.buffer);
    }
    StoreStaysSafe(workers, x.states, x.actions, i);
  }
}
