/** The fork-point search: descend the new chain by header until the store agrees. */
module WalkBack {
  import opened Chain

  /** The depth cap that applies when the chain reports no finalized height. */
  const MAX_WALK_BACK_DEPTH := 64

  /**
   * What the node and the store answer during one walk-back. `parent(n, h)` is
   * the reply to a header request for hash h made while standing at height n:
   * None is a failed request, Some(NoHash) a header without a parent hash.
   */
  datatype Answers = Answers(finalizedKnown: bool, parent: (int, Hash) -> Option<Hash>, queryFails: int -> bool)

  datatype Failure = PastGenesis | UnknownStart | BadQuery | TooDeep | NoHeader | NoParent

  datatype Outcome = Found(fork: int, hashes: map<int, Hash>) | Failed(reason: Failure)

  /** The stored-hash query as the walk-back sees it. */
  function Stored(visible: set<Block>, answers: Answers, num: int): Query {
    if answers.queryFails(num) then QueryError else StoredHash(visible, num)
  }

  /** The walk-back stops here: a common ancestor, or nothing stored below the start of indexing. */
  predicate StopsAt(visible: set<Block>, configuredStart: int, answers: Answers, num: int, hash: Hash) {
    match Stored(visible, answers, num)
    case QueryError => false
    case Answer(stored) => if stored != NoHash then stored == hash else num < configuredStart
  }

  /** The walk-back may go below this height: the query, the cap and the header all allow it. */
  predicate MayDescend(visible: set<Block>, answers: Answers, start: int, num: int, hash: Hash) {
    && Stored(visible, answers, num).Answer?
    && (answers.finalizedKnown || start - num < MAX_WALK_BACK_DEPTH)
    && answers.parent(num, hash).Some?
    && answers.parent(num, hash).value != NoHash
  }

  /**
   * The hash the node gives the new chain at height num, following parent
   * hashes down from (start, hash). NoHash below a height the node will not name.
   */
  ghost function ChainHash(answers: Answers, start: int, hash: Hash, num: int): Hash
    decreases start - num
  {
    if num >= start then hash
    else
      var above := ChainHash(answers, start, hash, num + 1);
      match answers.parent(num + 1, above)
      case Some(p) => p
      case None => NoHash
  }

  /**
   * What the walk-back must return, stated without the loop: fork is the highest
   * height at or below start where the descent stops, and every height above it
   * could be left.
   */
  ghost predicate IsForkPoint(visible: set<Block>, configuredStart: int, answers: Answers, start: int, hash: Hash, fork: int) {
    && 0 <= fork <= start
    && StopsAt(visible, configuredStart, answers, fork, ChainHash(answers, start, hash, fork))
    && forall n :: fork < n <= start ==>
         var h := ChainHash(answers, start, hash, n);
         !StopsAt(visible, configuredStart, answers, n, h) && MayDescend(visible, answers, start, n, h)
  }

  /** One pass of the descent from height cur, as a function. */
  function Descend(visible: set<Block>, configuredStart: int, answers: Answers, start: int, cur: int, curHash: Hash,
                   hashes: map<int, Hash>): Outcome
    decreases if cur < 0 then 0 else cur + 1
  {
    if cur < 0 then Failed(PastGenesis)
    else
      var seen := hashes[cur := curHash];
      match Stored(visible, answers, cur)
      case QueryError => Failed(BadQuery)
      case Answer(stored) =>
        if StopsAt(visible, configuredStart, answers, cur, curHash) then Found(cur, seen)
        else if !answers.finalizedKnown && start - cur >= MAX_WALK_BACK_DEPTH then Failed(TooDeep)
        else
          match answers.parent(cur, curHash)
          case None => Failed(NoHeader)
          case Some(p) =>
            if p == NoHash then Failed(NoParent)
            else Descend(visible, configuredStart, answers, start, cur - 1, p, seen)
  }

  /** The walk-back from the conflict height. */
  function ResolveForkPoint(visible: set<Block>, configuredStart: int, answers: Answers, start: int, hash: Hash): Outcome {
    if start < 0 then Failed(PastGenesis)
    else if hash == NoHash then Failed(UnknownStart)
    else Descend(visible, configuredStart, answers, start, start, hash, map[])
  }

  /** The walk-back loop, with the height, the hash and the evidence map updated in place. */
  method WalkBackLoop(visible: set<Block>, configuredStart: int, answers: Answers, start: int, hash: Hash)
    returns (result: Outcome, visited: nat)
    ensures result == ResolveForkPoint(visible, configuredStart, answers, start, hash)
    ensures !answers.finalizedKnown ==> visited <= MAX_WALK_BACK_DEPTH + 1
    ensures result.Found? ==> visited == start - result.fork + 1
  {
    visited := 0;
    if start < 0 {
      return Failed(PastGenesis), 0;
    }
    if hash == NoHash {
      return Failed(UnknownStart), 0;
    }
    var hashes: map<int, Hash> := map[];
    var cur, curHash := start, hash;
    var depth := 0;
    while true
      invariant depth == start - cur == visited && cur >= -1
      invariant !answers.finalizedKnown ==> depth <= MAX_WALK_BACK_DEPTH
      invariant ResolveForkPoint(visible, configuredStart, answers, start, hash)
             == Descend(visible, configuredStart, answers, start, cur, curHash, hashes)
      decreases cur + 1
    {
      if cur < 0 {
        return Failed(PastGenesis), visited;
      }
      hashes := hashes[cur := curHash];
      visited := visited + 1;
      var stored := Stored(visible, answers, cur);
      if stored.QueryError? {
        return Failed(BadQuery), visited;
      }
      if stored.hash != NoHash {
        if stored.hash == curHash {
          return Found(cur, hashes), visited;
        }
      } else if cur < configuredStart {
        return Found(cur, hashes), visited;
      }
      if !answers.finalizedKnown && depth >= MAX_WALK_BACK_DEPTH {
        return Failed(TooDeep), visited;
      }
      var header := answers.parent(cur, curHash);
      if header.None? {
        return Failed(NoHeader), visited;
      }
      if header.value == NoHash {
        return Failed(NoParent), visited;
      }
      cur := cur - 1;
      curHash := header.value;
      depth := depth + 1;
    }
  }

  /** What the evidence map holds once the descent has come down to cur. */
  ghost predicate Evidence(answers: Answers, start: int, hash: Hash, cur: int, hashes: map<int, Hash>) {
    && (forall n :: n in hashes <==> cur < n <= start)
    && (forall n :: cur < n <= start ==> n in hashes && hashes[n] == ChainHash(answers, start, hash, n))
  }

  /** Every height strictly above cur was looked at and left behind. */
  ghost predicate LeftBehind(visible: set<Block>, configuredStart: int, answers: Answers, start: int, hash: Hash, cur: int) {
    forall n :: cur < n <= start ==>
      var h := ChainHash(answers, start, hash, n);
      !StopsAt(visible, configuredStart, answers, n, h) && MayDescend(visible, answers, start, n, h)
  }

  /** A fork point below n says that the descent could leave n. */
  lemma ForkPointLeaves(visible: set<Block>, configuredStart: int, answers: Answers, start: int, hash: Hash, f: int, n: int)
    ensures IsForkPoint(visible, configuredStart, answers, start, hash, f) && f < n <= start ==>
              var h := ChainHash(answers, start, hash, n);
              !StopsAt(visible, configuredStart, answers, n, h) && MayDescend(visible, answers, start, n, h)
  {
  }

  /** The descent below cur finds exactly the highest stopping height, or fails for a reason that rules every height out. */
  lemma {:induction false} DescendMeetsSpec(visible: set<Block>, configuredStart: int, answers: Answers, start: int, hash: Hash,
                                            cur: int, curHash: Hash, hashes: map<int, Hash>)
    requires hash != NoHash && -1 <= cur <= start
    requires curHash == ChainHash(answers, start, hash, cur)
    requires Evidence(answers, start, hash, cur, hashes)
    requires LeftBehind(visible, configuredStart, answers, start, hash, cur)
    ensures var out := Descend(visible, configuredStart, answers, start, cur, curHash, hashes);
            && (out.Found? ==> IsForkPoint(visible, configuredStart, answers, start, hash, out.fork)
                               && Evidence(answers, start, hash, out.fork - 1, out.hashes))
            && (out.Failed? ==> forall f :: !IsForkPoint(visible, configuredStart, answers, start, hash, f))
    decreases cur + 1
  {
    if cur >= 0 {
      var seen := hashes[cur := curHash];
      if StopsAt(visible, configuredStart, answers, cur, curHash) {
        assert Evidence(answers, start, hash, cur - 1, seen);
      } else if MayDescend(visible, answers, start, cur, curHash) {
        var p := answers.parent(cur, curHash).value;
        assert p == ChainHash(answers, start, hash, cur - 1);
        DescendMeetsSpec(visible, configuredStart, answers, start, hash, cur - 1, p, seen);
      } else {
        forall f ensures !IsForkPoint(visible, configuredStart, answers, start, hash, f) {
          ForkPointLeaves(visible, configuredStart, answers, start, hash, f, cur);
        }
      }
    }
  }

  /**
   * The walk-back succeeds exactly when a fork point exists, returns it, and
   * hands over one chain hash for every height from the fork point to the start.
   */
  lemma WalkBackCorrect(visible: set<Block>, configuredStart: int, answers: Answers, start: int, hash: Hash)
    requires hash != NoHash
    ensures var out := ResolveForkPoint(visible, configuredStart, answers, start, hash);
            && (out.Found? <==> exists f :: IsForkPoint(visible, configuredStart, answers, start, hash, f))
            && (out.Found? ==> IsForkPoint(visible, configuredStart, answers, start, hash, out.fork)
                               && Evidence(answers, start, hash, out.fork - 1, out.hashes))
  {
    if start >= 0 {
      DescendMeetsSpec(visible, configuredStart, answers, start, hash, start, hash, map[]);
    }
  }

  /** There is at most one fork point, so `IsForkPoint` pins the answer down. */
  lemma ForkPointUnique(visible: set<Block>, configuredStart: int, answers: Answers, start: int, hash: Hash, f: int, g: int)
    requires IsForkPoint(visible, configuredStart, answers, start, hash, f)
    requires IsForkPoint(visible, configuredStart, answers, start, hash, g)
    ensures f == g
  {
    ForkPointLeaves(visible, configuredStart, answers, start, hash, f, g);
    ForkPointLeaves(visible, configuredStart, answers, start, hash, g, f);
  }

  /** In this hash map the entry below n is the node's parent of the entry at n. */
  ghost predicate ParentBelow(answers: Answers, hashes: map<int, Hash>, n: int) {
    n in hashes && n - 1 in hashes && hashes[n - 1] != NoHash && answers.parent(n, hashes[n]) == Some(hashes[n - 1])
  }

  /** The map covers exactly [low, high] and is one parent-linked chain of named hashes. */
  ghost predicate OneChain(answers: Answers, hashes: map<int, Hash>, low: int, high: int) {
    && (forall n :: n in hashes <==> low <= n <= high)
    && (forall n :: n in hashes ==> hashes[n] != NoHash)
    && (forall n :: low < n <= high ==> ParentBelow(answers, hashes, n))
  }

  /** Nothing stored above the fork point agrees with the new chain. */
  ghost predicate Disagrees(visible: set<Block>, hashes: map<int, Hash>, fork: int, high: int) {
    forall b :: b in visible && fork < b.num <= high ==> b.num in hashes && (b.hash == NoHash || b.hash != hashes[b.num])
  }

  /** The evidence handed over is one unbroken chain down to the fork point, and every stored block above it is an orphan. */
  lemma EvidenceIsOneChain(visible: set<Block>, configuredStart: int, answers: Answers, start: int, hash: Hash)
    requires hash != NoHash
    ensures var out := ResolveForkPoint(visible, configuredStart, answers, start, hash);
            out.Found? ==>
              && 0 <= out.fork <= start
              && OneChain(answers, out.hashes, out.fork, start)
              && out.hashes[start] == hash
              && Disagrees(visible, out.hashes, out.fork, start)
  {
    var out := ResolveForkPoint(visible, configuredStart, answers, start, hash);
    WalkBackCorrect(visible, configuredStart, answers, start, hash);
    if out.Found? {
      forall n | out.fork < n <= start ensures ParentBelow(answers, out.hashes, n) {
        ForkPointLeaves(visible, configuredStart, answers, start, hash, out.fork, n);
      }
      forall n | n in out.hashes ensures out.hashes[n] != NoHash {
        if n < start {
          assert ParentBelow(answers, out.hashes, n + 1);
        }
      }
      forall b | b in visible && out.fork < b.num <= start
        ensures b.num in out.hashes && (b.hash == NoHash || b.hash != out.hashes[b.num])
      {
        StoredHashSound(visible, b.num);
        ForkPointLeaves(visible, configuredStart, answers, start, hash, out.fork, b.num);
      }
    }
  }

  /** The new chain's hash at n stops the descent. */
  ghost predicate StopHeight(visible: set<Block>, configuredStart: int, answers: Answers, start: int, hash: Hash, n: int) {
    StopsAt(visible, configuredStart, answers, n, ChainHash(answers, start, hash, n))
  }

  /**
   * The descent stops at the first stored match, so a height verified stale is
   * looked at exactly when nothing stored strictly above it stops the descent.
   */
  lemma StaleHeightVisitedIff(visible: set<Block>, configuredStart: int, answers: Answers, top: int, hash: Hash, stale: int)
    requires hash != NoHash && 0 <= stale <= top
    requires ResolveForkPoint(visible, configuredStart, answers, top, hash).Found?
    ensures stale in ResolveForkPoint(visible, configuredStart, answers, top, hash).hashes <==>
            forall n :: stale < n <= top ==> !StopHeight(visible, configuredStart, answers, top, hash, n)
  {
    WalkBackCorrect(visible, configuredStart, answers, top, hash);
    var out := ResolveForkPoint(visible, configuredStart, answers, top, hash);
    assert StopHeight(visible, configuredStart, answers, top, hash, out.fork);
    assert stale in out.hashes <==> out.fork <= stale;
    if out.fork <= stale {
      forall n | stale < n <= top
        ensures !StopHeight(visible, configuredStart, answers, top, hash, n)
      {
        ForkPointLeaves(visible, configuredStart, answers, top, hash, out.fork, n);
      }
    }
  }

  /** A lower stale height escapes the rollback map once a matching store has landed above it. */
  lemma StaleHeightMissed()
    ensures exists visible: set<Block>, answers: Answers ::
              && StoredHash(visible, 5) == Answer(Digest(105))
              && ChainHash(answers, 7, Digest(7), 5) == Digest(5)
              && ResolveForkPoint(visible, 5, answers, 7, Digest(7)).Found?
              && 5 !in ResolveForkPoint(visible, 5, answers, 7, Digest(7)).hashes
  {
    var stale5 := Block(5, Digest(105), Digest(4));
    var landed6 := Block(6, Digest(6), Digest(5));
    var stale7 := Block(7, Digest(107), Digest(106));
    var visible := {stale5, landed6, stale7};
    var answers := Answers(true, (n: int, h: Hash) => if n >= 1 then Some(Digest(n - 1)) else None, (n: int) => false);
    assert BlocksAt(visible, 5) == {stale5};
    assert BlocksAt(visible, 6) == {landed6};
    assert BlocksAt(visible, 7) == {stale7};
    assert ChainHash(answers, 7, Digest(7), 6) == Digest(6);
    assert ChainHash(answers, 7, Digest(7), 5) == Digest(5);
    assert IsForkPoint(visible, 5, answers, 7, Digest(7), 6);
    WalkBackCorrect(visible, 5, answers, 7, Digest(7));
    ForkPointUnique(visible, 5, answers, 7, Digest(7), 6, ResolveForkPoint(visible, 5, answers, 7, Digest(7)).fork);
  }
}
