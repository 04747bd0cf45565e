/** Writing one block: batches, conflict retries, the per-document fallback, tracking and the signing gate. */
module BlockWriter {
  import opened Chain
  import opened Documents

  datatype Error = AlreadyExists | Conflict | PreviouslyStored | Malformed | Cancelled | OtherFailure

  /**
   * What the database does to one transaction: a failure to open it or to build its
   * documents, a failure of an add after some documents' CIDs were collected, a
   * failure of the commit. Positions in `taken` are reported as already existing.
   */
  datatype Reply = Reply(setup: Option<Error>, add: Option<Error>, collected: nat, taken: set<int>, commit: Option<Error>)

  const SMOOTH := Reply(None, None, 0, {}, None)

  const MAX_BATCH_RETRIES := 3

  predicate DistinctIds(ids: seq<DocId>) {
    forall i, j :: 0 <= i < j < |ids| ==> ids[i] != ids[j]
  }

  ghost function Elements(ids: seq<DocId>): set<DocId> {
    set x | x in ids
  }

  /** These identifiers, each once, are exactly what a write added to the store. */
  ghost predicate Added(before: set<DocId>, after: set<DocId>, ids: seq<DocId>) {
    DistinctIds(ids) && (forall x :: x in ids ==> x !in before) && after == before + Elements(ids)
  }

  /** Every identifier belongs to one of these documents. */
  ghost predicate From(ids: seq<DocId>, col: Collection, docs: seq<Doc>) {
    forall x :: x in ids ==> x.col == col && x.doc in docs
  }

  lemma AddedAppend(a: set<DocId>, b: set<DocId>, c: set<DocId>, x: seq<DocId>, y: seq<DocId>)
    requires Added(a, b, x) && Added(b, c, y)
    ensures Added(a, c, x + y)
  {
    forall i, j | 0 <= i < j < |x + y| ensures (x + y)[i] != (x + y)[j] {
      if i < |x| <= j {
        assert x[i] in Elements(x);
      }
    }
  }

  /** None of these is stored yet and none repeats. */
  ghost predicate AllNew(store: set<DocId>, ids: seq<DocId>) {
    DistinctIds(ids) && forall x :: x in ids ==> x !in store
  }

  lemma NewAt(store: set<DocId>, col: Collection, docs: seq<Doc>, i: nat)
    requires i < |docs|
    ensures AllNew(store, Ids(col, docs)) ==> DocId(col, docs[i]) !in store && DocId(col, docs[i]) !in Ids(col, docs[..i])
  {
    if AllNew(store, Ids(col, docs)) {
      assert Ids(col, docs)[i] == DocId(col, docs[i]);
      forall k | 0 <= k < i ensures Ids(col, docs[..i])[k] != DocId(col, docs[i]) {
        assert Ids(col, docs)[k] == Ids(col, docs[..i])[k];
      }
    }
  }

  /** What is left of a run of new documents is still new after the first part was written. */
  lemma NewRest(before: set<DocId>, after: set<DocId>, x: seq<DocId>, y: seq<DocId>, z: seq<DocId>)
    requires AllNew(before, x + y + z) && Added(before, after, x)
    ensures AllNew(after, y)
  {
    var all := x + y + z;
    forall i | 0 <= i < |y| ensures y[i] !in after {
      assert y[i] == all[|x| + i];
      forall k | 0 <= k < |x| ensures x[k] != y[i] {
        assert x[k] == all[k];
      }
    }
    forall i, j | 0 <= i < j < |y| ensures y[i] != y[j] {
      assert y[i] == all[|x| + i] && y[j] == all[|x| + j];
    }
  }

  /** The collector holds the CIDs it held before and one for each of these documents. */
  ghost predicate Covers(collector: seq<DocId>, before: seq<DocId>, ids: seq<DocId>) {
    multiset(collector) >= multiset(before) + multiset(ids)
  }

  /** The collector grew by one CID per document. */
  ghost predicate OneEach(collector: seq<DocId>, before: seq<DocId>, ids: seq<DocId>) {
    |collector| == |before| + |ids|
  }

  // ---------------------------------------------------------------- what a script lets through

  /** The next reply; an exhausted script is a smooth database. */
  function Head(script: seq<Reply>): Reply {
    if script == [] then SMOOTH else script[0]
  }

  /** What is left of a script after its first n replies. */
  function After(script: seq<Reply>, n: nat): seq<Reply> {
    if n < |script| then script[n..] else []
  }

  /** How the transaction of one batch fails: at its setup, at an add or at its commit. */
  function Failure(r: Reply): Option<Error> {
    if r.setup.Some? then r.setup else if r.add.Some? then r.add else r.commit
  }

  predicate Clear(r: Reply) {
    Failure(r).None?
  }

  predicate Conflicting(r: Reply) {
    Failure(r) == Some(Conflict)
  }

  /** The bulk add is told that something already exists. */
  predicate ClaimsExisting(r: Reply) {
    r.setup.None? && r.add == Some(AlreadyExists)
  }

  /** How many conflicts come first. */
  function Conflicts(script: seq<Reply>): nat {
    if script != [] && Conflicting(script[0]) then 1 + Conflicts(script[1..]) else 0
  }

  /** What is left of the script once one batch of new documents is through: up to two conflicts, none after a shutdown, then no failure. */
  function Through(script: seq<Reply>, cancelled: bool): Option<seq<Reply>> {
    var k := Conflicts(script);
    if k <= (if cancelled then 0 else 2) && Clear(Head(After(script, k))) then Some(After(script, k + 1)) else None
  }

  /** One pass after another, as often as told. */
  function Repeat(pass: seq<Reply> -> Option<seq<Reply>>, script: seq<Reply>, n: nat): Option<seq<Reply>>
    decreases n
  {
    if n == 0 then Some(script) else if pass(script).None? then None else Repeat(pass, pass(script).value, n - 1)
  }

  lemma {:induction false} RepeatBoth(pass: seq<Reply> -> Option<seq<Reply>>, script: seq<Reply>, a: nat, b: nat)
    ensures var first := Repeat(pass, script, a);
            Repeat(pass, script, a + b) == if first.None? then None else Repeat(pass, first.value, b)
    decreases a
  {
    if a > 0 && pass(script).Some? {
      RepeatBoth(pass, pass(script).value, a - 1, b);
    }
  }

  function Pass(cancelled: bool): seq<Reply> -> Option<seq<Reply>> {
    (script: seq<Reply>) => Through(script, cancelled)
  }

  /** What is left once several batches in a row are through. */
  function ThroughAll(script: seq<Reply>, cancelled: bool, batches: nat): Option<seq<Reply>> {
    Repeat(Pass(cancelled), script, batches)
  }

  lemma AfterAfter(script: seq<Reply>, n: nat)
    ensures After(After(script, n), 1) == After(script, n + 1)
  {
  }

  /** The smooth database lets everything through. */
  lemma {:induction false} SmoothLetsThrough(cancelled: bool, batches: nat)
    ensures ThroughAll([], cancelled, batches) == Some([])
    decreases batches
  {
    if batches > 0 {
      SmoothLetsThrough(cancelled, batches - 1);
    }
  }

  /** Up to two conflicts on every batch are survived. */
  lemma {:induction false} TwoConflictsEach(script: seq<Reply>, batches: nat)
    requires |script| == 3 * batches && forall i :: 0 <= i < |script| ==> if i % 3 == 2 then Clear(script[i]) else Conflicting(script[i])
    ensures ThroughAll(script, false, batches) == Some([])
    decreases batches
  {
    if batches > 0 {
      var rest := script[3..];
      assert Conflicting(script[0]) && Conflicting(script[1]) && script[1..][0] == script[1] && script[1..][1..][0] == script[2];
      assert Clear(script[2]) && !Conflicting(script[2]);
      assert Conflicts(script[1..][1..]) == 0;
      assert Conflicts(script[1..]) == 1;
      assert After(script, 3) == rest;
      forall i | 0 <= i < |rest| ensures if i % 3 == 2 then Clear(rest[i]) else Conflicting(rest[i]) {
        assert rest[i] == script[i + 3];
      }
      TwoConflictsEach(rest, batches - 1);
    }
  }

  /** Batches of a group of n documents. */
  function BatchCount(n: nat, batchSize: nat): nat
    requires batchSize > 0
    decreases n
  {
    if n == 0 then 0 else 1 + BatchCount(if n <= batchSize then 0 else n - batchSize, batchSize)
  }

  /** The next batch is let through, and after it the rest of the group. */
  lemma NextBatchThrough(script: seq<Reply>, cancelled: bool, n: nat, batchSize: nat)
    requires batchSize > 0 && n > 0 && ThroughAll(script, cancelled, BatchCount(n, batchSize)).Some?
    ensures var rest := if n <= batchSize then 0 else n - batchSize;
            && Through(script, cancelled).Some?
            && ThroughAll(Through(script, cancelled).value, cancelled, BatchCount(rest, batchSize))
               == ThroughAll(script, cancelled, BatchCount(n, batchSize))
  {
  }

  /** A group's own batch size, or the default. */
  function BatchSize(g: Group, maxDocs: nat): nat
    requires maxDocs > 0
    ensures BatchSize(g, maxDocs) > 0
  {
    if g.batchSize <= 0 then maxDocs else g.batchSize
  }

  function GroupBatches(g: Group, maxDocs: nat): nat
    requires maxDocs > 0
  {
    BatchCount(|g.docs|, BatchSize(g, maxDocs))
  }

  /** Nothing keeps this group from being written: its documents are new and the database lets its batches through. */
  ghost predicate Admits(script: seq<Reply>, cancelled: bool, store: set<DocId>, g: Group, maxDocs: nat)
    requires maxDocs > 0
  {
    AllNew(store, Ids(g.col, g.docs)) && ThroughAll(script, cancelled, GroupBatches(g, maxDocs)).Some?
  }

  /** The replies left after a group is through. */
  function Left(script: seq<Reply>, cancelled: bool, g: Group, maxDocs: nat): seq<Reply>
    requires maxDocs > 0
  {
    var left := ThroughAll(script, cancelled, GroupBatches(g, maxDocs));
    if left.Some? then left.value else []
  }

  function Batches(groups: seq<Group>, maxDocs: nat): nat
    requires maxDocs > 0
  {
    if groups == [] then 0 else GroupBatches(groups[0], maxDocs) + Batches(groups[1..], maxDocs)
  }

  /**
   * What the per-document fallback leaves: on a reply without failure every document not
   * reported as taken is stored, and the batch fails exactly when something was there.
   */
  ghost predicate FellBack(before: set<DocId>, after: set<DocId>, col: Collection, docs: seq<Doc>, script: seq<Reply>, err: Option<Error>) {
    Clear(Head(script)) ==>
      && (err.None? || err == Some(PreviouslyStored))
      && (forall i :: 0 <= i < |docs| && i !in Head(script).taken ==> DocId(col, docs[i]) in after)
      && (Head(script).taken == {} ==> (err.None? <==> AllNew(before, Ids(col, docs))))
  }

  /** Once all of these documents are stored, the write added exactly the missing ones. */
  lemma AllStored(before: set<DocId>, after: set<DocId>, ids: seq<DocId>, col: Collection, docs: seq<Doc>)
    requires Added(before, after, ids) && From(ids, col, docs) && forall i :: 0 <= i < |docs| ==> DocId(col, docs[i]) in after
    ensures after == before + Elements(Ids(col, docs))
  {
    forall x | x in Elements(Ids(col, docs)) ensures x in after {
      var i :| 0 <= i < |docs| && Ids(col, docs)[i] == x;
    }
    forall x | x in after && x !in before ensures x in Elements(Ids(col, docs)) {
      var i :| 0 <= i < |docs| && docs[i] == x.doc;
      assert Ids(col, docs)[i] == x;
    }
  }

  lemma CoversAppend(a: seq<DocId>, b: seq<DocId>, c: seq<DocId>, x: seq<DocId>, y: seq<DocId>)
    requires Covers(b, a, x) && Covers(c, b, y)
    ensures Covers(c, a, x + y)
  {
    assert multiset(x + y) == multiset(x) + multiset(y);
  }

  lemma IdsAppend(col: Collection, docs: seq<Doc>, i: nat, end: nat)
    requires i <= end <= |docs|
    ensures Ids(col, docs[..end]) == Ids(col, docs[..i]) + Ids(col, docs[i..end])
  {
  }

  lemma FromPart(ids: seq<DocId>, col: Collection, docs: seq<Doc>, i: nat, end: nat)
    requires i <= end <= |docs| && From(ids, col, docs[i..end])
    ensures From(ids, col, docs)
  {
  }

  /** The first i documents are written and their CIDs collected. */
  ghost predicate WroteFirst(before: set<DocId>, now: set<DocId>, had: seq<DocId>, collector: seq<DocId>, col: Collection, docs: seq<Doc>, i: nat,
                             ids: seq<DocId>) {
    i <= |docs| && ids == Ids(col, docs[..i]) && From(ids, col, docs) && Added(before, now, ids) && Covers(collector, had, ids)
  }

  /** One more batch; whether it came through in full or not, what was added is told. */
  lemma WritePart(before: set<DocId>, mid: set<DocId>, now: set<DocId>, had: seq<DocId>, soFar: seq<DocId>, collector: seq<DocId>,
                  col: Collection, docs: seq<Doc>, i: nat, end: nat, ids: seq<DocId>, part: seq<DocId>)
    requires i <= end <= |docs| && WroteFirst(before, mid, had, soFar, col, docs, i, ids) && Added(mid, now, part) && From(part, col, docs[i..end])
    ensures Added(before, now, ids + part) && From(ids + part, col, docs)
    ensures part == Ids(col, docs[i..end]) && Covers(collector, soFar, part) ==>
              WroteFirst(before, now, had, collector, col, docs, end, ids + part)
  {
    AddedAppend(before, mid, now, ids, part);
    FromPart(part, col, docs, i, end);
    if Covers(collector, soFar, part) {
      CoversAppend(had, soFar, collector, ids, part);
    }
    IdsAppend(col, docs, i, end);
  }

  lemma AddedNothing(a: set<DocId>)
    ensures Added(a, a, [])
  {
  }

  /**
   * The block handler's view of the database during one store: the visible
   * documents, the collected CIDs (one per document, so named by it) and the
   * replies still to come; an exhausted script is a smooth database.
   */
  class Writer {
    var store: set<DocId>
    var collector: seq<DocId>
    var script: seq<Reply>
    const maxDocsPerTxn: nat

    constructor (store: set<DocId>, script: seq<Reply>, maxDocsPerTxn: int)
      ensures this.store == store && collector == [] && this.script == script
      ensures this.maxDocsPerTxn == if maxDocsPerTxn > 0 then maxDocsPerTxn else 1000
    {
      this.store := store;
      this.collector := [];
      this.script := script;
      this.maxDocsPerTxn := if maxDocsPerTxn <= 0 then 1000 else maxDocsPerTxn;
    }

    method Next() returns (reply: Reply)
      modifies this`script
      ensures reply == Head(old(script)) && script == After(old(script), 1)
    {
      if script == [] {
        reply := SMOOTH;
      } else {
        reply := script[0];
        script := script[1..];
      }
    }

    /** Per-document writes in one transaction, skipping what is already stored; any other failure writes nothing. */
    method AddDocsSkipExisting(col: Collection, docs: seq<Doc>) returns (written: seq<DocId>, skipped: nat, err: Option<Error>)
      modifies this
      ensures Added(old(store), store, written) && From(written, col, docs) && old(collector) <= collector
      ensures err.Some? ==> written == []
      ensures err.None? ==> |written| + skipped == |docs|
      ensures err.None? && skipped == 0 ==> written == Ids(col, docs) && collector == old(collector) + written
      ensures script == After(old(script), 1)
      ensures Clear(Head(old(script))) ==> err.None?
      ensures err.None? ==> forall i :: 0 <= i < |docs| && i !in Head(old(script)).taken ==> DocId(col, docs[i]) in store
      ensures err.None? && Head(old(script)).taken == {} ==> (skipped == 0 <==> AllNew(old(store), Ids(col, docs)))
    {
      var reply := Next();
      written, skipped := [], 0;
      AddedNothing(store);
      if reply.setup.Some? {
        return [], 0, reply.setup;
      }
      for i := 0 to |docs|
        invariant store == old(store) && DistinctIds(written) && forall x :: x in written ==> x !in store
        invariant |written| + skipped == i && From(written, col, docs)
        invariant skipped == 0 ==> written == Ids(col, docs[..i])
        invariant collector == old(collector) + written && script == After(old(script), 1)
        invariant forall k :: 0 <= k < i && k !in reply.taken ==> DocId(col, docs[k]) in store || DocId(col, docs[k]) in written
        invariant reply.taken == {} && AllNew(store, Ids(col, docs)) ==> skipped == 0
      {
        var id := DocId(col, docs[i]);
        assert docs[..i + 1] == docs[..i] + [docs[i]];
        NewAt(store, col, docs, i);
        if id in store || id in written || i in reply.taken {
          skipped := skipped + 1;
        } else if reply.add.Some? && reply.collected <= i {
          return [], 0, reply.add;
        } else {
          written := written + [id];
          collector := collector + [id];
        }
      }
      assert docs[..|docs|] == docs;
      if |written| == 0 {
        return written, skipped, None;
      }
      if reply.commit.Some? {
        return [], 0, reply.commit;
      }
      store := store + (set x | x in written);
      return written, skipped, None;
    }

    /** One transaction for a whole batch, with the per-document fallback when something already exists. */
    method CreateDocsInTxn(col: Collection, docs: seq<Doc>) returns (ids: seq<DocId>, err: Option<Error>)
      modifies this
      ensures Added(old(store), store, ids) && From(ids, col, docs) && old(collector) <= collector
      ensures err.None? ==> ids == Ids(col, docs) && Covers(collector, old(collector), ids)
      ensures err.Some? && err != Some(PreviouslyStored) ==> ids == []
      ensures old(AllNew(store, Ids(col, docs))) && docs != [] && !ClaimsExisting(Head(old(script))) ==>
                && err == Failure(Head(old(script))) && script == After(old(script), 1)
                && (err.None? ==> OneEach(collector, old(collector), ids))
      ensures docs != [] && Head(old(script)).setup.None? && (!old(AllNew(store, Ids(col, docs))) || ClaimsExisting(Head(old(script)))) ==>
                FellBack(old(store), store, col, docs, After(old(script), 1), err)
    {
      var reply := Next();
      AddedNothing(store);
      if reply.setup.Some? {
        return [], reply.setup;
      }
      ids := Ids(col, docs);
      if docs == [] {
        return ids, None;
      }
      var exists_ := !DistinctIds(ids) || exists x :: x in ids && x in store;
      if exists_ || reply.add.Some? {
        ids, err := BulkFailed(col, docs, reply, if exists_ then AlreadyExists else reply.add.value);
        return ids, err;
      }
      collector := collector + ids;
      if reply.commit.Some? {
        return [], reply.commit;
      }
      store := store + (set x | x in ids);
      return ids, None;
    }

    /** A failed bulk add leaves the CIDs it collected behind; what already exists sends the batch to the fallback. */
    method BulkFailed(col: Collection, docs: seq<Doc>, reply: Reply, bulkErr: Error) returns (ids: seq<DocId>, err: Option<Error>)
      modifies this
      ensures Added(old(store), store, ids) && From(ids, col, docs) && old(collector) <= collector
      ensures err.None? ==> ids == Ids(col, docs) && Covers(collector, old(collector), ids)
      ensures err.Some? && err != Some(PreviouslyStored) ==> ids == []
      ensures bulkErr != AlreadyExists ==> err == Some(bulkErr) && script == old(script)
      ensures bulkErr == AlreadyExists ==> FellBack(old(store), store, col, docs, old(script), err)
    {
      var n := if reply.collected < |docs| then reply.collected else |docs|;
      collector := collector + Ids(col, docs)[..n];
      AddedNothing(store);
      if bulkErr != AlreadyExists {
        return [], Some(bulkErr);
      }
      ids, err := WriteBatchSkipExisting(col, docs);
    }

    /** The fallback: any skip fails the batch, though what it wrote stays written. */
    method WriteBatchSkipExisting(col: Collection, docs: seq<Doc>) returns (ids: seq<DocId>, err: Option<Error>)
      modifies this
      ensures Added(old(store), store, ids) && From(ids, col, docs) && old(collector) <= collector
      ensures err.None? ==> ids == Ids(col, docs) && collector == old(collector) + ids
      ensures err.Some? && err != Some(PreviouslyStored) ==> ids == []
      ensures FellBack(old(store), store, col, docs, old(script), err)
    {
      var skipped: nat;
      ids, skipped, err := AddDocsSkipExisting(col, docs);
      if err.Some? {
        return [], err;
      }
      if skipped > 0 {
        return ids, Some(PreviouslyStored);
      }
    }

    /** Retry on conflicts, three attempts in all; a failed attempt's CIDs are rolled back. */
    method WriteBatchWithRetry(col: Collection, docs: seq<Doc>, cancelled: bool) returns (ids: seq<DocId>, err: Option<Error>)
      modifies this
      ensures Added(old(store), store, ids) && From(ids, col, docs)
      ensures err.None? ==> ids == Ids(col, docs) && Covers(collector, old(collector), ids)
      ensures err.Some? ==> collector == old(collector)
      ensures err.Some? && err != Some(PreviouslyStored) ==> store == old(store)
      ensures old(AllNew(store, Ids(col, docs))) && docs != [] ==>
                var k := Conflicts(old(script));
                && (k >= 1 && cancelled ==> err == Some(Cancelled) && script == After(old(script), 1))
                && (k >= 3 && !cancelled ==> err == Some(Conflict) && script == After(old(script), 3))
                && (k <= (if cancelled then 0 else 2) && !ClaimsExisting(Head(After(old(script), k))) ==>
                      && err == Failure(Head(After(old(script), k))) && script == After(old(script), k + 1)
                      && (err.None? ==> OneEach(collector, old(collector), ids)))
      ensures old(AllNew(store, Ids(col, docs))) && docs != [] && Through(old(script), cancelled).Some? ==>
                err.None? && script == Through(old(script), cancelled).value && OneEach(collector, old(collector), ids)
      ensures !old(AllNew(store, Ids(col, docs))) && old(script) == [] ==>
                err == Some(PreviouslyStored) && store == old(store) + Elements(Ids(col, docs))
    {
      ids := [];
      AddedNothing(store);
      ghost var new_, k := AllNew(store, Ids(col, docs)) && docs != [], Conflicts(script);
      var attempt := 0;
      while true
        invariant 0 <= attempt < MAX_BATCH_RETRIES
        invariant store == old(store) && collector == old(collector) && ids == []
        invariant attempt > 0 ==> !cancelled
        invariant new_ && attempt <= k ==> script == After(old(script), attempt) && k == attempt + Conflicts(script)
        invariant new_ && !ClaimsExisting(Head(After(old(script), k))) ==> attempt <= k
        invariant attempt == 0 ==> script == old(script)
        invariant old(script) == [] && !AllNew(old(store), Ids(col, docs)) ==> attempt == 0
        decreases MAX_BATCH_RETRIES - attempt
      {
        var mark := |collector|;
        AfterAfter(old(script), attempt);
        ids, err := CreateDocsInTxn(col, docs);
        if err.None? {
          return ids, None;
        }
        collector := collector[..mark];
        if err != Some(Conflict) || attempt == MAX_BATCH_RETRIES - 1 {
          if old(script) == [] && !AllNew(old(store), Ids(col, docs)) {
            AllStored(old(store), store, ids, col, docs);
          }
          return ids, err;
        }
        if cancelled {
          return ids, Some(Cancelled);
        }
        attempt := attempt + 1;
      }
    }

    /** One more batch of a group, behind the first i documents. */
    method AppendBatch(col: Collection, docs: seq<Doc>, i: nat, end: nat, ids: seq<DocId>, cancelled: bool,
                       ghost before: set<DocId>, ghost had: seq<DocId>)
      returns (all: seq<DocId>, err: Option<Error>)
      requires i < end <= |docs| && WroteFirst(before, store, had, collector, col, docs, i, ids)
      modifies this
      ensures Added(before, store, all) && From(all, col, docs)
      ensures err.None? ==> WroteFirst(before, store, had, collector, col, docs, end, all)
      ensures AllNew(before, Ids(col, docs)) && Through(old(script), cancelled).Some? ==>
                && err.None? && script == Through(old(script), cancelled).value
                && (old(OneEach(collector, had, ids)) ==> OneEach(collector, had, all))
    {
      ghost var mid, soFar := store, collector;
      if AllNew(before, Ids(col, docs)) {
        NewBatch(before, store, col, docs, i, end);
      }
      var part;
      part, err := WriteBatchWithRetry(col, docs[i..end], cancelled);
      WritePart(before, mid, store, had, soFar, collector, col, docs, i, end, ids, part);
      all := ids + part;
    }

    /** All batches of a group in order, up to the first failure. */
    method CreateDocBatch(col: Collection, docs: seq<Doc>, batchSize: nat, cancelled: bool) returns (ids: seq<DocId>, err: Option<Error>)
      requires batchSize > 0
      modifies this
      ensures Added(old(store), store, ids) && From(ids, col, docs)
      ensures err.None? ==> ids == Ids(col, docs) && Covers(collector, old(collector), ids)
      ensures old(AllNew(store, Ids(col, docs))) && ThroughAll(old(script), cancelled, BatchCount(|docs|, batchSize)).Some? ==>
                && err.None? && OneEach(collector, old(collector), ids)
                && script == ThroughAll(old(script), cancelled, BatchCount(|docs|, batchSize)).value
    {
      ids := [];
      AddedNothing(store);
      ghost var goal := ThroughAll(script, cancelled, BatchCount(|docs|, batchSize));
      ghost var open := AllNew(store, Ids(col, docs)) && goal.Some?;
      var i := 0;
      while i < |docs|
        invariant 0 <= i <= |docs| && WroteFirst(old(store), store, old(collector), collector, col, docs, i, ids)
        invariant open ==> OneEach(collector, old(collector), ids) && ThroughAll(script, cancelled, BatchCount(|docs| - i, batchSize)) == goal
      {
        var end := if i + batchSize < |docs| then i + batchSize else |docs|;
        if open {
          NextBatchThrough(script, cancelled, |docs| - i, batchSize);
        }
        ids, err := AppendBatch(col, docs, i, end, ids, cancelled, old(store), old(collector));
        if err.Some? {
          return ids, err;
        }
        i := end;
      }
      assert docs[..i] == docs;
      return ids, None;
    }

    /** A group in batches of its own size, or of the default size. */
    method WriteGroup(g: Group, cancelled: bool) returns (ids: seq<DocId>, err: Option<Error>)
      requires maxDocsPerTxn > 0
      modifies this
      ensures Added(old(store), store, ids) && From(ids, g.col, g.docs)
      ensures err.None? ==> ids == Ids(g.col, g.docs) && Covers(collector, old(collector), ids)
      ensures old(Admits(script, cancelled, store, g, maxDocsPerTxn)) ==>
                && err.None? && OneEach(collector, old(collector), ids)
                && script == Left(old(script), cancelled, g, maxDocsPerTxn)
    {
      var batchSize := if g.batchSize <= 0 then maxDocsPerTxn else g.batchSize;
      ids, err := CreateDocBatch(g.col, g.docs, batchSize, cancelled);
    }

    /** The block document in its own transaction. */
    method StoreBlockDoc(col: Collection, doc: Doc) returns (id: DocId, err: Option<Error>)
      modifies this
      ensures id == DocId(col, doc)
      ensures err.Some? ==> store == old(store)
      ensures script == After(old(script), 1)
      ensures DocId(col, doc) !in old(store) ==> err == Failure(Head(old(script)))
      ensures DocId(col, doc) in old(store) ==> err == if Head(old(script)).setup.Some? then Head(old(script)).setup else Some(AlreadyExists)
      ensures err.None? ==> id !in old(store) && store == old(store) + {id} && collector == old(collector) + [id]
    {
      var reply := Next();
      id := DocId(col, doc);
      if reply.setup.Some? {
        return id, reply.setup;
      }
      if id in store {
        return id, Some(AlreadyExists);
      }
      if reply.add.Some? {
        return id, reply.add;
      }
      collector := collector + [id];
      if reply.commit.Some? {
        return id, reply.commit;
      }
      store := store + {id};
      return id, None;
    }

    /** The block group: stamp, write its first document, record its identifier. */
    method StoreBlockGroup(g: Group, stamper: Stamper?) returns (written: Group, id: DocId, stored: bool, recorded: bool)
      requires g.docs != []
      modifies this, stamper
      ensures !stored ==> store == old(store)
      ensures written.col == g.col && |written.docs| == 1 && id == DocId(g.col, written.docs[0])
      ensures stored ==> id !in old(store) && store == old(store) + {id} && collector == old(collector) + [id]
      ensures stamper == null && stored ==> written == g.(docs := [g.docs[0]]) && recorded
      ensures stamper != null && g.col.BlockCol? && stored ==>
                written == g.(docs := [g.docs[0]]) && stamper.blockId == Some(id) && stamper.txIds == old(stamper.txIds)
      ensures stamper != null && g.col.BlockCol? && Clear(Head(old(script))) && DocId(g.col, g.docs[0]) !in old(store) ==>
                stored && recorded && script == After(old(script), 1)
    {
      var blockDoc := g.docs[0];
      if stamper != null {
        var docs, ok := stamper.StampBeforeWrite(g.col, g.docs);
        if !ok {
          return g.(docs := [blockDoc]), DocId(g.col, blockDoc), false, false;
        }
        blockDoc := docs[0];
      }
      var err;
      id, err := StoreBlockDoc(g.col, blockDoc);
      written, stored, recorded := g.(docs := [blockDoc]), err.None?, err.None?;
      if stamper != null && stored {
        recorded := stamper.RecordDocIDs(g.col, g.docs, [id]);
      }
    }

    /** One group through the protocol: stamp, write, record. */
    method StampWriteRecord(g: Group, stamper: Stamper?, cancelled: bool) returns (written: Group, ids: seq<DocId>, ok: bool)
      requires maxDocsPerTxn > 0
      modifies this, stamper
      ensures Added(old(store), store, ids) && From(ids, g.col, written.docs) && written.col == g.col
      ensures ok ==> ids == Ids(g.col, written.docs) && Covers(collector, old(collector), ids)
      ensures ok && stamper == null ==> written == g
      ensures ok && stamper != null ==>
                && written == g.(docs := StampDocs(g.col, g.docs, stamper.aleParents, old(stamper.blockId), old(stamper.txIds)))
                && stamper.txIds == (if g.col.TxCol? then Record(old(stamper.txIds), written.docs, ids) else old(stamper.txIds))
                && (!g.col.BlockCol? ==> stamper.blockId == old(stamper.blockId))
      ensures stamper != null && old(Stampable(g.col, g.docs, stamper.blockId)
                                     && Admits(script, cancelled, store, Stamped(g, stamper.aleParents, stamper.blockId, stamper.txIds), maxDocsPerTxn))
              ==> ok && OneEach(collector, old(collector), ids) && script == Left(old(script), cancelled, g, maxDocsPerTxn)
    {
      written, ids := g, [];
      AddedNothing(store);
      if stamper != null {
        var docs, stamped := stamper.StampBeforeWrite(g.col, g.docs);
        if !stamped {
          return written, [], false;
        }
        written := g.(docs := docs);
      }
      var err;
      ids, err := WriteGroup(written, cancelled);
      if err.Some? {
        return written, ids, false;
      }
      ok := true;
      if stamper != null {
        ok := stamper.RecordDocIDs(g.col, written.docs, ids);
      }
    }

    /** Every group after the block group, stopping at the first failure. */
    method WriteGroups(groups: seq<Group>, stamper: Stamper?, cancelled: bool)
      returns (written: seq<Group>, ids: seq<DocId>, others: map<Collection, seq<DocId>>, ok: bool)
      requires maxDocsPerTxn > 0
      modifies this, stamper
      ensures Added(old(store), store, ids) && Filed(others, ids)
      ensures ok ==> ids == AllIds(written) && Covers(collector, old(collector), ids) && |written| == |groups|
      ensures ok && stamper == null ==> written == groups
      ensures ok && stamper != null && old(stamper.txIds) == map[] && NoBlockGroup(groups) ==>
                written == StampAll(groups, stamper.aleParents, old(stamper.blockId))
      ensures stamper != null
              && old(Smooth(script, cancelled, maxDocsPerTxn, store, groups, stamper.aleParents, stamper.blockId, stamper.txIds)) ==>
                ok && OneEach(collector, old(collector), ids)
    {
      written, ids, others := [], [], map[];
      AddedNothing(store);
      ghost var smooth := stamper != null
                          && Smooth(script, cancelled, maxDocsPerTxn, store, groups, stamper.aleParents, stamper.blockId, stamper.txIds);
      for i := 0 to |groups|
        invariant |written| == i && ids == AllIds(written) && Filed(others, ids)
        invariant Added(old(store), store, ids) && Covers(collector, old(collector), ids)
        invariant stamper == null ==> written == groups[..i]
        invariant stamper != null && old(stamper.txIds) == map[] && NoBlockGroup(groups) ==>
                    && stamper.blockId == old(stamper.blockId)
                    && StampedSoFar(groups, i, written, stamper.aleParents, stamper.blockId, stamper.txIds)
        invariant smooth ==> OneEach(collector, old(collector), ids) && ThroughAll(script, cancelled, Batches(groups[i..], maxDocsPerTxn)).Some?
      {
        ghost var mid, soFar := store, collector;
        ghost var txIds := if stamper != null then stamper.txIds else map[];
        if smooth {
          NewGroup(old(store), store, groups, i, written, stamper.aleParents, stamper.blockId, stamper.txIds);
          NextGroupThrough(script, cancelled, groups, i, maxDocsPerTxn);
        }
        var g, part, done := StampWriteRecord(groups[i], stamper, cancelled);
        AddedAppend(old(store), mid, store, ids, part);
        FiledAppend(others, ids, g.col, part);
        others := File(others, g.col, part);
        ids := ids + part;
        if !done {
          return written, ids, others, false;
        }
        CoversAppend(old(collector), soFar, collector, AllIds(written), part);
        AllIdsAppend(written, g);
        if stamper != null && old(stamper.txIds) == map[] && NoBlockGroup(groups) {
          StampedMore(groups, i, written, stamper.aleParents, stamper.blockId, txIds, g);
        }
        TakeMore(groups, i);
        written := written + [g];
      }
      assert groups[..|groups|] == groups;
      return written, ids, others, true;
    }
  }

  /** The first i groups were written as stamped, and the index holds exactly their transactions. */
  ghost predicate StampedSoFar(groups: seq<Group>, i: nat, written: seq<Group>, parents: seq<string>, blockId: Option<DocId>,
                               txIds: map<string, DocId>) {
    i <= |groups| && written == StampAll(groups[..i], parents, blockId) && txIds == TxIndex(written)
  }

  lemma StampedMore(groups: seq<Group>, i: nat, written: seq<Group>, parents: seq<string>, blockId: Option<DocId>,
                    txIds: map<string, DocId>, g: Group)
    requires i < |groups| && StampedSoFar(groups, i, written, parents, blockId, txIds)
    requires g == groups[i].(docs := StampDocs(groups[i].col, groups[i].docs, parents, blockId, txIds))
    ensures StampedSoFar(groups, i + 1, written + [g], parents, blockId,
                         if g.col.TxCol? then Record(txIds, g.docs, Ids(g.col, g.docs)) else txIds)
  {
    assert groups[..i + 1][..i] == groups[..i];
    assert (written + [g])[..i] == written;
  }

  lemma TakeMore(groups: seq<Group>, i: nat)
    requires i < |groups|
    ensures groups[..i + 1] == groups[..i] + [groups[i]]
  {
  }

  lemma AllIdsAppend(written: seq<Group>, g: Group)
    ensures AllIds(written + [g]) == AllIds(written) + Ids(g.col, g.docs)
  {
    assert (written + [g])[..|written|] == written;
  }

  /** A group as the stamper writes it. */
  function Stamped(g: Group, parents: seq<string>, blockId: Option<DocId>, txIds: map<string, DocId>): Group {
    g.(docs := StampDocs(g.col, g.docs, parents, blockId, txIds))
  }

  /** The first remaining group is let through, and after it the others. */
  lemma NextGroupThrough(script: seq<Reply>, cancelled: bool, groups: seq<Group>, i: nat, maxDocs: nat)
    requires maxDocs > 0 && i < |groups| && ThroughAll(script, cancelled, Batches(groups[i..], maxDocs)).Some?
    ensures ThroughAll(script, cancelled, GroupBatches(groups[i], maxDocs)).Some?
    ensures ThroughAll(Left(script, cancelled, groups[i], maxDocs), cancelled, Batches(groups[i + 1..], maxDocs)).Some?
  {
    assert groups[i..][1..] == groups[i + 1..];
    RepeatBoth(Pass(cancelled), script, GroupBatches(groups[i], maxDocs), Batches(groups[i + 1..], maxDocs));
  }

  /** Nothing stands in the way: every batch is let through, the stamper is fresh, the groups well formed, the documents new. */
  ghost predicate Smooth(script: seq<Reply>, cancelled: bool, maxDocs: nat, store: set<DocId>, groups: seq<Group>, parents: seq<string>,
                         blockId: Option<DocId>, txIds: map<string, DocId>)
    requires maxDocs > 0
  {
    && ThroughAll(script, cancelled, Batches(groups, maxDocs)).Some? && txIds == map[] && NoBlockGroup(groups)
    && (forall i :: 0 <= i < |groups| ==> Stampable(groups[i].col, groups[i].docs, blockId))
    && AllNew(store, AllIds(StampAll(groups, parents, blockId)))
  }

  lemma NewBatch(before: set<DocId>, now: set<DocId>, col: Collection, docs: seq<Doc>, i: nat, end: nat)
    requires i <= end <= |docs| && AllNew(before, Ids(col, docs)) && Added(before, now, Ids(col, docs[..i]))
    ensures AllNew(now, Ids(col, docs[i..end]))
  {
    assert Ids(col, docs) == Ids(col, docs[..i]) + Ids(col, docs[i..end]) + Ids(col, docs[end..]);
    NewRest(before, now, Ids(col, docs[..i]), Ids(col, docs[i..end]), Ids(col, docs[end..]));
  }

  lemma {:induction false} AllIdsSplit(groups: seq<Group>, i: nat) returns (rest: seq<DocId>)
    requires i < |groups|
    ensures AllIds(groups) == AllIds(groups[..i]) + Ids(groups[i].col, groups[i].docs) + rest
    decreases |groups|
  {
    var n := |groups| - 1;
    if i == n {
      rest := [];
    } else {
      rest := AllIdsSplit(groups[..n], i);
      assert groups[..n][..i] == groups[..i];
      rest := rest + Ids(groups[n].col, groups[n].docs);
    }
  }

  lemma NewGroup(before: set<DocId>, now: set<DocId>, groups: seq<Group>, i: nat, written: seq<Group>, parents: seq<string>,
                 blockId: Option<DocId>, txIds: map<string, DocId>)
    requires i < |groups| && StampedSoFar(groups, i, written, parents, blockId, txIds) && Added(before, now, AllIds(written))
    requires AllNew(before, AllIds(StampAll(groups, parents, blockId)))
    ensures AllNew(now, Ids(groups[i].col, StampDocs(groups[i].col, groups[i].docs, parents, blockId, txIds)))
  {
    var all := StampAll(groups, parents, blockId);
    StampAllAt(groups, parents, blockId, i);
    var rest := AllIdsSplit(all, i);
    NewRest(before, now, AllIds(written), Ids(all[i].col, all[i].docs), rest);
  }

  function File(others: map<Collection, seq<DocId>>, col: Collection, part: seq<DocId>): map<Collection, seq<DocId>> {
    others[col := Under(others, col) + part]
  }

  lemma FiledAppend(others: map<Collection, seq<DocId>>, ids: seq<DocId>, col: Collection, part: seq<DocId>)
    requires Filed(others, ids) && forall x :: x in part ==> x.col == col
    ensures Filed(File(others, col, part), ids + part)
  {
    forall c ensures Under(File(others, col, part), c) == OfCollection(ids + part, c) {
      OfCollectionAppend(ids, part, c);
      PartOfCollection(part, col, c);
      assert Under(others, c) == OfCollection(ids, c);
    }
  }

  ghost predicate NoBlockGroup(groups: seq<Group>) {
    forall i :: 0 <= i < |groups| ==> !groups[i].col.BlockCol?
  }

  /** The identifiers of all documents of these groups, in order. */
  function AllIds(groups: seq<Group>): seq<DocId> {
    if groups == [] then []
    else AllIds(groups[..|groups| - 1]) + Ids(groups[|groups| - 1].col, groups[|groups| - 1].docs)
  }

  function Under(others: map<Collection, seq<DocId>>, col: Collection): seq<DocId> {
    if col in others then others[col] else []
  }

  /** Those of a collection, in order. */
  function OfCollection(ids: seq<DocId>, col: Collection): seq<DocId> {
    if ids == [] then []
    else OfCollection(ids[..|ids| - 1], col) + if ids[|ids| - 1].col == col then [ids[|ids| - 1]] else []
  }

  /** Each collection files exactly its own identifiers, each as often as it occurs and in order. */
  ghost predicate Filed(others: map<Collection, seq<DocId>>, ids: seq<DocId>) {
    forall col :: Under(others, col) == OfCollection(ids, col)
  }

  lemma {:induction false} OfCollectionAppend(ids: seq<DocId>, part: seq<DocId>, col: Collection)
    ensures OfCollection(ids + part, col) == OfCollection(ids, col) + OfCollection(part, col)
    decreases |part|
  {
    if part == [] {
      assert ids + part == ids;
    } else {
      assert (ids + part)[..|ids + part| - 1] == ids + part[..|part| - 1];
      OfCollectionAppend(ids, part[..|part| - 1], col);
    }
  }

  /** A written part belongs to one collection. */
  lemma {:induction false} PartOfCollection(part: seq<DocId>, own: Collection, col: Collection)
    requires forall i :: 0 <= i < |part| ==> part[i].col == own
    ensures col == own ==> OfCollection(part, col) == part
    ensures col != own ==> OfCollection(part, col) == []
    decreases |part|
  {
    if part != [] {
      var n := |part| - 1;
      PartOfCollection(part[..n], own, col);
      assert part[n].col == own;
      assert part[..n] + [part[n]] == part;
    }
  }

  lemma {:induction false} CollectionCount(ids: seq<DocId>, x: DocId)
    ensures multiset(OfCollection(ids, x.col))[x] == multiset(ids)[x]
    decreases |ids|
  {
    if ids != [] {
      CollectionCount(ids[..|ids| - 1], x);
      assert ids == ids[..|ids| - 1] + [ids[|ids| - 1]];
    }
  }

  // ---------------------------------------------------------------- storing a block

  /** What a store reports to the tracker. */
  datatype Created = Created(blockId: DocId, others: map<Collection, seq<DocId>>)

  /** How often a report names a document. */
  ghost function Named(created: Created, x: DocId): nat {
    (if x == created.blockId then 1 else 0) + multiset(Under(created.others, x.col))[x]
  }

  /** A report names each document as often as these identifiers do, and nothing under a foreign collection; no report names nothing. */
  ghost predicate TracksExactly(created: Option<Created>, ids: seq<DocId>) {
    if created.None? then ids == []
    else
      && (forall x :: Named(created.value, x) == multiset(ids)[x])
      && (forall c, x :: x in Under(created.value.others, c) ==> x.col == c)
  }

  predicate HasBlock(groups: seq<Group>) {
    groups != [] && groups[0].docs != []
  }

  /** The converter puts the block group first and only there. */
  ghost predicate ConverterOrder(groups: seq<Group>) {
    HasBlock(groups) && groups[0].col.BlockCol? && NoBlockGroup(groups[1..])
  }

  /** The block group stands for its first document. */
  function BlockGroup(groups: seq<Group>): Group
    requires HasBlock(groups)
  {
    groups[0].(docs := [groups[0].docs[0]])
  }

  /** The groups as an error-free store writes them. */
  function StoredGroups(groups: seq<Group>, parents: seq<string>): seq<Group>
    requires HasBlock(groups)
  {
    [BlockGroup(groups)] + StampAll(groups[1..], parents, Some(DocId(groups[0].col, groups[0].docs[0])))
  }

  /** The gate: no batch error, and as many CIDs as documents. */
  predicate MaySign(errors: bool, collector: seq<DocId>, all: seq<DocId>) {
    !errors && |collector| == |all|
  }

  /** Equal length is enough: a collector that covers every document and is no longer holds exactly their CIDs. */
  lemma LengthTestSuffices(collector: seq<DocId>, all: seq<DocId>)
    requires multiset(collector) >= multiset(all) && |collector| == |all|
    ensures multiset(collector) == multiset(all)
  {
    var rest := multiset(collector) - multiset(all);
    assert multiset(collector) == rest + multiset(all);
    assert |multiset(collector)| == |rest| + |multiset(all)|;
    assert rest == multiset{};
  }

  /** Nothing stands in the way of a whole block: its own document goes through at once, the batches after it within their retries. */
  ghost predicate ClearToStore(script: seq<Reply>, cancelled: bool, maxDocs: nat, store: set<DocId>, groups: seq<Group>, parents: seq<string>,
                               blockId: Option<DocId>, txIds: map<string, DocId>)
    requires maxDocs > 0
  {
    && ConverterOrder(groups) && blockId == None && txIds == map[]
    && Clear(Head(script)) && ThroughAll(After(script, 1), cancelled, Batches(groups[1..], maxDocs)).Some?
    && AllNew(store, AllIds(StoredGroups(groups, parents)))
    && forall i :: 0 < i < |groups| ==> Stampable(groups[i].col, groups[i].docs, Some(DocId(BlockCol, groups[0].docs[0])))
  }

  lemma StoredIds(groups: seq<Group>, parents: seq<string>)
    requires HasBlock(groups)
    ensures var id := DocId(groups[0].col, groups[0].docs[0]);
            AllIds(StoredGroups(groups, parents)) == [id] + AllIds(StampAll(groups[1..], parents, Some(id)))
  {
    AllIdsPrepend(BlockGroup(groups), StampAll(groups[1..], parents, Some(DocId(groups[0].col, groups[0].docs[0]))));
  }

  lemma NewHead(store: set<DocId>, id: DocId, rest: seq<DocId>)
    requires AllNew(store, [id] + rest)
    ensures id !in store && AllNew(store + {id}, rest)
  {
    assert ([id] + rest)[0] == id;
    assert [id] + rest + [] == [id] + rest;
    assert Elements([id]) == {id};
    NewRest(store, store + {id}, [id], rest, []);
  }

  /** The block document is new, and once it is written nothing stands in the way of the rest. */
  ghost predicate BlockThenSmooth(script: seq<Reply>, cancelled: bool, maxDocs: nat, store: set<DocId>, groups: seq<Group>, parents: seq<string>,
                                  txIds: map<string, DocId>)
    requires maxDocs > 0
  {
    && HasBlock(groups) && groups[0].col.BlockCol? && Clear(Head(script)) && txIds == map[]
    && var id := DocId(BlockCol, groups[0].docs[0]);
    && id !in store && Smooth(After(script, 1), cancelled, maxDocs, store + {id}, groups[1..], parents, Some(id), map[])
  }

  lemma RestIsSmooth(script: seq<Reply>, cancelled: bool, maxDocs: nat, store: set<DocId>, groups: seq<Group>, parents: seq<string>)
    requires maxDocs > 0 && ClearToStore(script, cancelled, maxDocs, store, groups, parents, None, map[])
    ensures BlockThenSmooth(script, cancelled, maxDocs, store, groups, parents, map[])
  {
    var id := DocId(BlockCol, groups[0].docs[0]);
    StoredIds(groups, parents);
    NewHead(store, id, AllIds(StampAll(groups[1..], parents, Some(id))));
  }

  /** The writing part of a store: the block group, then the others, up to the first failure. */
  method WriteBlock(w: Writer, groups: seq<Group>, stamper: Stamper?, cancelled: bool)
    returns (created: Option<Created>, failed: bool, block: Group, rest: seq<Group>, ids: seq<DocId>)
    requires w.maxDocsPerTxn > 0 && w.collector == [] && HasBlock(groups)
    modifies w, stamper
    ensures created.None? ==> failed
    ensures Added(old(w.store), w.store, ids) && TracksExactly(created, ids)
    ensures !failed ==>
              && |rest| == |groups| - 1 && Ids(block.col, block.docs) == [created.value.blockId]
              && ids == [created.value.blockId] + AllIds(rest) && Covers(w.collector, [], ids)
    ensures !failed && stamper == null ==> block == BlockGroup(groups) && rest == groups[1..]
    ensures !failed && stamper != null && old(stamper.txIds) == map[] && ConverterOrder(groups) ==>
              && block == BlockGroup(groups) && created.value.blockId == DocId(BlockCol, groups[0].docs[0])
              && rest == StampAll(groups[1..], stamper.aleParents, Some(created.value.blockId))
    ensures stamper != null && old(BlockThenSmooth(w.script, cancelled, w.maxDocsPerTxn, w.store, groups, stamper.aleParents, stamper.txIds)) ==>
              !failed && OneEach(w.collector, [], ids)
  {
    AddedNothing(w.store);
    ghost var smooth := stamper != null && BlockThenSmooth(w.script, cancelled, w.maxDocsPerTxn, w.store, groups, stamper.aleParents, stamper.txIds);
    var blockId, stored, recorded;
    block, blockId, stored, recorded := w.StoreBlockGroup(groups[0], stamper);
    if !stored {
      return None, true, block, [], [];
    }
    ghost var mid := w.store;
    assert smooth ==> Smooth(w.script, cancelled, w.maxDocsPerTxn, w.store, groups[1..], stamper.aleParents, stamper.blockId, stamper.txIds);
    var others, done;
    rest, ids, others, done := w.WriteGroups(groups[1..], stamper, cancelled);
    failed := !recorded || !done;
    created := Some(Created(blockId, others));
    BlockFirst(old(w.store), mid, w.store, blockId, ids, others, w.collector);
    ids := [blockId] + ids;
  }

  lemma AddedOnce(before: set<DocId>, after: set<DocId>, ids: seq<DocId>)
    requires Added(before, after, ids)
    ensures forall x :: multiset(ids)[x] == if x in after && x !in before then 1 else 0
  {
    forall x ensures multiset(ids)[x] == if x in after && x !in before then 1 else 0 {
      CountOnce(ids, x);
    }
  }

  lemma {:induction false} CountOnce(ids: seq<DocId>, x: DocId)
    requires DistinctIds(ids)
    ensures multiset(ids)[x] == if x in ids then 1 else 0
    decreases |ids|
  {
    if ids != [] {
      var n := |ids| - 1;
      CountOnce(ids[..n], x);
      assert ids == ids[..n] + [ids[n]];
    }
  }

  lemma AddedFirst(before: set<DocId>, mid: set<DocId>, after: set<DocId>, id: DocId, ids: seq<DocId>)
    requires id !in before && mid == before + {id} && Added(mid, after, ids)
    ensures Added(before, after, [id] + ids)
  {
    assert Elements([id]) == {id};
    AddedAppend(before, mid, after, [id], ids);
  }

  lemma TrackedFirst(id: DocId, others: map<Collection, seq<DocId>>, ids: seq<DocId>)
    requires Filed(others, ids)
    ensures TracksExactly(Some(Created(id, others)), [id] + ids)
  {
    forall x ensures Named(Created(id, others), x) == multiset([id] + ids)[x] {
      CollectionCount(ids, x);
    }
    forall c, x | x in Under(others, c) ensures x.col == c {
      CollectionOwns(ids, c, x);
    }
  }

  lemma {:induction false} CollectionOwns(ids: seq<DocId>, col: Collection, x: DocId)
    requires x in OfCollection(ids, col)
    ensures x.col == col
    decreases |ids|
  {
    var n := |ids| - 1;
    if x in OfCollection(ids[..n], col) {
      CollectionOwns(ids[..n], col, x);
    }
  }

  /** The report of the block document and the others, read off the report of the others. */
  lemma BlockFirst(before: set<DocId>, mid: set<DocId>, after: set<DocId>, id: DocId, ids: seq<DocId>, others: map<Collection, seq<DocId>>,
                   collector: seq<DocId>)
    requires id !in before && mid == before + {id} && Added(mid, after, ids) && Filed(others, ids)
    ensures Added(before, after, [id] + ids) && TracksExactly(Some(Created(id, others)), [id] + ids)
    ensures Covers(collector, [id], ids) ==> Covers(collector, [], [id] + ids)
  {
    AddedFirst(before, mid, after, id, ids);
    TrackedFirst(id, others, ids);
    CollectedFirst(id, collector, ids);
  }

  /** The block document's CID comes first, then the others'. */
  lemma CollectedFirst(id: DocId, collector: seq<DocId>, ids: seq<DocId>)
    ensures Covers(collector, [id], ids) ==> Covers(collector, [], [id] + ids)
  {
    if Covers(collector, [id], ids) {
      CoversAppend([], [id], collector, [id], ids);
    }
  }

  /** Signing is refused after an error or when CIDs and documents are not equally many. */
  method SignStoredBlock(failed: bool, collector: seq<DocId>, ids: seq<DocId>, canSign: bool) returns (signed: Option<seq<DocId>>)
    requires !failed ==> Covers(collector, [], ids)
    ensures signed.Some? <==> !failed && canSign && |collector| == |ids|
    ensures signed.Some? ==> multiset(signed.value) == multiset(ids)
  {
    signed := None;
    if MaySign(failed, collector, ids) && canSign {
      LengthTestSuffices(collector, ids);
      signed := Some(collector);
    }
  }

  /** Each document added is named once by the report, and no other. */
  lemma ReportedOnce(before: set<DocId>, after: set<DocId>, created: Option<Created>, ids: seq<DocId>)
    requires Added(before, after, ids) && TracksExactly(created, ids)
    ensures before <= after && forall x :: x in ids ==> x in after && x !in before
    ensures created.None? ==> after == before
    ensures created.Some? ==> forall x :: Named(created.value, x) == if x in after && x !in before then 1 else 0
  {
    AddedOnce(before, after, ids);
  }

  /**
   * Store one block. Tracked identifiers are exactly what was committed, also on
   * partial failure; a signature is made only over exactly the CIDs of every document
   * of every group, all committed by this call; and an error-free store wrote the
   * groups as stamped.
   */
  method Store(w: Writer, groups: seq<Group>, stamper: Stamper?, cancelled: bool, canSign: bool)
    returns (created: Option<Created>, failed: bool, written: seq<Group>, signed: Option<seq<DocId>>)
    requires w.maxDocsPerTxn > 0
    modifies w, stamper
    ensures created.None? ==> failed && signed == None && w.store == old(w.store)
    ensures created.Some? ==> forall x :: Named(created.value, x) == if x in w.store && x !in old(w.store) then 1 else 0
    ensures created.Some? ==> forall c, x :: x in Under(created.value.others, c) ==> x.col == c
    ensures old(w.store) <= w.store
    ensures signed.Some? ==>
              && multiset(signed.value) == multiset(AllIds(written))
              && forall x :: x in AllIds(written) ==> x in w.store && x !in old(w.store)
    ensures signed.Some? <==> !failed && canSign && |w.collector| == |AllIds(written)|
    ensures !failed ==> created.Some? && HasBlock(groups) && |written| == |groups|
    ensures !failed && stamper == null ==> written == [BlockGroup(groups)] + groups[1..]
    ensures !failed && stamper != null && old(stamper.txIds) == map[] && ConverterOrder(groups) ==>
              && created.value.blockId == DocId(BlockCol, groups[0].docs[0])
              && written == StoredGroups(groups, stamper.aleParents)
    ensures stamper != null && old(ClearToStore(w.script, cancelled, w.maxDocsPerTxn, w.store, groups, stamper.aleParents, stamper.blockId, stamper.txIds)) ==>
              !failed && (canSign ==> signed.Some?)
  {
    if stamper != null && ClearToStore(w.script, cancelled, w.maxDocsPerTxn, w.store, groups, stamper.aleParents, stamper.blockId, stamper.txIds) {
      RestIsSmooth(w.script, cancelled, w.maxDocsPerTxn, w.store, groups, stamper.aleParents);
    }
    w.collector := [];
    if !HasBlock(groups) {
      return None, true, [], None;
    }
    var block, rest, ids;
    created, failed, block, rest, ids := WriteBlock(w, groups, stamper, cancelled);
    written := [block] + rest;
    AllIdsPrepend(block, rest);
    ReportedOnce(old(w.store), w.store, created, ids);
    signed := SignStoredBlock(failed, w.collector, ids, canSign);
  }

  lemma {:induction false} AllIdsPrepend(block: Group, rest: seq<Group>)
    ensures AllIds([block] + rest) == Ids(block.col, block.docs) + AllIds(rest)
    decreases |rest|
  {
    if rest == [] {
      assert [block] + rest == [block];
    } else {
      var n := |rest| - 1;
      calc {
        AllIds([block] + rest);
        { assert [block] + rest == [block] + rest[..n] + [rest[n]]; }
        AllIds([block] + rest[..n] + [rest[n]]);
        { AllIdsAppend([block] + rest[..n], rest[n]); }
        AllIds([block] + rest[..n]) + Ids(rest[n].col, rest[n].docs);
        { AllIdsPrepend(block, rest[..n]); }
        Ids(block.col, block.docs) + AllIds(rest[..n]) + Ids(rest[n].col, rest[n].docs);
        Ids(block.col, block.docs) + AllIds(rest);
      }
    }
  }

  /** Links of a stored block, read off what an error-free store wrote. */
  lemma StoredLinksCorrect(groups: seq<Group>, parents: seq<string>, i: nat, j: nat)
    requires ConverterOrder(groups) && DistinctTxs(groups[1..]) && Unlinked(groups[1..])
    requires 0 < i < |groups| && j < |groups[i].docs|
    ensures var stored := StoredGroups(groups, parents);
            && |stored| == |groups| && |stored[i].docs| == |groups[i].docs|
            && DocLinked(stored[1..i], groups[i].col, stored[i].docs[j], ParentRef(parents, j), DocId(BlockCol, groups[0].docs[0]))
  {
    var stored := StoredGroups(groups, parents);
    var rest := StampAll(groups[1..], parents, Some(DocId(BlockCol, groups[0].docs[0])));
    LinksCorrect(groups[1..], parents, DocId(BlockCol, groups[0].docs[0]), i - 1, j);
    assert stored[1..i] == rest[..i - 1];
  }
}
