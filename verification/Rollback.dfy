/**
 * The rollback primitive: soft-delete proven orphans, highest height first, children
 * first and the block document last, so that an interrupted rollback can be resumed.
 */
module Rollback {
  import opened Chain

  /** A visible document. Only block documents use the two hashes. */
  datatype Doc = Doc(col: string, num: int, id: nat, hash: Hash, parent: Hash)

  /**
   * The collections of a chain: all of them in registered order, the one that holds
   * block documents, and the ones the range query reads.
   */
  datatype Layout = Layout(known: seq<string>, blockCol: string, queried: seq<string>)

  predicate NoRepeat(s: seq<string>) {
    forall i, j :: 0 <= i < j < |s| ==> s[i] != s[j]
  }

  predicate ValidLayout(l: Layout) {
    NoRepeat(l.known) && NoRepeat(l.queried) && l.blockCol in l.queried
  }

  // ---------------------------------------------------------------- queries

  function Rows(l: Layout, docs: set<Doc>, h: int): set<Doc> {
    set d | d in docs && d.col == l.blockCol && d.num == h
  }

  /** The stored-hash query on documents. */
  function DocHash(l: Layout, docs: set<Doc>, h: int): Query {
    var rows := Rows(l, docs, h);
    if rows == {} then Answer(NoHash)
    else if exists d :: d in rows && rows == {d} then
      var d :| d in rows && rows == {d};
      Answer(d.hash)
    else QueryError
  }

  function HeightDocs(l: Layout, docs: set<Doc>, h: int): set<Doc> {
    set d | d in docs && d.col in l.queried && d.num == h
  }

  /** A verified hash exists for this height and a different, non-empty hash is stored. */
  predicate IsOrphan(l: Layout, docs: set<Doc>, hashes: map<int, Hash>, h: int) {
    && h in hashes && hashes[h] != NoHash
    && DocHash(l, docs, h).Answer? && DocHash(l, docs, h).hash != NoHash && DocHash(l, docs, h).hash != hashes[h]
  }

  /** Exactly one block document of this height is stored, with a hash other than the verified one. */
  lemma OrphanIff(l: Layout, docs: set<Doc>, hashes: map<int, Hash>, h: int)
    ensures IsOrphan(l, docs, hashes, h) <==>
              && h in hashes && hashes[h] != NoHash
              && exists d :: d in docs && d.col == l.blockCol && d.num == h && d.hash != NoHash && d.hash != hashes[h]
                             && forall e :: e in docs && e.col == l.blockCol && e.num == h ==> e == d
  {
    var rows := Rows(l, docs, h);
    if IsOrphan(l, docs, hashes, h) {
      var d :| d in rows && rows == {d};
      forall e | e in docs && e.col == l.blockCol && e.num == h ensures e == d {
        assert e in rows;
      }
    }
    if d :| d in docs && d.col == l.blockCol && d.num == h && forall e :: e in docs && e.col == l.blockCol && e.num == h ==> e == d {
      assert rows == {d};
    }
  }

  /** Every verified height of the range can be read and holds at most one block document. */
  ghost predicate Readable(l: Layout, docs: set<Doc>, from: int, to: int, hashes: map<int, Hash>, queryFails: int -> bool) {
    forall h :: from <= h <= to && h in hashes && hashes[h] != NoHash ==> !queryFails(h) && DocHash(l, docs, h).Answer?
  }

  lemma ReadableLower(l: Layout, docs: set<Doc>, h: int, to: int, hashes: map<int, Hash>, queryFails: int -> bool)
    requires Readable(l, docs, h + 1, to, hashes, queryFails)
    requires h in hashes && hashes[h] != NoHash ==> !queryFails(h) && DocHash(l, docs, h).Answer?
    ensures Readable(l, docs, h, to, hashes, queryFails)
  {
  }

  /** A failed read of a verified height inside the range. */
  lemma NotReadable(l: Layout, docs: set<Doc>, from: int, to: int, hashes: map<int, Hash>, queryFails: int -> bool, h: int)
    requires from <= h <= to && h in hashes && hashes[h] != NoHash && (queryFails(h) || DocHash(l, docs, h).QueryError?)
    ensures !Readable(l, docs, from, to, hashes, queryFails)
  {
  }

  /** What a rollback of [from, to] must delete. */
  ghost function Doomed(l: Layout, docs: set<Doc>, from: int, to: int, hashes: map<int, Hash>): set<Doc> {
    set d | d in docs && d.col in l.queried && from <= d.num <= to && IsOrphan(l, docs, hashes, d.num)
  }

  // ---------------------------------------------------------------- delete order

  /** Registered children that are present, last registered first. */
  function Children(known: seq<string>, blockCol: string, cols: seq<string>): seq<string> {
    if known == [] then []
    else Children(known[1..], blockCol, cols) + (if known[0] != blockCol && known[0] in cols then [known[0]] else [])
  }

  /** Present collections nobody registered, in the order given. */
  function Strangers(known: seq<string>, blockCol: string, cols: seq<string>): seq<string> {
    if cols == [] then []
    else Strangers(known, blockCol, cols[..|cols| - 1])
         + (if cols[|cols| - 1] != blockCol && cols[|cols| - 1] !in known then [cols[|cols| - 1]] else [])
  }

  function Ordered(known: seq<string>, blockCol: string, cols: seq<string>): seq<string> {
    Children(known, blockCol, cols) + Strangers(known, blockCol, cols) + (if blockCol in cols then [blockCol] else [])
  }

  lemma {:induction false} ChildrenCount(known: seq<string>, blockCol: string, cols: seq<string>, c: string)
    requires NoRepeat(known)
    ensures multiset(Children(known, blockCol, cols))[c] == (if c in known && c != blockCol && c in cols then 1 else 0)
  {
    if known != [] {
      assert known == [known[0]] + known[1..];
      ChildrenCount(known[1..], blockCol, cols, c);
    }
  }

  lemma {:induction false} StrangersCount(known: seq<string>, blockCol: string, cols: seq<string>, c: string)
    requires NoRepeat(cols)
    ensures multiset(Strangers(known, blockCol, cols))[c] == (if c in cols && c != blockCol && c !in known then 1 else 0)
  {
    if cols != [] {
      assert cols == cols[..|cols| - 1] + [cols[|cols| - 1]];
      StrangersCount(known, blockCol, cols[..|cols| - 1], c);
    }
  }

  lemma NoRepeatCount(s: seq<string>, c: string)
    requires NoRepeat(s)
    ensures multiset(s)[c] == (if c in s then 1 else 0)
  {
    if s != [] {
      var init := s[..|s| - 1];
      assert s == init + [s[|s| - 1]];
      NoRepeatCount(init, c);
    }
  }

  /** The order is a permutation of the collections, with the block collection last. */
  lemma OrderedIsPermutation(known: seq<string>, blockCol: string, cols: seq<string>)
    requires NoRepeat(known) && NoRepeat(cols)
    ensures multiset(Ordered(known, blockCol, cols)) == multiset(cols)
    ensures blockCol in cols ==> Ordered(known, blockCol, cols)[|Ordered(known, blockCol, cols)| - 1] == blockCol
    ensures forall i :: 0 <= i < |Ordered(known, blockCol, cols)| - 1 ==> Ordered(known, blockCol, cols)[i] != blockCol
  {
    var o := Ordered(known, blockCol, cols);
    forall c ensures multiset(o)[c] == multiset(cols)[c] {
      OrderedCount(known, blockCol, cols, c);
    }
    var kids := Children(known, blockCol, cols) + Strangers(known, blockCol, cols);
    ChildrenFrom(known, blockCol, cols);
    StrangersFrom(known, blockCol, cols);
    forall i | 0 <= i < |o| - 1 ensures o[i] != blockCol {
      assert o[i] == kids[i];
    }
  }

  lemma OrderedCount(known: seq<string>, blockCol: string, cols: seq<string>, c: string)
    requires NoRepeat(known) && NoRepeat(cols)
    ensures multiset(Ordered(known, blockCol, cols))[c] == multiset(cols)[c]
  {
    ChildrenCount(known, blockCol, cols, c);
    StrangersCount(known, blockCol, cols, c);
    NoRepeatCount(cols, c);
  }

  /** Of two registered children the later registered one, which depends on the earlier, goes first. */
  lemma {:induction false} DependentsFirst(known: seq<string>, blockCol: string, cols: seq<string>, i: nat, j: nat)
    requires i < j < |known| && known[i] != blockCol && known[j] != blockCol && known[i] in cols && known[j] in cols
    ensures exists a, b :: 0 <= a < b < |Children(known, blockCol, cols)|
                           && Children(known, blockCol, cols)[a] == known[j] && Children(known, blockCol, cols)[b] == known[i]
  {
    var rest := Children(known[1..], blockCol, cols);
    if i > 0 {
      DependentsFirst(known[1..], blockCol, cols, i - 1, j - 1);
      var a, b :| 0 <= a < b < |rest| && rest[a] == known[j] && rest[b] == known[i];
      assert Children(known, blockCol, cols)[a] == known[j] && Children(known, blockCol, cols)[b] == known[i];
    } else {
      ChildPresent(known[1..], blockCol, cols, j - 1);
      var a :| 0 <= a < |rest| && rest[a] == known[j];
      assert Children(known, blockCol, cols)[a] == known[j] && Children(known, blockCol, cols)[|rest|] == known[0];
    }
  }

  lemma {:induction false} ChildPresent(known: seq<string>, blockCol: string, cols: seq<string>, j: nat)
    requires j < |known| && known[j] != blockCol && known[j] in cols
    ensures known[j] in Children(known, blockCol, cols)
  {
    if j > 0 {
      ChildPresent(known[1..], blockCol, cols, j - 1);
    }
  }

  lemma {:induction false} ChildrenFrom(known: seq<string>, blockCol: string, cols: seq<string>)
    ensures forall c :: c in Children(known, blockCol, cols) <==> c in known && c != blockCol && c in cols
  {
    if known != [] {
      ChildrenFrom(known[1..], blockCol, cols);
    }
  }

  lemma {:induction false} StrangersFrom(known: seq<string>, blockCol: string, cols: seq<string>)
    ensures forall c :: c in Strangers(known, blockCol, cols) <==> c in cols && c != blockCol && c !in known
  {
    if cols != [] {
      StrangersFrom(known, blockCol, cols[..|cols| - 1]);
    }
  }

  /** A collection not yet ordered when its turn comes is one nobody registered. */
  lemma StrangersMore(known: seq<string>, blockCol: string, cols: seq<string>, j: nat)
    requires NoRepeat(cols) && j < |cols|
    ensures var ordered := Children(known, blockCol, cols) + Strangers(known, blockCol, cols[..j]);
            Children(known, blockCol, cols) + Strangers(known, blockCol, cols[..j + 1]) ==
            if cols[j] != blockCol && cols[j] !in ordered then ordered + [cols[j]] else ordered
  {
    ChildrenFrom(known, blockCol, cols);
    StrangersFrom(known, blockCol, cols[..j]);
    assert cols[..j + 1][..j] == cols[..j];
  }

  /** The two passes over the registered and the given collections. */
  method DeleteOrder(known: seq<string>, blockCol: string, cols: seq<string>) returns (ordered: seq<string>)
    requires NoRepeat(cols)
    ensures ordered == Ordered(known, blockCol, cols)
  {
    ordered := [];
    var i := |known|;
    while i > 0
      invariant 0 <= i <= |known|
      invariant ordered == Children(known[i..], blockCol, cols)
    {
      i := i - 1;
      if known[i] != blockCol && known[i] in cols {
        ordered := ordered + [known[i]];
      }
      assert known[i..][1..] == known[i + 1..];
    }
    assert known[0..] == known;
    var j := 0;
    while j < |cols|
      invariant 0 <= j <= |cols|
      invariant ordered == Children(known, blockCol, cols) + Strangers(known, blockCol, cols[..j])
    {
      StrangersMore(known, blockCol, cols, j);
      if cols[j] != blockCol && cols[j] !in ordered {
        ordered := ordered + [cols[j]];
      }
      j := j + 1;
    }
    assert cols[..j] == cols;
    if blockCol in cols {
      ordered := ordered + [blockCol];
    }
  }

  // ---------------------------------------------------------------- crash points

  /**
   * What a rollback stopped at height k leaves behind: only doomed documents are
   * gone, all of them above k, none below k, and at k the block document goes only
   * after every child.
   */
  ghost predicate CrashAt(l: Layout, before: set<Doc>, now: set<Doc>, from: int, to: int, hashes: map<int, Hash>, k: int) {
    && now <= before
    && before - now <= Doomed(l, before, from, to, hashes)
    && (forall d :: d in Doomed(l, before, from, to, hashes) && d.num > k ==> d !in now)
    && (forall d :: d in before && d.num < k ==> d in now)
    && (forall d :: d in before && d.num == k && d.col == l.blockCol && d !in now ==> HeightDocs(l, now, k) == {})
  }

  ghost predicate CrashPoint(l: Layout, before: set<Doc>, now: set<Doc>, from: int, to: int, hashes: map<int, Hash>) {
    exists k :: CrashAt(l, before, now, from, to, hashes, k)
  }

  lemma SameHeightSameHash(l: Layout, a: set<Doc>, b: set<Doc>, h: int)
    requires Rows(l, a, h) == Rows(l, b, h)
    ensures DocHash(l, a, h) == DocHash(l, b, h)
  {
  }

  /** Whether a height is an orphan depends on its own block documents only. */
  lemma SameHeightSameOrphan(l: Layout, a: set<Doc>, b: set<Doc>, hashes: map<int, Hash>, h: int)
    requires Rows(l, a, h) == Rows(l, b, h)
    ensures IsOrphan(l, a, hashes, h) == IsOrphan(l, b, hashes, h)
  {
    SameHeightSameHash(l, a, b, h);
  }

  /** A height that has lost a block document to a rollback is left without queried documents. */
  lemma LostBlockLostAll(l: Layout, before: set<Doc>, now: set<Doc>, from: int, to: int, hashes: map<int, Hash>, k: int, h: int)
    requires CrashAt(l, before, now, from, to, hashes, k) && Rows(l, now, h) != Rows(l, before, h)
    ensures HeightDocs(l, now, h) == {}
  {
    var d :| d in Rows(l, before, h) && d !in now;
    assert d in Doomed(l, before, from, to, hashes);
    assert HeightDocs(l, before, h) <= Doomed(l, before, from, to, hashes);
  }

  /** Resuming after any crash finishes exactly what the interrupted rollback set out to delete. */
  lemma ResumeCompletes(l: Layout, before: set<Doc>, now: set<Doc>, from: int, to: int, hashes: map<int, Hash>)
    requires ValidLayout(l) && CrashPoint(l, before, now, from, to, hashes)
    ensures now - Doomed(l, now, from, to, hashes) == before - Doomed(l, before, from, to, hashes)
  {
    var k :| CrashAt(l, before, now, from, to, hashes, k);
    var doomed, again := Doomed(l, before, from, to, hashes), Doomed(l, now, from, to, hashes);
    forall d | d in now ensures d in again <==> d in doomed {
      if Rows(l, now, d.num) == Rows(l, before, d.num) {
        SameHeightSameOrphan(l, now, before, hashes, d.num);
      } else {
        LostBlockLostAll(l, before, now, from, to, hashes, k, d.num);
        assert d !in HeightDocs(l, now, d.num);
      }
    }
  }

  /** A second rollback over the same range deletes nothing. */
  lemma RerunDeletesNothing(l: Layout, docs: set<Doc>, from: int, to: int, hashes: map<int, Hash>)
    requires ValidLayout(l)
    ensures var after := docs - Doomed(l, docs, from, to, hashes); Doomed(l, after, from, to, hashes) == {}
  {
    var doomed := Doomed(l, docs, from, to, hashes);
    var after := docs - doomed;
    assert CrashAt(l, docs, after, from, to, hashes, from - 1);
    ResumeCompletes(l, docs, after, from, to, hashes);
    assert after - Doomed(l, after, from, to, hashes) == after;
  }

  /** In every crash state a missing block document means that no child of its height is visible. */
  lemma NoOrphanedChildren(l: Layout, before: set<Doc>, now: set<Doc>, from: int, to: int, hashes: map<int, Hash>, h: int)
    requires CrashPoint(l, before, now, from, to, hashes) && Rows(l, before, h) != {} && Rows(l, now, h) == {}
    ensures HeightDocs(l, now, h) == {}
  {
    var k :| CrashAt(l, before, now, from, to, hashes, k);
    LostBlockLostAll(l, before, now, from, to, hashes, k, h);
  }

  // ---------------------------------------------------------------- the rollback itself

  /** One delete request carries at most this many documents. */
  const CHUNK_SIZE := 100

  predicate Distinct(s: seq<Doc>) {
    forall i, j :: 0 <= i < j < |s| ==> s[i] != s[j]
  }

  /** Any order in which a query may list documents. */
  method List(docs: set<Doc>) returns (s: seq<Doc>)
    ensures forall d :: d in s <==> d in docs
    ensures |s| == |docs| && Distinct(s)
  {
    s := [];
    var rest := docs;
    while rest != {}
      invariant rest <= docs
      invariant forall d :: d in s <==> d in docs && d !in rest
      invariant |s| + |rest| == |docs| && Distinct(s)
      decreases rest
    {
      var d :| d in rest;
      rest := rest - {d};
      s := s + [d];
    }
  }

  function Elements(s: seq<Doc>): set<Doc> {
    set d | d in s
  }

  ghost function OfCollections(docs: set<Doc>, cols: seq<string>): set<Doc> {
    set d | d in docs && d.col in cols
  }

  function OfCollection(docs: set<Doc>, col: string): set<Doc> {
    set d | d in docs && d.col == col
  }

  /** The collections that hold any of these documents, each once. */
  method Collections(queried: seq<string>, docs: set<Doc>) returns (cols: seq<string>)
    requires NoRepeat(queried)
    ensures NoRepeat(cols) && forall c :: c in cols <==> c in queried && OfCollection(docs, c) != {}
  {
    cols := [];
    for i := 0 to |queried|
      invariant NoRepeat(cols)
      invariant forall c :: c in cols <==> c in queried[..i] && OfCollection(docs, c) != {}
    {
      if OfCollection(docs, queried[i]) != {} {
        cols := cols + [queried[i]];
      }
      assert queried[..i + 1] == queried[..i] + [queried[i]];
    }
  }

  /**
   * The roller over its document store. `requests` counts the delete requests the
   * store still serves; the next one fails, so every prefix of the deletions is the
   * result of some call.
   */
  class Roller {
    const layout: Layout
    var docs: set<Doc>
    var requests: nat

    constructor (layout: Layout, docs: set<Doc>, requests: nat)
      ensures this.layout == layout && this.docs == docs && this.requests == requests
    {
      this.layout := layout;
      this.docs := docs;
      this.requests := requests;
    }

    /** Soft-delete one collection's documents, chunk by chunk. */
    method SoftDelete(ids: seq<Doc>) returns (ok: bool)
      requires Distinct(ids) && Elements(ids) <= docs
      modifies this
      ensures docs <= old(docs) && old(docs) - docs <= Elements(ids)
      ensures ok ==> docs == old(docs) - Elements(ids)
      ensures !ok ==> requests == 0 && 100 * old(requests) < |ids|
      ensures !ok && |ids| <= CHUNK_SIZE ==> docs == old(docs)
      ensures ok ==> |ids| <= 100 * (old(requests) - requests) < |ids| + 100
    {
      var start := 0;
      ghost var before := docs;
      assert docs - Elements(ids[..0]) == docs;
      while start < |ids|
        invariant 0 <= start <= |ids| && docs == before - Elements(ids[..start])
        invariant start == 100 * (old(requests) - requests) || start == |ids| <= 100 * (old(requests) - requests) < start + 100
      {
        var end := if start + CHUNK_SIZE < |ids| then start + CHUNK_SIZE else |ids|;
        if requests == 0 {
          assert Elements(ids[..start]) <= Elements(ids);
          return false;
        }
        NextGone(before, ids, start, end);
        requests := requests - 1;
        docs := docs - Elements(ids[start..end]);
        start := end;
      }
      assert ids[..|ids|] == ids;
      return true;
    }

    /** Delete one collection's documents; of a single document a failure deletes nothing. */
    method DeleteCollection(height: set<Doc>, col: string) returns (ok: bool)
      requires OfCollection(height, col) <= docs
      modifies this
      ensures docs <= old(docs) && old(docs) - docs <= OfCollection(height, col)
      ensures ok ==> docs == old(docs) - OfCollection(height, col)
      ensures !ok ==> requests == 0 && old(requests) < |old(docs)|
      ensures !ok && |OfCollection(height, col)| <= 1 ==> docs == old(docs)
      ensures ok ==> old(requests) - requests <= |old(docs)| - |docs|
    {
      var ids := List(OfCollection(height, col));
      assert Elements(ids) == OfCollection(height, col);
      Deleted(docs, OfCollection(height, col));
      ok := SoftDelete(ids);
    }

    /** Delete these documents collection by collection; a failure leaves the last collection's only document in place. */
    method DeleteCollections(height: set<Doc>, ordered: seq<string>) returns (ok: bool)
      requires NoRepeat(ordered) && height <= docs && |OfCollection(height, layout.blockCol)| <= 1
      requires forall i :: 0 <= i < |ordered| - 1 ==> ordered[i] != layout.blockCol
      modifies this
      ensures docs <= old(docs) && old(docs) - docs <= height
      ensures ok ==> docs == old(docs) - OfCollections(height, ordered)
      ensures !ok ==> OfCollection(height, layout.blockCol) <= docs && requests == 0 && old(requests) < |old(docs)|
      ensures ok ==> old(requests) - requests <= |old(docs)| - |docs|
    {
      for i := 0 to |ordered|
        invariant docs == old(docs) - OfCollections(height, ordered[..i])
        invariant old(requests) - requests <= |old(docs)| - |docs|
      {
        PartUntouched(old(docs), height, ordered, i);
        ghost var soFar := docs;
        var done := DeleteCollection(height, ordered[i]);
        if !done {
          FailedPart(old(docs), soFar, docs, height, ordered, i, layout.blockCol);
          return false;
        }
        OnePartMore(old(docs), height, ordered, i);
      }
      assert ordered[..|ordered|] == ordered;
      return true;
    }

    /**
     * Delete one orphan height: children first, the block document last. Stopping
     * midway never removes the block document while a child is visible.
     */
    method DeleteHeight(h: int) returns (ok: bool)
      requires ValidLayout(layout) && DocHash(layout, docs, h).Answer? && DocHash(layout, docs, h).hash != NoHash
      modifies this
      ensures docs <= old(docs) && old(docs) - docs <= HeightDocs(layout, old(docs), h)
      ensures ok ==> docs == old(docs) - HeightDocs(layout, old(docs), h)
      ensures forall d :: d in Rows(layout, old(docs), h) && d !in docs ==> HeightDocs(layout, docs, h) == {}
      ensures !ok ==> requests == 0 && old(requests) < |old(docs)|
      ensures ok ==> old(requests) - requests <= |old(docs)| - |docs|
    {
      var height := HeightDocs(layout, docs, h);
      var cols := Collections(layout.queried, height);
      var ordered := DeleteOrder(layout.known, layout.blockCol, cols);
      LastIsBlock(layout, cols);
      SingleRow(layout, docs, h);
      OrderedCoversAll(layout, height, cols);
      ok := DeleteCollections(height, ordered);
    }

    /**
     * Roll back [from, to], descending. Success deletes exactly the doomed documents;
     * stopping anywhere leaves a crash point.
     */
    method RollbackBlocks(from: int, to: int, hashes: map<int, Hash>, queryFails: int -> bool) returns (ok: bool)
      requires ValidLayout(layout)
      modifies this
      ensures ok ==> docs == old(docs) - Doomed(layout, old(docs), from, to, hashes)
      ensures CrashPoint(layout, old(docs), docs, from, to, hashes)
      ensures ok ==> Readable(layout, old(docs), from, to, hashes, queryFails)
      ensures old(requests) >= |old(docs)| && Readable(layout, old(docs), from, to, hashes, queryFails) ==> ok
    {
      var h := to;
      ghost var before := docs;
      while h >= from
        invariant docs == before - Above(layout, before, from, to, hashes, h)
        invariant h <= to
        invariant old(requests) - requests <= |before| - |docs|
        invariant Readable(layout, before, h + 1, to, hashes, queryFails)
        decreases h - from + 1
      {
        HeightIntact(layout, before, docs, from, to, hashes, h);
        ghost var here := docs;
        if h in hashes && hashes[h] != NoHash {
          if queryFails(h) || DocHash(layout, docs, h).QueryError? {
            assert CrashAt(layout, before, docs, from, to, hashes, h);
            NotReadable(layout, before, from, to, hashes, queryFails, h);
            return false;
          }
          var stored := DocHash(layout, docs, h).hash;
          if stored != NoHash && stored != hashes[h] {
            var done := DeleteHeight(h);
            if !done {
              StoppedAt(layout, before, here, docs, from, to, hashes, h);
              return false;
            }
          }
        }
        OneLower(layout, before, here, docs, from, to, hashes, h);
        ReadableLower(layout, before, h, to, hashes, queryFails);
        h := h - 1;
      }
      assert Above(layout, before, from, to, hashes, h) == Doomed(layout, before, from, to, hashes);
      assert CrashAt(layout, before, docs, from, to, hashes, h);
      return true;
    }
  }

  /** The doomed documents above a height. */
  ghost function Above(l: Layout, docs: set<Doc>, from: int, to: int, hashes: map<int, Hash>, h: int): set<Doc> {
    set d | d in Doomed(l, docs, from, to, hashes) && d.num > h
  }

  /** Deleting above a height leaves it as it was. */
  lemma HeightIntact(l: Layout, before: set<Doc>, now: set<Doc>, from: int, to: int, hashes: map<int, Hash>, h: int)
    requires now == before - Above(l, before, from, to, hashes, h)
    ensures Rows(l, now, h) == Rows(l, before, h) && HeightDocs(l, now, h) == HeightDocs(l, before, h)
    ensures DocHash(l, now, h) == DocHash(l, before, h)
  {
    assert Rows(l, now, h) == Rows(l, before, h);
  }

  /** A failure inside a doomed height is a crash at that height. */
  lemma StoppedAt(l: Layout, before: set<Doc>, here: set<Doc>, now: set<Doc>, from: int, to: int, hashes: map<int, Hash>, h: int)
    requires here == before - Above(l, before, from, to, hashes, h) && from <= h <= to && IsOrphan(l, before, hashes, h)
    requires now <= here && here - now <= HeightDocs(l, here, h)
    requires forall d :: d in Rows(l, here, h) && d !in now ==> HeightDocs(l, now, h) == {}
    ensures CrashAt(l, before, now, from, to, hashes, h)
  {
    forall d | d in before - now ensures d in Doomed(l, before, from, to, hashes) && d.num >= h {
      assert d in here ==> d in here - now;
    }
    forall d | d in before && d.num == h && d.col == l.blockCol && d !in now ensures HeightDocs(l, now, h) == {} {
      assert d in Rows(l, here, h);
    }
  }

  /** One height done: its documents are gone exactly when the height was an orphan. */
  lemma OneLower(l: Layout, before: set<Doc>, here: set<Doc>, now: set<Doc>, from: int, to: int, hashes: map<int, Hash>, h: int)
    requires here == before - Above(l, before, from, to, hashes, h) && from <= h <= to
    requires now == if IsOrphan(l, before, hashes, h) then here - HeightDocs(l, here, h) else here
    ensures now == before - Above(l, before, from, to, hashes, h - 1)
  {
  }

  /** Deleting what was there lowers the number of documents by as many. */
  lemma Deleted(before: set<Doc>, gone: set<Doc>)
    requires gone <= before
    ensures |before - gone| == |before| - |gone|
  {
    assert before * gone == gone;
  }

  lemma NextGone(before: set<Doc>, ids: seq<Doc>, start: nat, end: nat)
    requires start <= end <= |ids|
    ensures before - Elements(ids[..start]) - Elements(ids[start..end]) == before - Elements(ids[..end])
  {
    assert ids[..end] == ids[..start] + ids[start..end];
  }

  /** A failed collection cost no block document: it was the only one of its collection, or of a later collection. */
  lemma FailedPart(before: set<Doc>, soFar: set<Doc>, now: set<Doc>, height: set<Doc>, ordered: seq<string>, i: nat, blockCol: string)
    requires i < |ordered| && NoRepeat(ordered) && height <= before
    requires forall j :: 0 <= j < |ordered| - 1 ==> ordered[j] != blockCol
    requires soFar == before - OfCollections(height, ordered[..i])
    requires now <= soFar && soFar - now <= OfCollection(height, ordered[i])
    requires ordered[i] == blockCol ==> now == soFar
    ensures OfCollection(height, blockCol) <= now && before - now <= height
  {
    assert blockCol !in ordered[..i];
    forall d | d in OfCollection(height, blockCol) ensures d in now {
      assert d in soFar && (d !in now ==> d in soFar - now);
    }
    forall d | d in before - now ensures d in height {
      assert d in soFar ==> d in soFar - now;
    }
  }

  lemma LastIsBlock(l: Layout, cols: seq<string>)
    requires ValidLayout(l) && NoRepeat(cols)
    ensures var o := Ordered(l.known, l.blockCol, cols);
            && NoRepeat(o)
            && (forall i :: 0 <= i < |o| - 1 ==> o[i] != l.blockCol)
            && (forall c :: c in o <==> c in cols)
  {
    var o := Ordered(l.known, l.blockCol, cols);
    OrderedIsPermutation(l.known, l.blockCol, cols);
    forall i, j | 0 <= i < j < |o| ensures o[i] != o[j] {
      NoRepeatCount(cols, o[i]);
      if o[i] == o[j] {
        TwiceCounted(o, i, j);
      }
    }
    forall c ensures c in o <==> c in cols {
      assert c in multiset(o) <==> c in multiset(cols);
    }
  }

  lemma TwiceCounted(s: seq<string>, i: nat, j: nat)
    requires i < j < |s| && s[i] == s[j]
    ensures multiset(s)[s[i]] >= 2
  {
    assert s == s[..j] + [s[j]] + s[j + 1..];
    assert s[i] in s[..j];
  }

  /** The part about to be deleted is still there, and so is everything of a later collection. */
  lemma PartUntouched(before: set<Doc>, height: set<Doc>, ordered: seq<string>, i: nat)
    requires i < |ordered| && NoRepeat(ordered) && height <= before
    ensures OfCollection(height, ordered[i]) <= before - OfCollections(height, ordered[..i])
    ensures forall c :: c !in ordered[..i] ==> OfCollection(height, c) <= before - OfCollections(height, ordered[..i])
  {
  }

  lemma OnePartMore(before: set<Doc>, height: set<Doc>, ordered: seq<string>, i: nat)
    requires i < |ordered|
    ensures before - OfCollections(height, ordered[..i]) - OfCollection(height, ordered[i]) == before - OfCollections(height, ordered[..i + 1])
  {
    assert ordered[..i + 1] == ordered[..i] + [ordered[i]];
  }

  lemma SingleRow(l: Layout, before: set<Doc>, h: int)
    requires ValidLayout(l) && DocHash(l, before, h).Answer? && DocHash(l, before, h).hash != NoHash
    ensures OfCollection(HeightDocs(l, before, h), l.blockCol) == Rows(l, before, h) && |Rows(l, before, h)| == 1
  {
  }

  lemma OrderedCoversAll(l: Layout, height: set<Doc>, cols: seq<string>)
    requires ValidLayout(l) && NoRepeat(cols)
    requires forall d :: d in height ==> d.col in l.queried
    requires forall c :: c in cols <==> c in l.queried && OfCollection(height, c) != {}
    ensures OfCollections(height, Ordered(l.known, l.blockCol, cols)) == height
  {
    LastIsBlock(l, cols);
    forall d | d in height ensures d.col in cols {
      assert d in OfCollection(height, d.col);
    }
  }
}
