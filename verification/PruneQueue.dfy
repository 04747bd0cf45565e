/** The queue of indexed blocks that the pruner drains, oldest block first. */
module PruneQueue {
  import opened Chain
  import opened DocIdText

  /** The packed document identifiers of one block. */
  datatype Entry = Entry(blockNumber: int, blockDocId: Uuid, others: map<string, Bytes>, batchSig: Option<Uuid>)

  datatype DrainResult = DrainResult(docs: map<string, seq<string>>, blockCount: nat)

  /** The collections of the block documents and of the block signatures. */
  datatype Names = Names(blockCol: string, sigCol: string)

  const NO_UUID: Uuid := [0, 0, 0, 0, 0, 0, 0, 0, 0, 0, 0, 0, 0, 0, 0, 0]

  // ---------------------------------------------------------------- what an entry stands for

  function Under(m: map<string, seq<string>>, c: string): seq<string> {
    if c in m then m[c] else []
  }

  function Listed(others: map<string, Bytes>, c: string): seq<string> {
    if c in others then Unpacked(others[c]) else []
  }

  /** The documents of an entry other than its block document, in one collection. */
  function Others(e: Entry, c: string, names: Names): seq<string> {
    Listed(e.others, c) +
    (if e.batchSig.Some? && c == names.sigCol then [RestoreDocId(e.batchSig.value)] else [])
  }

  /** All documents of an entry in one collection. */
  ghost function DocsOf(e: Entry, c: string, names: Names): multiset<string> {
    (if c == names.blockCol then multiset{RestoreDocId(e.blockDocId)} else multiset{}) + multiset(Others(e, c, names))
  }

  ghost function AllDocs(entries: seq<Entry>, c: string, names: Names): multiset<string> {
    if entries == [] then multiset{} else AllDocs(entries[..|entries| - 1], c, names) + DocsOf(entries[|entries| - 1], c, names)
  }

  function AllOthers(entries: seq<Entry>, c: string, names: Names): seq<string> {
    if entries == [] then [] else AllOthers(entries[..|entries| - 1], c, names) + Others(entries[|entries| - 1], c, names)
  }

  function BlockIds(entries: seq<Entry>): seq<string> {
    seq(|entries|, i requires 0 <= i < |entries| => RestoreDocId(entries[i].blockDocId))
  }

  // ---------------------------------------------------------------- tracking

  /** Every identifier given for a block has a well-formed identifier part. */
  ghost predicate Trackable(blockDocId: string, others: map<string, seq<string>>, sigId: string) {
    && (blockDocId == "" || ExtractUuid(blockDocId).Some?)
    && (forall c :: c in others ==> AllExtract(others[c]))
    && (sigId == "" || ExtractUuid(sigId).Some?)
  }

  /** The entry made of these identifiers. */
  ghost predicate Tracks(e: Entry, blockNumber: int, blockDocId: string, others: map<string, seq<string>>, sigId: string) {
    && e.blockNumber == blockNumber
    && (if blockDocId == "" then e.blockDocId == NO_UUID else ExtractUuid(blockDocId) == Some(e.blockDocId))
    && (forall c :: c in e.others <==> c in others && others[c] != [])
    && (forall c :: c in e.others ==> Packs(e.others[c], others[c]))
    && (if sigId == "" then e.batchSig == None else e.batchSig.Some? && ExtractUuid(sigId) == e.batchSig)
  }

  ghost predicate AllCanonical(ids: seq<string>) {
    forall i :: 0 <= i < |ids| ==> Canonical(ids[i])
  }

  /** Canonical identifiers come out of an entry exactly as they were tracked. */
  lemma TrackedDocsSurvive(e: Entry, blockNumber: int, blockDocId: string, others: map<string, seq<string>>, sigId: string, c: string, names: Names)
    requires Tracks(e, blockNumber, blockDocId, others, sigId)
    requires Canonical(blockDocId) && (sigId == "" || Canonical(sigId)) && AllCanonical(Under(others, c))
    ensures DocsOf(e, c, names) ==
            (if c == names.blockCol then multiset{blockDocId} else multiset{})
            + multiset(Under(others, c))
            + (if sigId != "" && c == names.sigCol then multiset{sigId} else multiset{})
  {
    SurvivesPackingIff(blockDocId);
    if sigId != "" {
      SurvivesPackingIff(sigId);
    }
    if c in e.others {
      PackRoundTrip(e.others[c], others[c]);
    }
    assert Listed(e.others, c) == Under(others, c);
  }

  // ---------------------------------------------------------------- counting

  ghost function OthersCount(others: map<string, Bytes>): nat
    decreases |others|
  {
    if others == map[] then 0
    else
      var c :| c in others;
      |Unpacked(others[c])| + OthersCount(others - {c})
  }

  lemma {:induction false} CountWithout(others: map<string, Bytes>, c: string)
    requires c in others
    ensures OthersCount(others) == |Unpacked(others[c])| + OthersCount(others - {c})
    decreases |others|
  {
    var d :| d in others && OthersCount(others) == |Unpacked(others[d])| + OthersCount(others - {d});
    if d != c {
      CountWithout(others - {d}, c);
      CountWithout(others - {c}, d);
      assert others - {d} - {c} == others - {c} - {d};
    }
  }

  /** The number of documents of an entry. */
  ghost function Count(e: Entry): nat {
    1 + OthersCount(e.others) + if e.batchSig.Some? then 1 else 0
  }

  /** How many documents an entry has in these collections together. */
  ghost function DocsIn(cols: seq<string>, e: Entry, names: Names): nat {
    if cols == [] then 0 else |DocsOf(e, cols[0], names)| + DocsIn(cols[1..], e, names)
  }

  ghost predicate Distinct<T>(s: seq<T>) {
    forall i, j :: 0 <= i < j < |s| ==> s[i] != s[j]
  }

  /** One for a member, nothing for anything else. */
  function Member<T(==)>(x: T, s: seq<T>): nat {
    if x in s then 1 else 0
  }

  lemma MemberStep<T>(x: T, s: seq<T>)
    requires s != [] && Distinct(s)
    ensures Member(x, s) == (if x == s[0] then 1 else 0) + Member(x, s[1..])
  {
    assert s == [s[0]] + s[1..];
  }

  lemma DocsOfSize(e: Entry, c: string, names: Names)
    ensures |DocsOf(e, c, names)| ==
            (if names.blockCol == c then 1 else 0) + |Listed(e.others, c)| + (if e.batchSig.Some? && names.sigCol == c then 1 else 0)
  {
    var own: multiset<string> := if c == names.blockCol then multiset{RestoreDocId(e.blockDocId)} else multiset{};
    assert |DocsOf(e, c, names)| == |own| + |multiset(Others(e, c, names))|;
  }

  ghost function ListedIn(cols: seq<string>, others: map<string, Bytes>): nat {
    if cols == [] then 0 else |Listed(others, cols[0])| + ListedIn(cols[1..], others)
  }

  lemma {:induction false} DocsInAre(cols: seq<string>, e: Entry, names: Names)
    requires Distinct(cols)
    ensures DocsIn(cols, e, names) ==
            Member(names.blockCol, cols) + ListedIn(cols, e.others) + (if e.batchSig.Some? then Member(names.sigCol, cols) else 0)
    decreases |cols|
  {
    if cols != [] {
      DocsInAre(cols[1..], e, names);
      DocsOfSize(e, cols[0], names);
      MemberStep(names.blockCol, cols);
      MemberStep(names.sigCol, cols);
    }
  }

  /** Lists of collections that are not in the map count nothing; each of the others counts once. */
  lemma {:induction false} ListedInCounts(cols: seq<string>, others: map<string, Bytes>)
    requires Distinct(cols) && forall c :: c in others ==> c in cols
    ensures ListedIn(cols, others) == OthersCount(others)
    decreases |cols|
  {
    if cols != [] {
      var c, rest := cols[0], cols[1..];
      assert forall d :: d in cols ==> d == c || d in rest;
      if c in others {
        CountWithout(others, c);
        ListedInCounts(rest, others - {c});
        ListedInWithout(rest, others, c);
      } else {
        ListedInCounts(rest, others);
      }
    } else {
      assert others == map[];
    }
  }

  lemma {:induction false} ListedInWithout(cols: seq<string>, others: map<string, Bytes>, c: string)
    requires c !in cols
    ensures ListedIn(cols, others - {c}) == ListedIn(cols, others)
    decreases |cols|
  {
    if cols != [] {
      ListedInWithout(cols[1..], others, c);
    }
  }

  /** The count is the number of documents the entry has in all its collections, its block document among them. */
  lemma CountIsAllDocs(e: Entry, names: Names, cols: seq<string>)
    requires Distinct(cols) && names.blockCol in cols && names.sigCol in cols && forall c :: c in e.others ==> c in cols
    ensures Count(e) == DocsIn(cols, e, names)
  {
    DocsInAre(cols, e, names);
    ListedInCounts(cols, e.others);
  }

  ghost function TotalCount(entries: seq<Entry>): nat {
    if entries == [] then 0 else TotalCount(entries[..|entries| - 1]) + Count(entries[|entries| - 1])
  }

  method EntryDocCount(e: Entry) returns (count: nat)
    ensures count == Count(e)
  {
    count := 1;
    var left := e.others;
    while left != map[]
      invariant left.Keys <= e.others.Keys
      invariant count + OthersCount(left) == 1 + OthersCount(e.others)
      decreases |left|
    {
      var c :| c in left;
      CountWithout(left, c);
      count := count + |left[c]| / UUID_SIZE;
      left := left - {c};
    }
    if e.batchSig.Some? {
      count := count + 1;
    }
  }

  // ---------------------------------------------------------------- sums over permutations

  lemma {:induction false} AllDocsAppend(a: seq<Entry>, b: seq<Entry>, c: string, names: Names)
    ensures AllDocs(a + b, c, names) == AllDocs(a, c, names) + AllDocs(b, c, names)
    decreases |b|
  {
    if b == [] {
      assert a + b == a;
    } else {
      assert (a + b)[..|a + b| - 1] == a + b[..|b| - 1];
      AllDocsAppend(a, b[..|b| - 1], c, names);
    }
  }

  lemma AllDocsWithout(s: seq<Entry>, i: nat, c: string, names: Names)
    requires i < |s|
    ensures AllDocs(s, c, names) == AllDocs(s[..i] + s[i + 1..], c, names) + DocsOf(s[i], c, names)
  {
    assert s == s[..i + 1] + s[i + 1..];
    assert s[..i + 1][..i] == s[..i];
    AllDocsAppend(s[..i + 1], s[i + 1..], c, names);
    AllDocsAppend(s[..i], s[i + 1..], c, names);
  }

  lemma AllDocsMatch(a: seq<Entry>, i: nat, b: seq<Entry>, j: nat, c: string, names: Names)
    requires i < |a| && j < |b| && a[i] == b[j]
    requires AllDocs(a[..i] + a[i + 1..], c, names) == AllDocs(b[..j] + b[j + 1..], c, names)
    ensures AllDocs(a, c, names) == AllDocs(b, c, names)
  {
    AllDocsWithout(a, i, c, names);
    AllDocsWithout(b, j, c, names);
  }

  lemma AlsoIn(a: seq<Entry>, b: seq<Entry>) returns (j: nat)
    requires a != [] && multiset(a) == multiset(b)
    ensures j < |b| && b[j] == a[0] && multiset(a[..0] + a[1..]) == multiset(b[..j] + b[j + 1..])
  {
    assert a[0] in multiset(b);
    j :| 0 <= j < |b| && b[j] == a[0];
    Without(a, 0);
    Without(b, j);
  }

  lemma {:induction false} AllDocsPermuted(a: seq<Entry>, b: seq<Entry>, c: string, names: Names)
    requires multiset(a) == multiset(b)
    ensures AllDocs(a, c, names) == AllDocs(b, c, names)
    decreases |a|
  {
    if a == [] {
      SamePermutedLength(a, b);
    } else {
      var j := AlsoIn(a, b);
      AllDocsPermuted(a[..0] + a[1..], b[..j] + b[j + 1..], c, names);
      AllDocsMatch(a, 0, b, j, c, names);
    }
  }

  lemma Without(s: seq<Entry>, i: nat)
    requires i < |s|
    ensures multiset(s[..i] + s[i + 1..]) == multiset(s) - multiset{s[i]}
  {
    assert s == s[..i] + [s[i]] + s[i + 1..];
  }

  // ---------------------------------------------------------------- draining

  ghost predicate ByBlock(entries: seq<Entry>) {
    forall i, j :: 0 <= i < j < |entries| ==> entries[i].blockNumber <= entries[j].blockNumber
  }

  /** Oldest blocks taken, the rest left: nothing lost, nothing added. */
  ghost predicate Splits(before: seq<Entry>, drained: seq<Entry>, rest: seq<Entry>) {
    ByBlock(drained + rest) && multiset(drained + rest) == multiset(before)
  }

  /** The documents a drain hands out in one collection. */
  function Drained(entries: seq<Entry>, c: string, names: Names): seq<string> {
    if entries != [] && names.blockCol != "" && c == names.blockCol then BlockIds(entries) else AllOthers(entries, c, names)
  }

  function Inserted(s: seq<Entry>, k: nat, e: Entry): seq<Entry>
    requires k <= |s|
  {
    s[..k] + [e] + s[k..]
  }

  lemma InsertedMultiset(s: seq<Entry>, k: nat, e: Entry, part: multiset<Entry>)
    requires k <= |s| && multiset(s) == part
    ensures multiset(Inserted(s, k, e)) == part + multiset{e}
  {
    assert s == s[..k] + s[k..];
    calc {
      multiset(s[..k] + [e] + s[k..]);
      multiset(s[..k]) + multiset([e]) + multiset(s[k..]);
      multiset(s[..k] + s[k..]) + multiset{e};
    }
  }

  lemma InsertedByBlock(s: seq<Entry>, k: nat, e: Entry)
    requires ByBlock(s) && k <= |s| && (k > 0 ==> s[k - 1].blockNumber <= e.blockNumber)
    requires k < |s| ==> e.blockNumber < s[k].blockNumber
    ensures ByBlock(Inserted(s, k, e))
  {
    var t := Inserted(s, k, e);
    forall i | 0 <= i < |t| ensures t[i] == if i < k then s[i] else if i == k then e else s[i - 1] {
    }
  }

  lemma TakeOne(entries: seq<Entry>, i: nat)
    requires i < |entries|
    ensures multiset(entries[..i + 1]) == multiset(entries[..i]) + multiset{entries[i]}
  {
    assert entries[..i + 1] == entries[..i] + [entries[i]];
  }

  /** The first entries in block order. */
  ghost predicate SortedFirst(entries: seq<Entry>, i: nat, sorted: seq<Entry>) {
    i <= |entries| && ByBlock(sorted) && multiset(sorted) == multiset(entries[..i])
  }

  lemma SortedMore(entries: seq<Entry>, i: nat, sorted: seq<Entry>, k: nat)
    requires i < |entries| && SortedFirst(entries, i, sorted) && k <= |sorted|
    requires k > 0 ==> sorted[k - 1].blockNumber <= entries[i].blockNumber
    requires k < |sorted| ==> entries[i].blockNumber < sorted[k].blockNumber
    ensures SortedFirst(entries, i + 1, Inserted(sorted, k, entries[i]))
  {
    InsertedByBlock(sorted, k, entries[i]);
    InsertedMultiset(sorted, k, entries[i], multiset(entries[..i]));
    TakeOne(entries, i);
  }

  /** A sorted permutation, as the library sort gives it. */
  method SortByBlock(entries: seq<Entry>) returns (sorted: seq<Entry>)
    ensures ByBlock(sorted) && multiset(sorted) == multiset(entries)
  {
    sorted := [];
    for i := 0 to |entries|
      invariant SortedFirst(entries, i, sorted)
    {
      var k := |sorted|;
      while k > 0 && entries[i].blockNumber < sorted[k - 1].blockNumber
        invariant 0 <= k <= |sorted|
        invariant k < |sorted| ==> entries[i].blockNumber < sorted[k].blockNumber
      {
        k := k - 1;
      }
      SortedMore(entries, i, sorted, k);
      sorted := Inserted(sorted, k, entries[i]);
    }
    assert entries[..|entries|] == entries;
  }

  /** What is grouped so far: the other documents of the first i entries. */
  ghost predicate Grouped(docs: map<string, seq<string>>, entries: seq<Entry>, i: nat, names: Names) {
    i <= |entries| && forall c :: Under(docs, c) == AllOthers(entries[..i], c, names)
  }

  /** The lists still to come are the ones not yet appended. */
  ghost predicate PartlyGrouped(docs: map<string, seq<string>>, more: map<string, seq<string>>, others: map<string, Bytes>, left: map<string, Bytes>) {
    forall c :: Under(more, c) + Listed(left, c) == Under(docs, c) + Listed(others, c)
  }

  lemma GroupOne(docs: map<string, seq<string>>, more: map<string, seq<string>>, others: map<string, Bytes>, left: map<string, Bytes>, c: string)
    requires PartlyGrouped(docs, more, others, left) && c in left
    ensures PartlyGrouped(docs, Append(more, c, Unpacked(left[c])), others, left - {c})
    ensures Unpacked(left[c]) == [] ==> PartlyGrouped(docs, more, others, left - {c})
  {
    var next := Append(more, c, Unpacked(left[c]));
    forall d ensures Under(next, d) + Listed(left - {c}, d) == Under(more, d) + Listed(left, d) {
    }
    if Unpacked(left[c]) == [] {
      forall d ensures Listed(left - {c}, d) == Listed(left, d) {
      }
    }
  }

  /** One entry's packed lists, in whatever order the map yields them. */
  method GroupOthers(docs: map<string, seq<string>>, others: map<string, Bytes>) returns (more: map<string, seq<string>>)
    ensures forall c :: Under(more, c) == Under(docs, c) + Listed(others, c)
  {
    more := docs;
    var left := others;
    while left != map[]
      invariant PartlyGrouped(docs, more, others, left)
      decreases |left|
    {
      var c :| c in left;
      var ids := UnpackDocIDs(left[c]);
      GroupOne(docs, more, others, left, c);
      if |ids| > 0 {
        more := Append(more, c, ids);
      }
      left := left - {c};
    }
    AllGrouped(docs, more, others);
  }

  lemma AllGrouped(docs: map<string, seq<string>>, more: map<string, seq<string>>, others: map<string, Bytes>)
    requires PartlyGrouped(docs, more, others, map[])
    ensures forall c :: Under(more, c) == Under(docs, c) + Listed(others, c)
  {
    forall c ensures Under(more, c) == Under(docs, c) + Listed(others, c) {
      assert Under(more, c) + Listed(map[], c) == Under(more, c);
    }
  }

  function Append(docs: map<string, seq<string>>, c: string, ids: seq<string>): (more: map<string, seq<string>>)
    ensures Under(more, c) == Under(docs, c) + ids
    ensures forall d :: d != c ==> Under(more, d) == Under(docs, d)
  {
    docs[c := Under(docs, c) + ids]
  }

  /** One entry's packed lists, then its signature. */
  method GroupEntry(docs: map<string, seq<string>>, e: Entry, names: Names) returns (more: map<string, seq<string>>)
    ensures forall c :: Under(more, c) == Under(docs, c) + Others(e, c, names)
  {
    more := GroupOthers(docs, e.others);
    if e.batchSig.Some? {
      more := Append(more, names.sigCol, [RestoreDocId(e.batchSig.value)]);
    }
  }

  lemma GroupedMore(docs: map<string, seq<string>>, more: map<string, seq<string>>, entries: seq<Entry>, i: nat, names: Names)
    requires i < |entries| && Grouped(docs, entries, i, names)
    requires forall c :: Under(more, c) == Under(docs, c) + Others(entries[i], c, names)
    ensures Grouped(more, entries, i + 1, names)
  {
    assert entries[..i + 1][..i] == entries[..i];
  }

  /** The drained documents by collection; the block documents replace whatever their collection held. */
  method BuildDrainResult(drained: seq<Entry>, names: Names) returns (result: DrainResult)
    ensures result.blockCount == |drained|
    ensures forall c :: Under(result.docs, c) == Drained(drained, c, names)
  {
    var docs: map<string, seq<string>> := map[];
    var blockIds: seq<string> := [];
    for i := 0 to |drained|
      invariant Grouped(docs, drained, i, names) && blockIds == BlockIds(drained)[..i]
    {
      blockIds := blockIds + [RestoreDocId(drained[i].blockDocId)];
      var more := GroupEntry(docs, drained[i], names);
      GroupedMore(docs, more, drained, i, names);
      docs := more;
    }
    assert drained[..|drained|] == drained;
    if |blockIds| > 0 && names.blockCol != "" {
      docs := docs[names.blockCol := blockIds];
    }
    return DrainResult(docs, |drained|);
  }

  /** What a drain does to the queue and what it reports. */
  ghost predicate DrainedTo(before: seq<Entry>, drained: seq<Entry>, rest: seq<Entry>, result: DrainResult, names: Names) {
    && Splits(before, drained, rest) && result.blockCount == |drained|
    && forall c :: Under(result.docs, c) == Drained(drained, c, names)
  }

  /** No proper prefix of these entries holds enough documents. */
  ghost predicate ShortestWith(drained: seq<Entry>, excess: int) {
    forall i :: 0 <= i < |drained| ==> TotalCount(drained[..i]) < excess
  }

  class IndexerQueue {
    var entries: seq<Entry>

    constructor ()
      ensures entries == []
    {
      entries := [];
    }

    /** Append one block's identifiers; an invalid identifier leaves the queue as it was. */
    method TrackBlockDocIDs(blockNumber: int, blockDocId: string, others: map<string, seq<string>>, sigId: string) returns (ok: bool)
      modifies this
      ensures ok <==> Trackable(blockDocId, others, sigId)
      ensures !ok ==> entries == old(entries)
      ensures ok ==> |entries| == |old(entries)| + 1 && entries[..|old(entries)|] == old(entries)
                     && Tracks(entries[|old(entries)|], blockNumber, blockDocId, others, sigId)
    {
      var block, sig := NO_UUID, None;
      if blockDocId != "" {
        var uuid := ExtractUuid(blockDocId);
        if uuid.None? {
          return false;
        }
        block := uuid.value;
      }
      var packed;
      packed, ok := PackOthers(others);
      if !ok {
        return false;
      }
      if sigId != "" {
        sig := ExtractUuid(sigId);
        if sig.None? {
          return false;
        }
      }
      entries := entries + [Entry(blockNumber, block, packed, sig)];
      return true;
    }

    /** Pack each non-empty list, in whatever order the map yields them. */
    method PackOthers(others: map<string, seq<string>>) returns (packed: map<string, Bytes>, ok: bool)
      ensures ok <==> forall c :: c in others ==> AllExtract(others[c])
      ensures ok ==> (forall c :: c in packed <==> c in others && others[c] != []) && forall c :: c in packed ==> Packs(packed[c], others[c])
    {
      packed := map[];
      var left := others;
      while left != map[]
        invariant forall c :: c in left ==> c in others && left[c] == others[c]
        invariant forall c :: c in others && c !in left ==> AllExtract(others[c])
        invariant forall c :: c in packed <==> c in others && c !in left && others[c] != []
        invariant forall c :: c in packed ==> Packs(packed[c], others[c])
        decreases |left|
      {
        var c :| c in left;
        if left[c] != [] {
          var bytes := PackDocIDs(left[c]);
          if bytes.None? {
            return packed, false;
          }
          packed := packed[c := bytes.value];
        }
        left := left - {c};
      }
      return packed, true;
    }

    /** Keep the newest blocks, hand out the documents of the others. */
    method Drain(keep: nat, names: Names) returns (result: Option<DrainResult>, ghost drained: seq<Entry>)
      modifies this
      ensures result.None? <==> |old(entries)| <= keep
      ensures result.None? ==> entries == old(entries)
      ensures result.Some? ==> |entries| == keep && drained != [] && DrainedTo(old(entries), drained, entries, result.value, names)
    {
      if |entries| <= keep {
        return None, [];
      }
      ghost var before := entries;
      var sorted := SortByBlock(entries);
      SamePermutedLength(sorted, before);
      var drainCount := |sorted| - keep;
      entries := sorted[drainCount..];
      drained := sorted[..drainCount];
      assert drained + entries == sorted;
      var r := BuildDrainResult(sorted[..drainCount], names);
      return Some(r), drained;
    }

    /** Hand out the oldest blocks until at least this many documents are covered, or all of them. */
    method DrainByDocCount(excess: int, names: Names) returns (result: Option<DrainResult>, ghost drained: seq<Entry>)
      modifies this
      ensures result.None? <==> old(entries) == [] || excess <= 0
      ensures result.None? ==> entries == old(entries)
      ensures result.Some? ==> DrainedTo(old(entries), drained, entries, result.value, names) && ShortestWith(drained, excess)
      ensures result.Some? && entries != [] ==> TotalCount(drained) >= excess
    {
      if entries == [] || excess <= 0 {
        return None, [];
      }
      ghost var before := entries;
      var sorted := SortByBlock(entries);
      var accumulated, cutoff := 0, 0;
      while cutoff < |sorted| && accumulated < excess
        invariant cutoff <= |sorted| && accumulated == TotalCount(sorted[..cutoff])
        invariant forall i :: 0 <= i < cutoff ==> TotalCount(sorted[..i]) < excess
      {
        var count := EntryDocCount(sorted[cutoff]);
        CountOneMore(sorted, cutoff);
        accumulated := accumulated + count;
        cutoff := cutoff + 1;
      }
      entries := sorted[cutoff..];
      drained := sorted[..cutoff];
      assert drained + entries == sorted;
      ShortestPrefix(sorted, cutoff, excess);
      var r := BuildDrainResult(sorted[..cutoff], names);
      return Some(r), drained;
    }
  }

  lemma CountOneMore(entries: seq<Entry>, i: nat)
    requires i < |entries|
    ensures TotalCount(entries[..i + 1]) == TotalCount(entries[..i]) + Count(entries[i])
  {
    assert entries[..i + 1][..i] == entries[..i];
  }

  lemma ShortestPrefix(entries: seq<Entry>, n: nat, excess: int)
    requires n <= |entries| && forall i :: 0 <= i < n ==> TotalCount(entries[..i]) < excess
    ensures ShortestWith(entries[..n], excess)
  {
    forall i | 0 <= i < n ensures TotalCount(entries[..n][..i]) < excess {
      assert entries[..n][..i] == entries[..i];
    }
  }

  lemma SamePermutedLength(a: seq<Entry>, b: seq<Entry>)
    requires multiset(a) == multiset(b)
    ensures |a| == |b|
  {
    assert |multiset(a)| == |a| && |multiset(b)| == |b|;
  }

  // ---------------------------------------------------------------- conservation

  /** Every drained block is at most as high as every remaining one. */
  lemma OldestDrained(before: seq<Entry>, drained: seq<Entry>, rest: seq<Entry>, d: Entry, r: Entry)
    requires Splits(before, drained, rest) && d in drained && r in rest
    ensures d.blockNumber <= r.blockNumber
  {
    var i :| 0 <= i < |drained| && drained[i] == d;
    var j :| 0 <= j < |rest| && rest[j] == r;
    assert (drained + rest)[i] == d && (drained + rest)[|drained| + j] == r;
  }

  lemma BlockIdsStep(entries: seq<Entry>)
    requires entries != []
    ensures var n := |entries| - 1;
            multiset(BlockIds(entries)) == multiset(BlockIds(entries[..n])) + multiset{RestoreDocId(entries[n].blockDocId)}
  {
    var n := |entries| - 1;
    assert BlockIds(entries) == BlockIds(entries[..n]) + [RestoreDocId(entries[n].blockDocId)];
  }

  lemma {:induction false} DocsAreBlocksAndOthers(entries: seq<Entry>, c: string, names: Names)
    ensures AllDocs(entries, c, names) ==
            (if c == names.blockCol then multiset(BlockIds(entries)) else multiset{}) + multiset(AllOthers(entries, c, names))
    decreases |entries|
  {
    if entries != [] {
      var n := |entries| - 1;
      DocsAreBlocksAndOthers(entries[..n], c, names);
      BlockIdsStep(entries);
      assert multiset(AllOthers(entries, c, names)) == multiset(AllOthers(entries[..n], c, names)) + multiset(Others(entries[n], c, names));
    }
  }

  /**
   * Drained documents and those still queued are exactly those queued before, in
   * every collection, if and only if the block collection has a name and holds no
   * other document of the drained blocks.
   */
  lemma DrainConserves(before: seq<Entry>, drained: seq<Entry>, rest: seq<Entry>, result: DrainResult, names: Names)
    requires DrainedTo(before, drained, rest, result, names) && drained != []
    ensures (forall c :: AllDocs(before, c, names) == multiset(Under(result.docs, c)) + AllDocs(rest, c, names))
            <==> names.blockCol != "" && AllOthers(drained, names.blockCol, names) == []
  {
    forall c ensures AllDocs(before, c, names) == AllDocs(drained, c, names) + AllDocs(rest, c, names) {
      AllDocsPermuted(before, drained + rest, c, names);
      AllDocsAppend(drained, rest, c, names);
    }
    if names.blockCol != "" && AllOthers(drained, names.blockCol, names) == [] {
      forall c ensures AllDocs(drained, c, names) == multiset(Under(result.docs, c)) {
        DocsAreBlocksAndOthers(drained, c, names);
      }
    }
    var c := names.blockCol;
    DocsAreBlocksAndOthers(drained, c, names);
    if AllDocs(before, c, names) == multiset(Under(result.docs, c)) + AllDocs(rest, c, names) {
      Cancel(AllDocs(drained, c, names), multiset(Under(result.docs, c)), AllDocs(rest, c, names));
      assert |multiset(BlockIds(drained))| == |drained| > 0;
      assert |AllDocs(drained, c, names)| == |drained| + |AllOthers(drained, c, names)|;
    }
  }

  lemma Cancel(a: multiset<string>, b: multiset<string>, rest: multiset<string>)
    requires a + rest == b + rest
    ensures a == b
  {
    assert a == (a + rest) - rest && b == (b + rest) - rest;
  }

  // ---------------------------------------------------------------- prune cycles

  /** How many blocks a cycle keeps: the target, or more when the backlog exceeds one cycle's cap. */
  function Keep(blockCount: nat, maxBlocks: nat, maxPerCycle: int): nat {
    if maxPerCycle > 0 && blockCount - maxBlocks > maxPerCycle then blockCount - maxPerCycle else maxBlocks
  }

  /** The answer of the range query: the lowest and highest stored height, or nothing for an empty store. */
  ghost predicate Spans(range: Option<(int, int)>, stored: set<int>) {
    match range
    case None => stored == {}
    case Some(span) => span.0 in stored && span.1 in stored && forall h :: h in stored ==> span.0 <= h <= span.1
  }

  /** By how many heights the span exceeds the target. */
  function Excess(range: Option<(int, int)>, maxBlocks: nat): nat {
    if range.None? || range.value.1 - range.value.0 + 1 <= maxBlocks then 0 else range.value.1 - range.value.0 + 1 - maxBlocks
  }

  /** Of the stored heights exactly those fewer than the target below the highest are left, so at most the target. */
  ghost predicate NewestLeft(stored: set<int>, range: Option<(int, int)>, maxBlocks: nat, left: set<int>) {
    && left == (set h | h in stored && (range.None? || range.value.1 - h < maxBlocks))
    && |left| <= maxBlocks
  }

  lemma {:induction false} FewHeights(heights: set<int>, top: int, n: nat)
    requires forall h :: h in heights ==> top - n < h <= top
    ensures |heights| <= n
    decreases n
  {
    if n == 0 {
      assert forall h :: h !in heights;
      assert heights == {};
    } else {
      FewHeights(heights - {top}, top - 1, n - 1);
      assert |heights - {top}| >= |heights| - 1;
    }
  }

  class Pruner {
    const maxBlocks: nat
    const maxPerCycle: int
    const names: Names
    const queue: IndexerQueue
    var totalBlocksPruned: nat

    constructor (maxBlocks: nat, maxPerCycle: int, names: Names, queue: IndexerQueue)
      ensures this.maxBlocks == maxBlocks && this.maxPerCycle == maxPerCycle && this.names == names && this.queue == queue
      ensures totalBlocksPruned == 0
    {
      this.maxBlocks, this.maxPerCycle, this.names, this.queue, this.totalBlocksPruned := maxBlocks, maxPerCycle, names, queue, 0;
    }

    /** One cycle: a queue above the target is drained, a shorter one falls back to the stored heights. */
    method RunIndexerQueuePrune(stored: set<int>, range: Option<(int, int)>)
      returns (result: Option<DrainResult>, left: set<int>, ghost drained: seq<Entry>)
      requires Spans(range, stored)
      modifies this, queue
      ensures result.None? <==> |old(queue.entries)| <= maxBlocks
      ensures result.None? ==> queue.entries == old(queue.entries) && NewestLeft(stored, range, maxBlocks, left)
                               && totalBlocksPruned == old(totalBlocksPruned) + Excess(range, maxBlocks)
      ensures result.Some? ==> DrainedTo(old(queue.entries), drained, queue.entries, result.value, names) && left == stored
                               && totalBlocksPruned + |queue.entries| == old(totalBlocksPruned + |queue.entries|)
      ensures |queue.entries| == After(|old(queue.entries)|, maxBlocks, maxPerCycle, 1)
      ensures maxPerCycle > 0 ==> |old(queue.entries)| - |queue.entries| <= maxPerCycle
    {
      var blockCount := |queue.entries|;
      if blockCount <= maxBlocks {
        left := FilterBasedPrune(stored, range);
        return None, left, [];
      }
      left := stored;
      var keep := maxBlocks;
      if maxPerCycle > 0 && blockCount - keep > maxPerCycle {
        keep := blockCount - maxPerCycle;
      }
      result, drained := queue.Drain(keep, names);
      assert |queue.entries| == keep;
      assert |drained + queue.entries| == blockCount by {
        SamePermutedLength(drained + queue.entries, old(queue.entries));
      }
      totalBlocksPruned := totalBlocksPruned + result.value.blockCount;
    }

    /** The fallback over stored heights: exactly the newest ones of the stored span remain. */
    method FilterBasedPrune(stored: set<int>, range: Option<(int, int)>) returns (left: set<int>)
      requires Spans(range, stored)
      modifies this`totalBlocksPruned
      ensures NewestLeft(stored, range, maxBlocks, left)
      ensures totalBlocksPruned == old(totalBlocksPruned) + Excess(range, maxBlocks)
    {
      if range.None? {
        assert |stored| == 0;
        return stored;
      }
      FewHeights((set h | h in stored && range.value.1 - h < maxBlocks), range.value.1, maxBlocks);
      var (lowest, highest) := range.value;
      var dbBlockCount := highest - lowest + 1;
      if dbBlockCount <= maxBlocks {
        assert stored == set h | h in stored && range.value.1 - h < maxBlocks;
        return stored;
      }
      var excess := dbBlockCount - maxBlocks;
      var cutoff := lowest + excess - 1;
      left := set h | h in stored && !(lowest <= h <= cutoff);
      assert left == set h | h in stored && range.value.1 - h < maxBlocks;
      totalBlocksPruned := totalBlocksPruned + excess;
    }
  }

  /** The queue length after some cycles with no arrivals. */
  function After(n: nat, maxBlocks: nat, maxPerCycle: int, cycles: nat): nat
    decreases cycles
  {
    if cycles == 0 || n <= maxBlocks then n
    else After(Keep(n, maxBlocks, maxPerCycle), maxBlocks, maxPerCycle, cycles - 1)
  }

  /**
   * With no arrivals the queue never falls below the target, loses at most the cap
   * per cycle, and stands at exactly the target once the cycles cover the excess.
   */
  lemma {:induction false} CyclesReachTarget(n: nat, maxBlocks: nat, maxPerCycle: int, cycles: nat)
    requires n > maxBlocks
    ensures After(n, maxBlocks, maxPerCycle, cycles) >= maxBlocks
    ensures maxPerCycle > 0 ==> After(n, maxBlocks, maxPerCycle, cycles) == (if n - cycles * maxPerCycle > maxBlocks then n - cycles * maxPerCycle else maxBlocks)
    ensures maxPerCycle <= 0 && cycles > 0 ==> After(n, maxBlocks, maxPerCycle, cycles) == maxBlocks
    decreases cycles
  {
    if cycles > 0 {
      var kept := Keep(n, maxBlocks, maxPerCycle);
      assert cycles * maxPerCycle == maxPerCycle + (cycles - 1) * maxPerCycle;
      if kept > maxBlocks {
        CyclesReachTarget(kept, maxBlocks, maxPerCycle, cycles - 1);
      }
    }
  }
}
