/** Documents, their content-derived identifiers, and the links between them. */
module Documents {
  import opened Chain

  datatype Collection = BlockCol | TxCol | LogCol | AleCol | OtherCol(name: string)

  /**
   * A document: its content, the transaction hash it carries (its own for a
   * transaction, the emitting one for a log) and its two link fields.
   */
  datatype Doc = Doc(content: nat, txHash: Option<string>, blockLink: Option<DocId>, txLink: Option<DocId>)

  /** Identifiers are derived from content, so equal documents share one. */
  datatype DocId = DocId(col: Collection, doc: Doc)

  datatype Group = Group(col: Collection, docs: seq<Doc>, batchSize: int)

  function Ids(col: Collection, docs: seq<Doc>): seq<DocId> {
    seq(|docs|, i requires 0 <= i < |docs| => DocId(col, docs[i]))
  }

  predicate NamesTx(doc: Doc) {
    doc.txHash.Some? && doc.txHash.value != ""
  }

  // ---------------------------------------------------------------- what stamping writes

  /** The transactions recorded so far, by hash; a later document with the same hash replaces an earlier one. */
  function Record(txIds: map<string, DocId>, docs: seq<Doc>, ids: seq<DocId>): map<string, DocId>
    decreases |docs|
  {
    if docs == [] then txIds
    else
      var n := |docs| - 1;
      var before := Record(txIds, docs[..n], ids);
      if n < |ids| && docs[n].txHash.Some? then before[docs[n].txHash.value := ids[n]] else before
  }

  function Lookup(txIds: map<string, DocId>, hash: Option<string>, otherwise: Option<DocId>): Option<DocId> {
    if hash.Some? && hash.value in txIds then Some(txIds[hash.value]) else otherwise
  }

  /** The links one document of a collection receives. */
  function StampDoc(col: Collection, doc: Doc, parent: Option<string>, blockId: Option<DocId>, txIds: map<string, DocId>): Doc {
    match col
    case TxCol => doc.(blockLink := blockId)
    case LogCol => doc.(blockLink := blockId, txLink := Lookup(txIds, doc.txHash, doc.txLink))
    case AleCol => doc.(txLink := Lookup(txIds, parent, doc.txLink))
    case _ => doc
  }

  function ParentRef(parents: seq<string>, j: nat): Option<string> {
    if j < |parents| then Some(parents[j]) else None
  }

  function StampDocs(col: Collection, docs: seq<Doc>, parents: seq<string>, blockId: Option<DocId>, txIds: map<string, DocId>): seq<Doc> {
    seq(|docs|, j requires 0 <= j < |docs| => StampDoc(col, docs[j], ParentRef(parents, j), blockId, txIds))
  }

  predicate KnownCollection(col: Collection) {
    !col.OtherCol?
  }

  /** What stamping and recording demand of a group before it is written. */
  predicate Stampable(col: Collection, docs: seq<Doc>, blockId: Option<DocId>) {
    && KnownCollection(col)
    && (col.TxCol? || col.LogCol? ==> forall j :: 0 <= j < |docs| ==> Linkable(docs[j], blockId))
  }

  /** A transaction or log document needs a transaction hash and a stored block to link to. */
  predicate Linkable(doc: Doc, blockId: Option<DocId>) {
    NamesTx(doc) && blockId.Some?
  }

  /** The link stamper of one conversion result. */
  class Stamper {
    const aleParents: seq<string>
    var blockId: Option<DocId>
    var txIds: map<string, DocId>

    constructor (aleParents: seq<string>)
      ensures this.aleParents == aleParents && blockId == None && txIds == map[]
    {
      this.aleParents := aleParents;
      blockId := None;
      txIds := map[];
    }

    /** Stamp every derivable link; the first malformed document stops the pass. */
    method StampBeforeWrite(col: Collection, docs: seq<Doc>) returns (stamped: seq<Doc>, ok: bool)
      ensures ok <==> Stampable(col, docs, blockId)
      ensures ok ==> stamped == StampDocs(col, docs, aleParents, blockId, txIds)
      ensures |stamped| == |docs|
      ensures forall j :: 0 <= j < |docs| ==> stamped[j] == docs[j] || stamped[j] == StampDocs(col, docs, aleParents, blockId, txIds)[j]
    {
      stamped := docs;
      if !KnownCollection(col) {
        return stamped, false;
      }
      ghost var all := StampDocs(col, docs, aleParents, blockId, txIds);
      for j := 0 to |docs|
        invariant |stamped| == |docs|
        invariant forall k :: 0 <= k < j ==> stamped[k] == all[k]
        invariant forall k :: j <= k < |docs| ==> stamped[k] == docs[k]
        invariant col.TxCol? || col.LogCol? ==> forall k :: 0 <= k < j ==> Linkable(docs[k], blockId)
      {
        if (col.TxCol? || col.LogCol?) && !Linkable(docs[j], blockId) {
          return stamped, false;
        }
        stamped := stamped[j := StampDoc(col, docs[j], ParentRef(aleParents, j), blockId, txIds)];
      }
      return stamped, true;
    }

    /** Harvest a write's identifiers for later groups. Documents without an identifier are skipped. */
    method RecordDocIDs(col: Collection, docs: seq<Doc>, ids: seq<DocId>) returns (ok: bool)
      modifies this
      ensures ok <==> KnownCollection(col) && (col.TxCol? ==> forall j :: 0 <= j < |docs| ==> NamesTx(docs[j]))
      ensures blockId == if col.BlockCol? && ids != [] then Some(ids[0]) else old(blockId)
      ensures ok && col.TxCol? ==> txIds == Record(old(txIds), docs, ids)
      ensures !col.TxCol? ==> txIds == old(txIds)
    {
      match col
      case BlockCol =>
        if |ids| > 0 {
          blockId := Some(ids[0]);
        }
        return true;
      case TxCol =>
        for j := 0 to |docs|
          invariant txIds == Record(old(txIds), docs[..j], ids) && blockId == old(blockId)
          invariant forall k :: 0 <= k < j ==> NamesTx(docs[k])
        {
          if !NamesTx(docs[j]) {
            return false;
          }
          assert docs[..j + 1][..j] == docs[..j];
          if j < |ids| {
            txIds := txIds[docs[j].txHash.value := ids[j]];
          }
        }
        assert docs[..|docs|] == docs;
        return true;
      case LogCol => return true;
      case AleCol => return true;
      case OtherCol(_) => return false;
    }
  }

  // ---------------------------------------------------------------- what the links of a stored block mean

  /** The transactions of these groups by hash, as recorded after each group was written in full. */
  function TxIndex(groups: seq<Group>): map<string, DocId>
    decreases |groups|
  {
    if groups == [] then map[]
    else
      var g := groups[|groups| - 1];
      var before := TxIndex(groups[..|groups| - 1]);
      if g.col.TxCol? then Record(before, g.docs, Ids(g.col, g.docs)) else before
  }

  /** The groups as they are written: each is stamped with what the groups before it recorded. */
  function StampAll(groups: seq<Group>, parents: seq<string>, blockId: Option<DocId>): (r: seq<Group>)
    ensures |r| == |groups|
    decreases |groups|
  {
    if groups == [] then []
    else
      var g := groups[|groups| - 1];
      var before := StampAll(groups[..|groups| - 1], parents, blockId);
      before + [g.(docs := StampDocs(g.col, g.docs, parents, blockId, TxIndex(before)))]
  }

  /** No two transaction documents of these groups carry the same hash. */
  ghost predicate DistinctTxs(groups: seq<Group>) {
    forall g, j, h, k :: IsTx(groups, g, j) && IsTx(groups, h, k) && groups[g].docs[j].txHash == groups[h].docs[k].txHash
      ==> g == h && j == k
  }

  ghost predicate IsTx(groups: seq<Group>, g: int, j: int) {
    0 <= g < |groups| && 0 <= j < |groups[g].docs| && groups[g].col.TxCol?
  }

  lemma {:induction false} RecordSound(txIds: map<string, DocId>, docs: seq<Doc>, ids: seq<DocId>, h: string)
    requires h in Record(txIds, docs, ids)
    ensures (h in txIds && Record(txIds, docs, ids)[h] == txIds[h]) ||
            exists j :: 0 <= j < |docs| && j < |ids| && docs[j].txHash == Some(h) && Record(txIds, docs, ids)[h] == ids[j]
    decreases |docs|
  {
    if docs != [] {
      var n := |docs| - 1;
      if !(n < |ids| && docs[n].txHash == Some(h)) {
        RecordSound(txIds, docs[..n], ids, h);
      }
    }
  }

  lemma {:induction false} RecordComplete(txIds: map<string, DocId>, docs: seq<Doc>, ids: seq<DocId>)
    ensures forall h :: h in txIds ==> h in Record(txIds, docs, ids)
    ensures forall j :: 0 <= j < |docs| && j < |ids| && docs[j].txHash.Some? ==> docs[j].txHash.value in Record(txIds, docs, ids)
    decreases |docs|
  {
    if docs != [] {
      RecordComplete(txIds, docs[..|docs| - 1], ids);
    }
  }

  /** An indexed hash belongs to a transaction document of these groups, and the entry is that document's identifier. */
  lemma {:induction false} IndexSound(groups: seq<Group>, h: string)
    requires h in TxIndex(groups)
    ensures exists g, j :: IsTx(groups, g, j) && groups[g].docs[j].txHash == Some(h) && TxIndex(groups)[h] == DocId(TxCol, groups[g].docs[j])
    decreases |groups|
  {
    var n := |groups| - 1;
    var g := groups[n];
    var before := TxIndex(groups[..n]);
    if g.col.TxCol? {
      RecordSound(before, g.docs, Ids(g.col, g.docs), h);
      if j :| 0 <= j < |g.docs| && g.docs[j].txHash == Some(h) && TxIndex(groups)[h] == DocId(TxCol, g.docs[j]) {
        assert IsTx(groups, n, j);
      } else {
        IndexSoundBelow(groups, h);
      }
    } else {
      IndexSoundBelow(groups, h);
    }
  }

  lemma {:induction false} IndexSoundBelow(groups: seq<Group>, h: string)
    requires groups != [] && h in TxIndex(groups[..|groups| - 1]) && h in TxIndex(groups)
    requires TxIndex(groups)[h] == TxIndex(groups[..|groups| - 1])[h]
    ensures exists g, j :: IsTx(groups, g, j) && groups[g].docs[j].txHash == Some(h) && TxIndex(groups)[h] == DocId(TxCol, groups[g].docs[j])
    decreases |groups|, 0
  {
    var init := groups[..|groups| - 1];
    IndexSound(init, h);
    var g, j :| IsTx(init, g, j) && init[g].docs[j].txHash == Some(h) && TxIndex(init)[h] == DocId(TxCol, init[g].docs[j]);
    assert IsTx(groups, g, j);
  }

  /** Every transaction document is indexed under its hash. */
  lemma {:induction false} IndexComplete(groups: seq<Group>, g: int, j: int)
    requires IsTx(groups, g, j) && groups[g].docs[j].txHash.Some?
    ensures groups[g].docs[j].txHash.value in TxIndex(groups)
    decreases |groups|
  {
    var n := |groups| - 1;
    var last := groups[n];
    RecordComplete(TxIndex(groups[..n]), last.docs, Ids(last.col, last.docs));
    if g < n {
      assert IsTx(groups[..n], g, j);
      IndexComplete(groups[..n], g, j);
    }
  }

  /** With distinct hashes the index is exactly hash to document identifier. */
  lemma IndexExact(groups: seq<Group>, g: int, j: int)
    requires DistinctTxs(groups) && IsTx(groups, g, j) && groups[g].docs[j].txHash.Some?
    ensures groups[g].docs[j].txHash.value in TxIndex(groups)
    ensures TxIndex(groups)[groups[g].docs[j].txHash.value] == DocId(TxCol, groups[g].docs[j])
  {
    var h := groups[g].docs[j].txHash.value;
    IndexComplete(groups, g, j);
    IndexSound(groups, h);
    var g', j' :| IsTx(groups, g', j') && groups[g'].docs[j'].txHash == Some(h) && TxIndex(groups)[h] == DocId(TxCol, groups[g'].docs[j']);
    assert IsTx(groups, g, j) && IsTx(groups, g', j');
  }

  lemma {:induction false} StampAllAt(groups: seq<Group>, parents: seq<string>, blockId: Option<DocId>, i: nat)
    requires i < |groups|
    ensures var r := StampAll(groups, parents, blockId);
            && r[..i] == StampAll(groups[..i], parents, blockId)
            && r[i] == groups[i].(docs := StampDocs(groups[i].col, groups[i].docs, parents, blockId, TxIndex(r[..i])))
    decreases |groups|
  {
    var n := |groups| - 1;
    var r := StampAll(groups, parents, blockId);
    if i < n {
      StampAllAt(groups[..n], parents, blockId, i);
      assert r[..n] == StampAll(groups[..n], parents, blockId);
      assert r[..i] == r[..n][..i];
      assert groups[..n][..i] == groups[..i];
    } else {
      assert r[..n] == StampAll(groups[..n], parents, blockId);
    }
  }

  /** Stamping changes links only. */
  lemma StampAllSame(groups: seq<Group>, parents: seq<string>, blockId: Option<DocId>, i: nat, j: nat)
    requires i < |groups| && j < |groups[i].docs|
    ensures var r := StampAll(groups, parents, blockId);
            && r[i].col == groups[i].col && |r[i].docs| == |groups[i].docs|
            && r[i].docs[j].txHash == groups[i].docs[j].txHash && r[i].docs[j].content == groups[i].docs[j].content
  {
    StampAllAt(groups, parents, blockId, i);
    var r := StampAll(groups, parents, blockId);
    StampDocsSame(groups[i].col, groups[i].docs, parents, blockId, TxIndex(r[..i]), j);
  }

  lemma StampDocsSame(col: Collection, docs: seq<Doc>, parents: seq<string>, blockId: Option<DocId>, txIds: map<string, DocId>, j: nat)
    requires j < |docs|
    ensures var r := StampDocs(col, docs, parents, blockId, txIds);
            |r| == |docs| && r[j].txHash == docs[j].txHash && r[j].content == docs[j].content
  {
  }

  lemma StampedDistinct(groups: seq<Group>, parents: seq<string>, blockId: Option<DocId>, i: nat)
    requires DistinctTxs(groups) && i <= |groups|
    ensures DistinctTxs(StampAll(groups, parents, blockId)[..i])
  {
    var r := StampAll(groups, parents, blockId);
    forall g, j | IsTx(r[..i], g, j) ensures IsTx(groups, g, j) && r[..i][g].docs[j].txHash == groups[g].docs[j].txHash {
      StampAllAt(groups, parents, blockId, g);
      StampAllSame(groups, parents, blockId, g, j);
    }
  }

  /** A link for hash h: the document of the transaction with that hash when these groups hold one, nothing otherwise. */
  ghost predicate PointsAtTx(groups: seq<Group>, h: string, link: Option<DocId>) {
    && (forall g, j :: IsTx(groups, g, j) && groups[g].docs[j].txHash == Some(h) ==> link == Some(DocId(TxCol, groups[g].docs[j])))
    && ((forall g, j :: IsTx(groups, g, j) ==> groups[g].docs[j].txHash != Some(h)) ==> link == None)
  }

  lemma LookupPointsAtTx(groups: seq<Group>, h: string)
    requires DistinctTxs(groups)
    ensures PointsAtTx(groups, h, Lookup(TxIndex(groups), Some(h), None))
  {
    forall g, j | IsTx(groups, g, j) && groups[g].docs[j].txHash == Some(h)
      ensures Lookup(TxIndex(groups), Some(h), None) == Some(DocId(TxCol, groups[g].docs[j]))
    {
      IndexExact(groups, g, j);
    }
    if h in TxIndex(groups) {
      IndexSound(groups, h);
    }
  }

  /** The converter sets no link field. */
  ghost predicate Unlinked(groups: seq<Group>) {
    forall i, j :: 0 <= i < |groups| && 0 <= j < |groups[i].docs| ==>
      groups[i].docs[j].blockLink == None && groups[i].docs[j].txLink == None
  }

  /** The links a document of a stored block must carry, given the groups written before its own. */
  ghost predicate DocLinked(before: seq<Group>, col: Collection, doc: Doc, parent: Option<string>, blockId: DocId) {
    match col
    case TxCol => doc.blockLink == Some(blockId)
    case LogCol => doc.blockLink == Some(blockId) && (doc.txHash.Some? ==> PointsAtTx(before, doc.txHash.value, doc.txLink))
    case AleCol => if parent.Some? then PointsAtTx(before, parent.value, doc.txLink) else doc.txLink == None
    case _ => true
  }

  /**
   * The links of a stored block: transactions and logs point at the block document,
   * and every log or access-list entry points at the document of the transaction
   * with its hash, or nowhere when no such transaction was written before it.
   */
  lemma LinksCorrect(groups: seq<Group>, parents: seq<string>, blockId: DocId, i: nat, j: nat)
    requires DistinctTxs(groups) && Unlinked(groups) && i < |groups| && j < |groups[i].docs|
    ensures var r := StampAll(groups, parents, Some(blockId));
            |r[i].docs| == |groups[i].docs| && DocLinked(r[..i], groups[i].col, r[i].docs[j], ParentRef(parents, j), blockId)
  {
    var r := StampAll(groups, parents, Some(blockId));
    var col, doc := groups[i].col, groups[i].docs[j];
    StampAllAt(groups, parents, Some(blockId), i);
    StampedDistinct(groups, parents, Some(blockId), i);
    if col.LogCol? && doc.txHash.Some? {
      LookupPointsAtTx(r[..i], doc.txHash.value);
    } else if col.AleCol? && j < |parents| {
      LookupPointsAtTx(r[..i], parents[j]);
    }
  }
}
