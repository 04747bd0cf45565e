/** The two ways a block's receipts are fetched, merged onto its transactions and turned into log documents. */
module Receipts {
  import opened Chain

  datatype Log = Log(content: nat)

  datatype Receipt = Receipt(txHash: string, blockHash: string, status: string, gasUsed: string, cumulativeGasUsed: string,
                             effectiveGasPrice: string, logs: seq<Log>)

  /** A transaction: its hash, its signed payload, and the outcome fields that conversion leaves at their defaults. */
  datatype Transaction = Transaction(hash: string, payload: nat, status: bool, gasUsed: string, cumulativeGasUsed: string,
                                     effectiveGasPrice: string)

  function LowerChar(c: char): char {
    if 'A' <= c <= 'Z' then c - 'A' + 'a' else c
  }

  function Lower(s: string): string {
    seq(|s|, i requires 0 <= i < |s| => LowerChar(s[i]))
  }

  predicate EqualFold(a: string, b: string) {
    Lower(a) == Lower(b)
  }

  /** The same letter, in whatever case. */
  predicate SameLetter(c: char, d: char) {
    c == d || ('A' <= c <= 'Z' && d as int == c as int + 32) || ('A' <= d <= 'Z' && c as int == d as int + 32)
  }

  /** Two hashes are equal up to case exactly when they agree letter by letter. */
  lemma EqualFoldIff(a: string, b: string)
    ensures EqualFold(a, b) <==> |a| == |b| && forall i :: 0 <= i < |a| ==> SameLetter(a[i], b[i])
  {
    if EqualFold(a, b) {
      assert |Lower(a)| == |Lower(b)|;
      forall i | 0 <= i < |a| ensures SameLetter(a[i], b[i]) {
        assert Lower(a)[i] == Lower(b)[i];
      }
    }
    if |a| == |b| && forall i :: 0 <= i < |a| ==> SameLetter(a[i], b[i]) {
      forall i | 0 <= i < |a| ensures Lower(a)[i] == Lower(b)[i] {
        assert SameLetter(a[i], b[i]);
      }
    }
  }

  // ---------------------------------------------------------------- what the paths check

  /** A receipt that was served and belongs to the pinned block. */
  predicate Pinned(r: Option<Receipt>, blockHash: string) {
    r.Some? && EqualFold(r.value.blockHash, blockHash)
  }

  predicate AllPinned(receipts: seq<Option<Receipt>>, blockHash: string) {
    forall i :: 0 <= i < |receipts| ==> Pinned(receipts[i], blockHash)
  }

  ghost predicate Serves(receipts: seq<Option<Receipt>>, hash: string) {
    exists j :: 0 <= j < |receipts| && receipts[j].Some? && EqualFold(receipts[j].value.txHash, hash)
  }

  ghost predicate CoversAll(txs: seq<Transaction>, receipts: seq<Option<Receipt>>) {
    forall i :: 0 <= i < |txs| ==> Serves(receipts, txs[i].hash)
  }

  method ReceiptHashesMatch(receipts: seq<Option<Receipt>>, blockHash: string) returns (ok: bool)
    ensures ok <==> AllPinned(receipts, blockHash)
  {
    for i := 0 to |receipts|
      invariant AllPinned(receipts[..i], blockHash)
    {
      if receipts[i].None? || !EqualFold(receipts[i].value.blockHash, blockHash) {
        return false;
      }
    }
    return true;
  }

  method BatchCoversTransactions(txs: seq<Transaction>, receipts: seq<Option<Receipt>>) returns (ok: bool)
    ensures ok <==> CoversAll(txs, receipts)
  {
    var served: set<string> := {};
    for i := 0 to |receipts|
      invariant forall s :: s in served <==> exists j :: 0 <= j < i && receipts[j].Some? && Lower(receipts[j].value.txHash) == s
    {
      if receipts[i].Some? {
        served := served + {Lower(receipts[i].value.txHash)};
      }
    }
    for i := 0 to |txs|
      invariant forall k :: 0 <= k < i ==> Serves(receipts, txs[k].hash)
    {
      if Lower(txs[i].hash) !in served {
        return false;
      }
    }
    return true;
  }

  // ---------------------------------------------------------------- merging

  /** Receipts by exact transaction hash; the last one of a hash counts. */
  function ByHash(receipts: seq<Option<Receipt>>): map<string, Receipt> {
    if receipts == [] then map[]
    else
      var n := |receipts| - 1;
      var before := ByHash(receipts[..n]);
      if receipts[n].Some? then before[receipts[n].value.txHash := receipts[n].value] else before
  }

  method BuildReceiptMap(receipts: seq<Option<Receipt>>) returns (byHash: map<string, Receipt>)
    ensures byHash == ByHash(receipts)
  {
    byHash := map[];
    for i := 0 to |receipts|
      invariant byHash == ByHash(receipts[..i])
    {
      assert receipts[..i + 1][..i] == receipts[..i];
      if receipts[i].Some? {
        byHash := byHash[receipts[i].value.txHash := receipts[i].value];
      }
    }
    assert receipts[..|receipts|] == receipts;
  }

  /** The transaction with all four outcome fields of a receipt. */
  function WithOutcome(tx: Transaction, r: Receipt): Transaction {
    tx.(status := r.status == "1", gasUsed := r.gasUsed, cumulativeGasUsed := r.cumulativeGasUsed, effectiveGasPrice := r.effectiveGasPrice)
  }

  function Merged(tx: Transaction, byHash: map<string, Receipt>): Transaction {
    if tx.hash in byHash then WithOutcome(tx, byHash[tx.hash]) else tx
  }

  function MergedAll(txs: seq<Transaction>, byHash: map<string, Receipt>): seq<Transaction> {
    seq(|txs|, i requires 0 <= i < |txs| => Merged(txs[i], byHash))
  }

  /** Overwrite the outcome fields in place; a transaction without a receipt stays as it is. */
  method MergeReceiptsOntoTransactions(txs: array<Transaction>, receipts: seq<Option<Receipt>>)
    modifies txs
    ensures txs[..] == MergedAll(old(txs[..]), ByHash(receipts))
    ensures forall i :: 0 <= i < txs.Length ==> MergedFrom(old(txs[i]), txs[i], receipts)
  {
    var byHash := BuildReceiptMap(receipts);
    for i := 0 to txs.Length
      invariant forall k :: 0 <= k < i ==> txs[k] == Merged(old(txs[k]), byHash)
      invariant forall k :: i <= k < txs.Length ==> txs[k] == old(txs[k])
    {
      var tx := txs[i];
      if tx.hash in byHash {
        var r := byHash[tx.hash];
        txs[i] := tx.(status := r.status == "1", gasUsed := r.gasUsed, cumulativeGasUsed := r.cumulativeGasUsed,
                      effectiveGasPrice := r.effectiveGasPrice);
      }
    }
    forall i | 0 <= i < txs.Length ensures MergedFrom(old(txs[i]), txs[i], receipts) {
      MergedMeans(old(txs[i]), receipts);
    }
  }

  /** The logs of a block in transaction order. */
  function LogDocs(txs: seq<Transaction>, byHash: map<string, Receipt>): seq<Log> {
    if txs == [] then []
    else
      var n := |txs| - 1;
      LogDocs(txs[..n], byHash) + if txs[n].hash in byHash then byHash[txs[n].hash].logs else []
  }

  function LogsOf(tx: Transaction, byHash: map<string, Receipt>): seq<Log> {
    if tx.hash in byHash then byHash[tx.hash].logs else []
  }

  /** How many logs these transactions have. */
  ghost function LogCount(txs: seq<Transaction>, byHash: map<string, Receipt>): nat {
    if txs == [] then 0 else LogCount(txs[..|txs| - 1], byHash) + |LogsOf(txs[|txs| - 1], byHash)|
  }

  /** The logs of this transaction follow those of the transactions before it, in their own order. */
  ghost predicate LogsFollow(docs: seq<Log>, txs: seq<Transaction>, byHash: map<string, Receipt>, t: nat)
    requires t < |txs|
  {
    var from := LogCount(txs[..t], byHash);
    from + |LogsOf(txs[t], byHash)| <= |docs| && docs[from..from + |LogsOf(txs[t], byHash)|] == LogsOf(txs[t], byHash)
  }

  lemma {:induction false} LogsInOrder(txs: seq<Transaction>, byHash: map<string, Receipt>, t: nat)
    requires t < |txs|
    ensures |LogDocs(txs, byHash)| == LogCount(txs, byHash) && LogsFollow(LogDocs(txs, byHash), txs, byHash, t)
    decreases |txs|
  {
    var n := |txs| - 1;
    LogsCounted(txs, byHash);
    if t < n {
      LogsInOrder(txs[..n], byHash, t);
      assert txs[..n][..t] == txs[..t];
    } else {
      LogsCounted(txs[..n], byHash);
    }
  }

  lemma {:induction false} LogsCounted(txs: seq<Transaction>, byHash: map<string, Receipt>)
    ensures |LogDocs(txs, byHash)| == LogCount(txs, byHash)
    decreases |txs|
  {
    if txs != [] {
      LogsCounted(txs[..|txs| - 1], byHash);
    }
  }

  /** Every transaction's logs, in transaction order, and no others. */
  ghost predicate InLogOrder(docs: seq<Log>, txs: seq<Transaction>, byHash: map<string, Receipt>) {
    |docs| == LogCount(txs, byHash) && forall t :: 0 <= t < |txs| ==> LogsFollow(docs, txs, byHash, t)
  }

  lemma AllLogsInOrder(txs: seq<Transaction>, byHash: map<string, Receipt>)
    ensures InLogOrder(LogDocs(txs, byHash), txs, byHash)
  {
    LogsCounted(txs, byHash);
    forall t | 0 <= t < |txs| ensures LogsFollow(LogDocs(txs, byHash), txs, byHash, t) {
      LogsInOrder(txs, byHash, t);
    }
  }

  method BuildLogDocs(txs: seq<Transaction>, byHash: map<string, Receipt>) returns (docs: seq<Log>)
    ensures docs == LogDocs(txs, byHash) && InLogOrder(docs, txs, byHash)
  {
    docs := [];
    for t := 0 to |txs|
      invariant docs == LogDocs(txs[..t], byHash)
    {
      assert txs[..t + 1][..t] == txs[..t];
      if txs[t].hash in byHash {
        var logs := byHash[txs[t].hash].logs;
        ghost var before := docs;
        for i := 0 to |logs|
          invariant docs == before + logs[..i]
        {
          docs := docs + [logs[i]];
        }
      }
    }
    assert txs[..|txs|] == txs;
    AllLogsInOrder(txs, byHash);
  }

  // ---------------------------------------------------------------- the two paths

  /** The slots of the per-transaction path: an unserved or unpinned receipt leaves a hole. */
  function Slots(answers: seq<Option<Receipt>>, blockHash: string): seq<Option<Receipt>> {
    seq(|answers|, i requires 0 <= i < |answers| => if Pinned(answers[i], blockHash) then answers[i] else None)
  }

  /** Fill the slots in any order the workers finish; no failure stops the others. */
  method FetchReceiptsIndividually(order: seq<int>, answers: seq<Option<Receipt>>, blockHash: string) returns (receipts: seq<Option<Receipt>>)
    requires forall i :: 0 <= i < |answers| ==> i in order
    requires forall k :: 0 <= k < |order| ==> 0 <= order[k] < |answers|
    ensures receipts == Slots(answers, blockHash)
  {
    var slots := new Option<Receipt>[|answers|](_ => None);
    for k := 0 to |order|
      invariant forall i :: 0 <= i < |answers| && i in order[..k] ==> slots[i] == Slots(answers, blockHash)[i]
      invariant forall i :: 0 <= i < |answers| && i !in order[..k] ==> slots[i] == None
    {
      var answer := answers[order[k]];
      if answer.Some? && EqualFold(answer.value.blockHash, blockHash) {
        slots[order[k]] := answer;
      }
    }
    assert order[..|order|] == order;
    return slots[..];
  }

  ghost predicate BatchUsable(txs: seq<Transaction>, batch: Option<seq<Option<Receipt>>>, blockHash: string) {
    batch.Some? && AllPinned(batch.value, blockHash) && CoversAll(txs, batch.value)
  }

  // ---------------------------------------------------------------- whose outcome a transaction takes

  /** Some receipt of the list carries exactly this transaction hash. */
  ghost predicate Carries(receipts: seq<Option<Receipt>>, hash: string) {
    exists i :: 0 <= i < |receipts| && receipts[i].Some? && receipts[i].value.txHash == hash
  }

  ghost predicate AllCarried(txs: seq<Transaction>, receipts: seq<Option<Receipt>>) {
    forall i :: 0 <= i < |txs| ==> Carries(receipts, txs[i].hash)
  }

  /** This receipt is the last of the list that carries the hash. */
  ghost predicate LastOf(receipts: seq<Option<Receipt>>, j: int, hash: string) {
    && 0 <= j < |receipts| && receipts[j].Some? && receipts[j].value.txHash == hash
    && forall k :: j < k < |receipts| && receipts[k].Some? ==> receipts[k].value.txHash != hash
  }

  /** All four outcome fields are the receipt's, and nothing else changed; only the status "1" is a success. */
  ghost predicate TakesOutcome(before: Transaction, after: Transaction, r: Receipt) {
    && after.hash == before.hash && after.payload == before.payload
    && (after.status <==> r.status == "1") && after.gasUsed == r.gasUsed
    && after.cumulativeGasUsed == r.cumulativeGasUsed && after.effectiveGasPrice == r.effectiveGasPrice
  }

  /** The transaction became what the last receipt of its own hash says, and that receipt is pinned. */
  ghost predicate OwnOutcome(before: Transaction, after: Transaction, receipts: seq<Option<Receipt>>, blockHash: string) {
    exists j :: LastOf(receipts, j, before.hash) && EqualFold(receipts[j].value.blockHash, blockHash) && TakesOutcome(before, after, receipts[j].value)
  }

  /** What merging does to one transaction: the outcome of the last receipt of its hash, or nothing. */
  ghost predicate MergedFrom(before: Transaction, after: Transaction, receipts: seq<Option<Receipt>>) {
    if Carries(receipts, before.hash)
    then exists j :: LastOf(receipts, j, before.hash) && TakesOutcome(before, after, receipts[j].value)
    else after == before
  }

  lemma MergedMeans(tx: Transaction, receipts: seq<Option<Receipt>>)
    ensures MergedFrom(tx, Merged(tx, ByHash(receipts)), receipts)
  {
    ByHashExact(receipts, tx.hash);
    if Carries(receipts, tx.hash) {
      var j :| LastOf(receipts, j, tx.hash) && receipts[j].value == ByHash(receipts)[tx.hash];
      assert TakesOutcome(tx, Merged(tx, ByHash(receipts)), receipts[j].value);
    }
  }

  lemma {:induction false} ByHashExact(receipts: seq<Option<Receipt>>, h: string)
    ensures h in ByHash(receipts) <==> Carries(receipts, h)
    ensures h in ByHash(receipts) ==> exists j :: LastOf(receipts, j, h) && receipts[j].value == ByHash(receipts)[h]
    decreases |receipts|
  {
    if receipts != [] {
      var n := |receipts| - 1;
      ByHashExact(receipts[..n], h);
      assert forall i :: 0 <= i < n ==> receipts[..n][i] == receipts[i];
      if receipts[n].Some? && receipts[n].value.txHash == h {
        assert LastOf(receipts, n, h);
      } else if h in ByHash(receipts) {
        var j :| LastOf(receipts[..n], j, h) && receipts[..n][j].value == ByHash(receipts[..n])[h];
        StillLast(receipts, j, h);
      }
    }
  }

  lemma StillLast(receipts: seq<Option<Receipt>>, j: int, h: string)
    requires receipts != [] && LastOf(receipts[..|receipts| - 1], j, h)
    requires var r := receipts[|receipts| - 1]; r.None? || r.value.txHash != h
    ensures LastOf(receipts, j, h)
  {
    var n := |receipts| - 1;
    assert forall k :: 0 <= k < n ==> receipts[..n][k] == receipts[k];
  }

  /** A transaction takes the outcome of a pinned receipt of its own if and only if some receipt carries exactly its hash. */
  lemma OutcomeIff(tx: Transaction, receipts: seq<Option<Receipt>>, blockHash: string)
    requires AllPinned(receipts, blockHash)
    ensures OwnOutcome(tx, Merged(tx, ByHash(receipts)), receipts, blockHash) <==> Carries(receipts, tx.hash)
    ensures !Carries(receipts, tx.hash) ==> Merged(tx, ByHash(receipts)) == tx
  {
    ByHashExact(receipts, tx.hash);
    if Carries(receipts, tx.hash) {
      var j :| LastOf(receipts, j, tx.hash) && receipts[j].value == ByHash(receipts)[tx.hash];
      assert Pinned(receipts[j], blockHash);
      assert TakesOutcome(tx, Merged(tx, ByHash(receipts)), receipts[j].value);
    }
  }

  lemma OutcomesIff(txs: seq<Transaction>, receipts: seq<Option<Receipt>>, blockHash: string)
    requires AllPinned(receipts, blockHash)
    ensures forall i :: 0 <= i < |txs| ==>
              && (OwnOutcome(txs[i], MergedAll(txs, ByHash(receipts))[i], receipts, blockHash) <==> Carries(receipts, txs[i].hash))
              && (!Carries(receipts, txs[i].hash) ==> MergedAll(txs, ByHash(receipts))[i] == txs[i])
  {
    forall i | 0 <= i < |txs|
      ensures OwnOutcome(txs[i], MergedAll(txs, ByHash(receipts))[i], receipts, blockHash) <==> Carries(receipts, txs[i].hash)
      ensures !Carries(receipts, txs[i].hash) ==> MergedAll(txs, ByHash(receipts))[i] == txs[i]
    {
      OutcomeIff(txs[i], receipts, blockHash);
    }
  }

  /** The verified batch, or else one receipt per transaction; an unpinned or missing receipt fails the fetch. */
  method FetchTransactionsAndReceipts(txs: array<Transaction>, batch: Option<seq<Option<Receipt>>>, order: seq<int>,
                                      answers: seq<Option<Receipt>>, blockHash: string)
    returns (receipts: seq<Option<Receipt>>, ok: bool)
    requires |answers| == txs.Length && forall i :: 0 <= i < |answers| ==> i in order
    requires forall k :: 0 <= k < |order| ==> 0 <= order[k] < |answers|
    modifies txs
    ensures ok <==> BatchUsable(old(txs[..]), batch, blockHash) || AllPinned(answers, blockHash)
    ensures !ok ==> txs[..] == old(txs[..])
    ensures ok ==> AllPinned(receipts, blockHash) && txs[..] == MergedAll(old(txs[..]), ByHash(receipts))
    ensures BatchUsable(old(txs[..]), batch, blockHash) ==> Some(receipts) == batch
    ensures !BatchUsable(old(txs[..]), batch, blockHash) ==> receipts == Slots(answers, blockHash)
    ensures ok ==> forall i :: 0 <= i < txs.Length ==>
              && (OwnOutcome(old(txs[i]), txs[i], receipts, blockHash) <==> Carries(receipts, old(txs[i]).hash))
              && (!Carries(receipts, old(txs[i]).hash) ==> txs[i] == old(txs[i]))
  {
    if batch.Some? {
      var match_ := ReceiptHashesMatch(batch.value, blockHash);
      var covers := BatchCoversTransactions(txs[..], batch.value);
      if match_ && covers {
        MergeReceiptsOntoTransactions(txs, batch.value);
        OutcomesIff(old(txs[..]), batch.value, blockHash);
        return batch.value, true;
      }
    }
    receipts := FetchReceiptsIndividually(order, answers, blockHash);
    var failed := 0;
    for i := 0 to |receipts|
      invariant failed >= 0
      invariant failed == 0 <==> forall k :: 0 <= k < i ==> Pinned(answers[k], blockHash)
    {
      if receipts[i].None? {
        failed := failed + 1;
      }
    }
    if failed > 0 {
      return receipts, false;
    }
    assert receipts == answers;
    MergeReceiptsOntoTransactions(txs, receipts);
    OutcomesIff(old(txs[..]), receipts, blockHash);
    return receipts, true;
  }

  // ---------------------------------------------------------------- agreement

  /** Every receipt served is the node's receipt for its transaction hash. */
  ghost predicate FromNode(node: string -> Receipt, receipts: seq<Option<Receipt>>) {
    forall i :: 0 <= i < |receipts| && receipts[i].Some? ==> receipts[i].value == node(receipts[i].value.txHash)
  }

  /** Hashes that agree up to case are spelled alike, as they are in any one canonical case. */
  ghost predicate OneCase(txs: seq<Transaction>, receipts: seq<Option<Receipt>>) {
    forall i, j :: 0 <= i < |txs| && 0 <= j < |receipts| && receipts[j].Some? && EqualFold(receipts[j].value.txHash, txs[i].hash) ==>
      receipts[j].value.txHash == txs[i].hash
  }

  /** Whatever the order, repeats or extras, a node that answers by hash is indexed the same. */
  lemma NodeByHash(node: string -> Receipt, receipts: seq<Option<Receipt>>, h: string)
    requires FromNode(node, receipts)
    ensures h in ByHash(receipts) ==> ByHash(receipts)[h] == node(h)
  {
    ByHashExact(receipts, h);
    if h in ByHash(receipts) {
      var i :| LastOf(receipts, i, h) && receipts[i].value == ByHash(receipts)[h];
    }
  }

  /** On the batch path one case is enough: coverage up to case is then exact coverage. */
  lemma OneCaseCarries(txs: seq<Transaction>, receipts: seq<Option<Receipt>>)
    requires CoversAll(txs, receipts) && OneCase(txs, receipts)
    ensures AllCarried(txs, receipts)
  {
    forall i | 0 <= i < |txs| ensures Carries(receipts, txs[i].hash) {
      assert Serves(receipts, txs[i].hash);
    }
  }

  /** On the per-transaction path it is enough that every answer is for the transaction asked about. */
  lemma OwnAnswersCarry(txs: seq<Transaction>, answers: seq<Option<Receipt>>)
    requires |answers| == |txs| && forall i :: 0 <= i < |txs| ==> answers[i].Some? && answers[i].value.txHash == txs[i].hash
    ensures AllCarried(txs, answers)
  {
    forall i | 0 <= i < |txs| ensures Carries(answers, txs[i].hash) {
      assert answers[i].Some? && answers[i].value.txHash == txs[i].hash;
    }
  }

  lemma {:induction false} SameLogs(txs: seq<Transaction>, a: map<string, Receipt>, b: map<string, Receipt>)
    requires forall i :: 0 <= i < |txs| ==> txs[i].hash in a && txs[i].hash in b && a[txs[i].hash] == b[txs[i].hash]
    ensures LogDocs(txs, a) == LogDocs(txs, b)
    decreases |txs|
  {
    if txs != [] {
      SameLogs(txs[..|txs| - 1], a, b);
    }
  }

  lemma {:induction false} MergingKeepsHashes(txs: seq<Transaction>, merged: seq<Transaction>, byHash: map<string, Receipt>)
    requires |txs| == |merged| && forall i :: 0 <= i < |txs| ==> txs[i].hash == merged[i].hash
    ensures LogDocs(merged, byHash) == LogDocs(txs, byHash)
    decreases |txs|
  {
    if txs != [] {
      MergingKeepsHashes(txs[..|txs| - 1], merged[..|merged| - 1], byHash);
    }
  }

  /**
   * Whenever both paths succeed they give the same transactions and the same log
   * documents, for any node whose receipts are a function of the transaction hash and a
   * batch that carries every hash exactly, as it does when hashes come in one case,
   * whatever the order, repeats or extras of the batch.
   */
  lemma PathsAgree(node: string -> Receipt, txs: seq<Transaction>, batch: seq<Option<Receipt>>, answers: seq<Option<Receipt>>, blockHash: string)
    requires FromNode(node, batch) && AllCarried(txs, batch)
    requires |answers| == |txs| && forall i :: 0 <= i < |txs| ==> answers[i].Some? ==> answers[i].value == node(txs[i].hash) && answers[i].value.txHash == txs[i].hash
    requires BatchUsable(txs, Some(batch), blockHash) && AllPinned(answers, blockHash)
    ensures MergedAll(txs, ByHash(batch)) == MergedAll(txs, ByHash(Slots(answers, blockHash)))
    ensures LogDocs(MergedAll(txs, ByHash(batch)), ByHash(batch))
            == LogDocs(MergedAll(txs, ByHash(Slots(answers, blockHash))), ByHash(Slots(answers, blockHash)))
  {
    assert Slots(answers, blockHash) == answers;
    forall i | 0 <= i < |txs|
      ensures txs[i].hash in ByHash(batch) && txs[i].hash in ByHash(answers) && ByHash(batch)[txs[i].hash] == ByHash(answers)[txs[i].hash]
    {
      var h := txs[i].hash;
      ByHashExact(batch, h);
      NodeByHash(node, batch, h);
      assert answers[i].Some? && answers[i].value.txHash == h;
      ByHashExact(answers, h);
      NodeByHash(node, answers, h);
    }
    assert MergedAll(txs, ByHash(batch)) == MergedAll(txs, ByHash(answers));
    SameLogs(txs, ByHash(batch), ByHash(answers));
    MergingKeepsHashes(txs, MergedAll(txs, ByHash(batch)), ByHash(batch));
    MergingKeepsHashes(txs, MergedAll(txs, ByHash(answers)), ByHash(answers));
  }

  /** The two paths give the same transactions exactly where the batch carries the hash or had nothing to change. */
  lemma PathsAgreeIff(node: string -> Receipt, txs: seq<Transaction>, batch: seq<Option<Receipt>>, answers: seq<Option<Receipt>>, blockHash: string)
    requires FromNode(node, batch) && |answers| == |txs| && AllPinned(answers, blockHash)
    requires forall i :: 0 <= i < |txs| ==> answers[i].Some? ==> answers[i].value == node(txs[i].hash) && answers[i].value.txHash == txs[i].hash
    ensures MergedAll(txs, ByHash(batch)) == MergedAll(txs, ByHash(Slots(answers, blockHash))) <==>
              forall i :: 0 <= i < |txs| ==> Carries(batch, txs[i].hash) || TakesOutcome(txs[i], txs[i], node(txs[i].hash))
  {
    assert Slots(answers, blockHash) == answers;
    var a, b := MergedAll(txs, ByHash(batch)), MergedAll(txs, ByHash(answers));
    forall i | 0 <= i < |txs|
      ensures b[i] == WithOutcome(txs[i], node(txs[i].hash))
      ensures a[i] == if Carries(batch, txs[i].hash) then WithOutcome(txs[i], node(txs[i].hash)) else txs[i]
    {
      var h := txs[i].hash;
      assert answers[i].Some? && answers[i].value.txHash == h;
      ByHashExact(answers, h);
      NodeByHash(node, answers, h);
      ByHashExact(batch, h);
      NodeByHash(node, batch, h);
    }
    forall i | 0 <= i < |txs| ensures TakesOutcome(txs[i], txs[i], node(txs[i].hash)) <==> b[i] == txs[i] {
    }
    if forall i :: 0 <= i < |txs| ==> Carries(batch, txs[i].hash) || TakesOutcome(txs[i], txs[i], node(txs[i].hash)) {
      forall i | 0 <= i < |txs| ensures a[i] == b[i] {
        assert Carries(batch, txs[i].hash) || TakesOutcome(txs[i], txs[i], node(txs[i].hash));
      }
      assert a == b;
    }
  }

  /** Two spellings: coverage ignores case but merging does not, so this batch is accepted and the transaction stays as it was. */
  lemma CaseMismatchKeepsDefaults(tx: Transaction, r: Receipt, blockHash: string)
    requires EqualFold(tx.hash, r.txHash) && tx.hash != r.txHash && EqualFold(r.blockHash, blockHash)
    ensures BatchUsable([tx], Some([Some(r)]), blockHash) && !Carries([Some(r)], tx.hash)
    ensures MergedAll([tx], ByHash([Some(r)])) == [tx]
  {
    var batch := [Some(r)];
    assert batch[0].Some? && EqualFold(batch[0].value.txHash, tx.hash);
    OutcomeIff(tx, batch, blockHash);
  }

  /**
   * A receipt of another transaction of the same block: only the block hash of a single
   * answer is compared, so the fetch succeeds and the transaction stays as it was.
   */
  lemma WrongHashKeepsDefaults(tx: Transaction, r: Receipt, blockHash: string)
    requires !EqualFold(tx.hash, r.txHash) && EqualFold(r.blockHash, blockHash)
    ensures AllPinned([Some(r)], blockHash) && OneCase([tx], [Some(r)]) && !Carries([Some(r)], tx.hash)
    ensures MergedAll([tx], ByHash(Slots([Some(r)], blockHash))) == [tx]
  {
    var answers := [Some(r)];
    assert Slots(answers, blockHash) == answers;
    OutcomeIff(tx, answers, blockHash);
  }
}
