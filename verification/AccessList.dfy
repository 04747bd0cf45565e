/** Access-list entries of a block as documents: repeats dropped by a joined string key. */
module AccessList {
  import opened Chain
  import opened Documents
  import BlockWriter

  datatype Entry = Entry(address: string, keys: seq<string>)

  datatype Transaction = Transaction(hash: string, accessList: seq<Entry>)

  /** An entry together with the transaction that carries it. */
  datatype Item = Item(parent: string, entry: Entry)

  datatype AleDoc = AleDoc(address: string, blockNumber: int, keys: seq<string>)

  /** The storage keys, comma-separated. */
  function Join(keys: seq<string>): string {
    if keys == [] then "" else if |keys| == 1 then keys[0] else keys[0] + "," + Join(keys[1..])
  }

  /** Transaction hash, address and storage keys in one string. */
  function Key(item: Item): string {
    item.parent + "|" + item.entry.address + "|" + Join(item.entry.keys)
  }

  ghost predicate CleanKeys(keys: seq<string>) {
    forall i :: 0 <= i < |keys| ==> keys[i] != "" && ',' !in keys[i]
  }

  /** Parts as hexadecimal text gives them: no separators, no empty storage key. */
  ghost predicate Clean(item: Item) {
    '|' !in item.parent && '|' !in item.entry.address && CleanKeys(item.entry.keys)
  }

  // ---------------------------------------------------------------- the key tells entries apart

  lemma NoSeparatorInside(sep: char, x: string, u: string, i: int)
    ensures (x + [sep] + u)[|x|] == sep
    ensures 0 <= i < |x| && sep !in x ==> (x + [sep] + u)[i] != sep
  {
  }

  lemma CutUnique(sep: char, x: string, u: string, y: string, v: string)
    requires sep !in x && sep !in y && x + [sep] + u == y + [sep] + v
    ensures x == y && u == v
  {
    var s, t := x + [sep] + u, y + [sep] + v;
    NoSeparatorInside(sep, x, u, |y|);
    NoSeparatorInside(sep, y, v, |x|);
    assert |x| == |y|;
    assert s[..|x|] == x && t[..|y|] == y;
    assert s[|x| + 1..] == u && t[|y| + 1..] == v;
  }

  lemma JoinCommas(keys: seq<string>)
    ensures |keys| > 1 ==> ',' in Join(keys)
    ensures |keys| == 1 && CleanKeys(keys) ==> Join(keys) != "" && ',' !in Join(keys)
  {
    if |keys| > 1 {
      assert Join(keys)[|keys[0]|] == ',';
    }
  }

  lemma {:induction false} JoinInjective(a: seq<string>, b: seq<string>)
    requires CleanKeys(a) && CleanKeys(b) && Join(a) == Join(b)
    ensures a == b
    decreases |a|
  {
    JoinCommas(a);
    JoinCommas(b);
    if |a| > 1 {
      CutUnique(',', a[0], Join(a[1..]), b[0], Join(b[1..]));
      JoinInjective(a[1..], b[1..]);
      assert a == [a[0]] + a[1..] && b == [b[0]] + b[1..];
    }
  }

  lemma KeyInjective(a: Item, b: Item)
    requires Clean(a) && Clean(b) && Key(a) == Key(b)
    ensures a == b
  {
    var ra, rb := a.entry.address + "|" + Join(a.entry.keys), b.entry.address + "|" + Join(b.entry.keys);
    assert Key(a) == a.parent + ['|'] + ra && Key(b) == b.parent + ['|'] + rb;
    CutUnique('|', a.parent, ra, b.parent, rb);
    CutUnique('|', a.entry.address, Join(a.entry.keys), b.entry.address, Join(b.entry.keys));
    JoinInjective(a.entry.keys, b.entry.keys);
  }

  /** Different items can share a key: an empty storage key joins to the same text as no key. */
  lemma EmptyKeyCollides(parent: string, address: string)
    ensures var some, none := Item(parent, Entry(address, [""])), Item(parent, Entry(address, []));
            some != none && Key(some) == Key(none)
  {
    assert Join([""]) == "";
  }

  /** A storage key with a comma joins to the same text as two storage keys. */
  lemma CommaCollides(parent: string, address: string, x: string, y: string)
    ensures var one, two := Item(parent, Entry(address, [x + "," + y])), Item(parent, Entry(address, [x, y]));
            one != two && Key(one) == Key(two)
  {
    assert [x, y][1..] == [y];
    assert Join([x, y]) == x + "," + y == Join([x + "," + y]);
    assert |[x, y]| != |[x + "," + y]|;
  }

  // ---------------------------------------------------------------- first occurrences

  /** The items whose image under f did not occur before, in order. */
  function FirstBy<K(==)>(f: Item -> K, items: seq<Item>): seq<Item> {
    if items == [] then []
    else
      var n := |items| - 1;
      var before := FirstBy(f, items[..n]);
      if exists i :: 0 <= i < n && f(items[i]) == f(items[n]) then before else before + [items[n]]
  }

  function Same(item: Item): Item {
    item
  }

  lemma {:induction false} OccursFirst(items: seq<Item>, x: Item) returns (i: nat)
    requires x in items
    ensures i < |items| && items[i] == x && x !in items[..i]
  {
    i := 0;
    while items[i] != x
      invariant i < |items| && x !in items[..i]
      decreases |items| - i
    {
      i := i + 1;
    }
  }

  /** Where an item first occurs. */
  ghost function FirstIndex(items: seq<Item>, x: Item): (i: nat)
    requires x in items
    ensures i < |items| && items[i] == x && x !in items[..i]
  {
    assert exists i :: 0 <= i < |items| && items[i] == x && x !in items[..i] by {
      var i := OccursFirst(items, x);
    }
    var i :| 0 <= i < |items| && items[i] == x && x !in items[..i];
    i
  }

  lemma FirstIndexIs(items: seq<Item>, x: Item, i: nat)
    requires i < |items| && items[i] == x && x !in items[..i]
    ensures FirstIndex(items, x) == i
  {
    OccursBefore(items, FirstIndex(items, x), i);
    OccursBefore(items, i, FirstIndex(items, x));
  }

  lemma OccursBefore(items: seq<Item>, k: int, i: int)
    ensures 0 <= k < i <= |items| ==> items[k] in items[..i]
  {
    if 0 <= k < i <= |items| {
      assert items[..i][k] == items[k];
    }
  }

  lemma FirstIndexTake(items: seq<Item>, n: nat, x: Item)
    requires n <= |items| && x in items[..n]
    ensures x in items && FirstIndex(items, x) == FirstIndex(items[..n], x)
  {
    var j := FirstIndex(items[..n], x);
    assert items[..n][..j] == items[..j];
    FirstIndexIs(items, x, j);
  }

  /** What keeping first occurrences means: every item, none twice, ordered by where each first occurs. */
  ghost predicate FirstOccurrences(kept: seq<Item>, items: seq<Item>) {
    && (forall x :: x in kept <==> x in items)
    && forall i, j :: 0 <= i < j < |kept| ==> kept[i] in items && kept[j] in items && FirstIndex(items, kept[i]) < FirstIndex(items, kept[j])
  }

  lemma FirstsSurvive(kept: seq<Item>, items: seq<Item>, x: Item)
    requires FirstOccurrences(kept, items)
    ensures x in items ==> FirstOccurrences(kept, items + [x])
    ensures x !in items ==> FirstOccurrences(kept + [x], items + [x])
  {
    var more := items + [x];
    forall y | y in kept ensures y in more && FirstIndex(more, y) == FirstIndex(items, y) < |items| {
      assert more[..|items|] == items;
      FirstIndexTake(more, |items|, y);
    }
    if x !in items {
      assert more[..|items|] == items;
      FirstIndexIs(more, x, |items|);
    }
  }

  lemma {:induction false} FirstBySameKeepsFirsts(items: seq<Item>)
    ensures FirstOccurrences(FirstBy(Same, items), items)
    decreases |items|
  {
    if items != [] {
      var n := |items| - 1;
      FirstBySameKeepsFirsts(items[..n]);
      assert items == items[..n] + [items[n]];
      FirstsSurvive(FirstBy(Same, items[..n]), items[..n], items[n]);
      if items[n] in items[..n] {
        var i :| 0 <= i < n && items[..n][i] == items[n];
        assert Same(items[i]) == Same(items[n]);
      }
    }
  }

  lemma NotLater(a: seq<Item>, b: seq<Item>, items: seq<Item>, k: nat)
    requires FirstOccurrences(a, items) && FirstOccurrences(b, items)
    requires k < |a| && k <= |b| && a[..k] == b[..k]
    ensures k < |b| && a[k] in items && b[k] in items && FirstIndex(items, b[k]) <= FirstIndex(items, a[k])
  {
    assert a[k] in b;
    var i :| 0 <= i < |b| && b[i] == a[k];
    SamePrefix(a, b, k, i);
  }

  lemma SamePrefix(a: seq<Item>, b: seq<Item>, k: nat, i: nat)
    requires k <= |a| && k <= |b| && a[..k] == b[..k]
    ensures i < k ==> a[i] == b[i]
  {
    if i < k {
      assert a[..k][i] == b[..k][i];
    }
  }

  lemma SameFirstIndex(items: seq<Item>, x: Item, y: Item)
    requires x in items && y in items && FirstIndex(items, x) == FirstIndex(items, y)
    ensures x == y
  {
  }

  lemma {:induction false} CommonPrefix(a: seq<Item>, b: seq<Item>, items: seq<Item>, k: nat)
    requires FirstOccurrences(a, items) && FirstOccurrences(b, items) && k <= |a|
    ensures k <= |b| && a[..k] == b[..k]
  {
    if k > 0 {
      CommonPrefix(a, b, items, k - 1);
      NotLater(a, b, items, k - 1);
      NotLater(b, a, items, k - 1);
      SameFirstIndex(items, a[k - 1], b[k - 1]);
      assert a[..k] == a[..k - 1] + [a[k - 1]] && b[..k] == b[..k - 1] + [b[k - 1]];
    }
  }

  /** Two lists that keep the first occurrences of the same items are equal. */
  lemma FirstOccurrencesUnique(a: seq<Item>, b: seq<Item>, items: seq<Item>)
    requires FirstOccurrences(a, items) && FirstOccurrences(b, items)
    ensures a == b
  {
    CommonPrefix(a, b, items, |a|);
    CommonPrefix(b, a, items, |b|);
    assert a == a[..|a|] && b == b[..|b|];
  }

  /** Among these items the key tells different ones apart. */
  ghost predicate KeysTellApart(items: seq<Item>) {
    forall i, j :: 0 <= i < j < |items| && Key(items[i]) == Key(items[j]) ==> items[i] == items[j]
  }

  lemma CleanTellsApart(items: seq<Item>)
    requires forall x :: x in items ==> Clean(x)
    ensures KeysTellApart(items)
  {
    forall i, j | 0 <= i < j < |items| && Key(items[i]) == Key(items[j]) ensures items[i] == items[j] {
      KeyInjective(items[i], items[j]);
    }
  }

  lemma {:induction false} InjectiveKeyKeepsSame(items: seq<Item>)
    requires KeysTellApart(items)
    ensures FirstBy(Key, items) == FirstBy(Same, items)
    decreases |items|
  {
    if items != [] {
      var n := |items| - 1;
      InjectiveKeyKeepsSame(items[..n]);
      assert forall i :: 0 <= i < n && Key(items[i]) == Key(items[n]) ==> Same(items[i]) == Same(items[n]);
      if i :| 0 <= i < n && Same(items[i]) == Same(items[n]) {
        assert Key(items[i]) == Key(items[n]);
      }
    }
  }

  /** One item is kept per key. */
  lemma {:induction false} KeptKeysDiffer(items: seq<Item>)
    ensures forall x :: x in FirstBy(Key, items) ==> x in items
    ensures forall i, j :: 0 <= i < j < |FirstBy(Key, items)| ==> Key(FirstBy(Key, items)[i]) != Key(FirstBy(Key, items)[j])
    decreases |items|
  {
    if items != [] {
      var n := |items| - 1;
      var before := FirstBy(Key, items[..n]);
      KeptKeysDiffer(items[..n]);
      forall x | x in before && !(exists i :: 0 <= i < n && Key(items[i]) == Key(items[n])) ensures Key(x) != Key(items[n]) {
        var i :| 0 <= i < n && items[..n][i] == x;
        assert Key(items[i]) == Key(x);
      }
    }
  }

  /** The string key keeps exactly the first occurrences if and only if it tells apart the items at hand. */
  lemma KeyDedupExactIff(items: seq<Item>)
    ensures FirstOccurrences(FirstBy(Key, items), items) <==> KeysTellApart(items)
  {
    var kept := FirstBy(Key, items);
    if KeysTellApart(items) {
      InjectiveKeyKeepsSame(items);
      FirstBySameKeepsFirsts(items);
    }
    if FirstOccurrences(kept, items) {
      KeptKeysDiffer(items);
      forall i, j | 0 <= i < j < |items| && Key(items[i]) == Key(items[j]) ensures items[i] == items[j] {
        assert items[i] in kept && items[j] in kept;
        var a :| 0 <= a < |kept| && kept[a] == items[i];
        var b :| 0 <= b < |kept| && kept[b] == items[j];
        assert a == b;
      }
    }
  }

  // ---------------------------------------------------------------- building the documents

  function ItemsOf(tx: Transaction, n: nat): seq<Item>
    requires n <= |tx.accessList|
  {
    seq(n, i requires 0 <= i < n => Item(tx.hash, tx.accessList[i]))
  }

  /** All entries of the block in order; absent transactions have none. */
  function Listed(txs: seq<Option<Transaction>>): seq<Item> {
    if txs == [] then []
    else
      var n := |txs| - 1;
      Listed(txs[..n]) + if txs[n].Some? then ItemsOf(txs[n].value, |txs[n].value.accessList|) else []
  }

  function DocsOf(items: seq<Item>, blockNumber: int): seq<AleDoc> {
    seq(|items|, i requires 0 <= i < |items| => AleDoc(items[i].entry.address, blockNumber, items[i].entry.keys))
  }

  function ParentsOf(items: seq<Item>): seq<string> {
    seq(|items|, i requires 0 <= i < |items| => items[i].parent)
  }

  /** The keys of these items are the keys seen. */
  ghost predicate Seen(items: seq<Item>, seen: set<string>) {
    forall k :: k in seen <==> exists i :: 0 <= i < |items| && Key(items[i]) == k
  }

  /** What has been emitted after these items. */
  ghost predicate Emitted(items: seq<Item>, docs: seq<AleDoc>, parents: seq<string>, blockNumber: int) {
    docs == DocsOf(FirstBy(Key, items), blockNumber) && parents == ParentsOf(FirstBy(Key, items))
  }

  lemma SeenMore(items: seq<Item>, seen: set<string>, item: Item)
    requires Seen(items, seen)
    ensures Seen(items + [item], seen + {Key(item)})
  {
    var more := items + [item];
    forall k | k in seen ensures exists i :: 0 <= i < |more| && Key(more[i]) == k {
      var i :| 0 <= i < |items| && Key(items[i]) == k;
      assert Key(more[i]) == k;
    }
    assert Key(more[|items|]) == Key(item);
    forall i | 0 <= i < |items| ensures Key(more[i]) in seen {
      assert Key(items[i]) in seen;
    }
  }

  lemma FirstByMore(items: seq<Item>, seen: set<string>, item: Item)
    requires Seen(items, seen)
    ensures FirstBy(Key, items + [item]) == if Key(item) in seen then FirstBy(Key, items) else FirstBy(Key, items) + [item]
  {
    var more := items + [item];
    assert more[..|items|] == items;
    if Key(item) in seen {
      var i :| 0 <= i < |items| && Key(items[i]) == Key(item);
      assert Key(more[i]) == Key(more[|items|]);
    } else {
      forall i | 0 <= i < |items| ensures Key(more[i]) != Key(more[|items|]) {
        assert Key(items[i]) in seen;
      }
    }
  }

  /** Seen and emitted after these items. */
  ghost predicate After(items: seq<Item>, seen: set<string>, docs: seq<AleDoc>, parents: seq<string>, blockNumber: int) {
    Seen(items, seen) && Emitted(items, docs, parents, blockNumber)
  }

  lemma EmitOne(items: seq<Item>, seen: set<string>, docs: seq<AleDoc>, parents: seq<string>, blockNumber: int, item: Item)
    requires After(items, seen, docs, parents, blockNumber)
    ensures Key(item) in seen ==> After(items + [item], seen, docs, parents, blockNumber)
    ensures Key(item) !in seen ==>
              After(items + [item], seen + {Key(item)}, docs + [AleDoc(item.entry.address, blockNumber, item.entry.keys)],
                    parents + [item.parent], blockNumber)
  {
    SeenMore(items, seen, item);
    FirstByMore(items, seen, item);
    EmittedOne(FirstBy(Key, items), item, blockNumber);
    assert Key(item) in seen ==> seen + {Key(item)} == seen;
  }

  lemma EmittedOne(kept: seq<Item>, item: Item, blockNumber: int)
    ensures DocsOf(kept + [item], blockNumber) == DocsOf(kept, blockNumber) + [AleDoc(item.entry.address, blockNumber, item.entry.keys)]
    ensures ParentsOf(kept + [item]) == ParentsOf(kept) + [item.parent]
  {
  }

  /** The items of a block up to entry i of a transaction. */
  function UpTo(before: seq<Item>, tx: Transaction, i: nat): seq<Item>
    requires i <= |tx.accessList|
  {
    before + ItemsOf(tx, i)
  }

  lemma UpToMore(before: seq<Item>, tx: Transaction, i: nat)
    requires i < |tx.accessList|
    ensures UpTo(before, tx, i + 1) == UpTo(before, tx, i) + [Item(tx.hash, tx.accessList[i])]
    ensures UpTo(before, tx, 0) == before
  {
  }

  /** The entries of one transaction; an entry whose key was seen is dropped. */
  method EmitEntries(tx: Transaction, blockNumber: int, ghost items: seq<Item>, seen: set<string>, docs: seq<AleDoc>, parents: seq<string>)
    returns (seen': set<string>, docs': seq<AleDoc>, parents': seq<string>)
    requires After(items, seen, docs, parents, blockNumber)
    ensures After(UpTo(items, tx, |tx.accessList|), seen', docs', parents', blockNumber)
  {
    seen', docs', parents' := seen, docs, parents;
    assert UpTo(items, tx, 0) == items;
    for i := 0 to |tx.accessList|
      invariant After(UpTo(items, tx, i), seen', docs', parents', blockNumber)
    {
      var ale := tx.accessList[i];
      var key := Key(Item(tx.hash, ale));
      EmitOne(UpTo(items, tx, i), seen', docs', parents', blockNumber, Item(tx.hash, ale));
      UpToMore(items, tx, i);
      if key !in seen' {
        seen' := seen' + {key};
        docs' := docs' + [AleDoc(ale.address, blockNumber, ale.keys)];
        parents' := parents' + [tx.hash];
      }
    }
  }

  /** One document per first occurrence of each transaction, address and key list, with its parent beside it. */
  method BuildALEDocs(txs: seq<Option<Transaction>>, blockNumber: int) returns (docs: seq<AleDoc>, parents: seq<string>)
    ensures docs == DocsOf(FirstBy(Key, Listed(txs)), blockNumber)
    ensures parents == ParentsOf(FirstBy(Key, Listed(txs)))
    ensures (exists kept :: FirstOccurrences(kept, Listed(txs)) && StandFor(docs, parents, kept, blockNumber)) <==> KeysTellApart(Listed(txs))
    ensures InListOrder(Listed(txs), txs)
    ensures (forall x :: x in Listed(txs) ==> Clean(x)) ==> KeysTellApart(Listed(txs))
  {
    docs, parents := [], [];
    var seen: set<string> := {};
    for t := 0 to |txs|
      invariant After(Listed(txs[..t]), seen, docs, parents, blockNumber)
    {
      ListedMore(txs, t);
      if txs[t].Some? {
        seen, docs, parents := EmitEntries(txs[t].value, blockNumber, Listed(txs[..t]), seen, docs, parents);
      }
    }
    assert txs[..|txs|] == txs;
    EmittedFirstsIff(Listed(txs), blockNumber);
    AllEntriesFollow(txs);
    if forall x :: x in Listed(txs) ==> Clean(x) {
      CleanTellsApart(Listed(txs));
    }
  }

  /** The emitted documents and parents determine the items they stand for. */
  lemma EmittedDetermine(a: seq<Item>, b: seq<Item>, blockNumber: int)
    requires DocsOf(a, blockNumber) == DocsOf(b, blockNumber) && ParentsOf(a) == ParentsOf(b)
    ensures a == b
  {
    assert |a| == |DocsOf(a, blockNumber)| && |b| == |DocsOf(b, blockNumber)|;
    forall i | 0 <= i < |a| ensures a[i] == b[i] {
      assert DocsOf(a, blockNumber)[i] == DocsOf(b, blockNumber)[i] && ParentsOf(a)[i] == ParentsOf(b)[i];
    }
  }

  /** Each document carries the address and keys of its item and the block number, and its parent stands beside it. */
  ghost predicate StandFor(docs: seq<AleDoc>, parents: seq<string>, items: seq<Item>, blockNumber: int) {
    && |docs| == |parents| == |items|
    && forall i :: 0 <= i < |items| ==>
         && docs[i].address == items[i].entry.address && docs[i].blockNumber == blockNumber && docs[i].keys == items[i].entry.keys
         && parents[i] == items[i].parent
  }

  lemma StandForIff(docs: seq<AleDoc>, parents: seq<string>, items: seq<Item>, blockNumber: int)
    ensures StandFor(docs, parents, items, blockNumber) <==> docs == DocsOf(items, blockNumber) && parents == ParentsOf(items)
  {
  }

  lemma EmittedFirstsIff(items: seq<Item>, blockNumber: int)
    ensures var emitted := FirstBy(Key, items);
            (exists kept :: FirstOccurrences(kept, items) && StandFor(DocsOf(emitted, blockNumber), ParentsOf(emitted), kept, blockNumber))
            <==> KeysTellApart(items)
  {
    var emitted := FirstBy(Key, items);
    KeyDedupExactIff(items);
    StandForIff(DocsOf(emitted, blockNumber), ParentsOf(emitted), emitted, blockNumber);
    if kept :| FirstOccurrences(kept, items) && StandFor(DocsOf(emitted, blockNumber), ParentsOf(emitted), kept, blockNumber) {
      StandForIff(DocsOf(emitted, blockNumber), ParentsOf(emitted), kept, blockNumber);
      EmittedDetermine(emitted, kept, blockNumber);
    }
  }

  function EntriesOf(tx: Option<Transaction>): seq<Entry> {
    if tx.Some? then tx.value.accessList else []
  }

  ghost function EntryCount(txs: seq<Option<Transaction>>): nat {
    if txs == [] then 0 else EntryCount(txs[..|txs| - 1]) + |EntriesOf(txs[|txs| - 1])|
  }

  /** The entries of this transaction follow those of the transactions before it, in their own order, under its hash. */
  ghost predicate EntriesFollow(items: seq<Item>, txs: seq<Option<Transaction>>, t: nat)
    requires t < |txs|
  {
    var from := EntryCount(txs[..t]);
    && from + |EntriesOf(txs[t])| <= |items|
    && forall j :: 0 <= j < |EntriesOf(txs[t])| ==> items[from + j] == Item(txs[t].value.hash, txs[t].value.accessList[j])
  }

  /** The entries of all present transactions in order, and no others. */
  ghost predicate InListOrder(items: seq<Item>, txs: seq<Option<Transaction>>) {
    |items| == EntryCount(txs) && forall t :: 0 <= t < |txs| ==> EntriesFollow(items, txs, t)
  }

  lemma {:induction false} EntriesCounted(txs: seq<Option<Transaction>>)
    ensures |Listed(txs)| == EntryCount(txs)
    decreases |txs|
  {
    if txs != [] {
      EntriesCounted(txs[..|txs| - 1]);
    }
  }

  lemma {:induction false} EntryInOrder(txs: seq<Option<Transaction>>, t: nat, j: nat)
    requires t < |txs| && txs[t].Some? && j < |txs[t].value.accessList|
    ensures var at := EntryCount(txs[..t]) + j;
            at < |Listed(txs)| && Listed(txs)[at] == Item(txs[t].value.hash, txs[t].value.accessList[j])
    decreases |txs|
  {
    var n := |txs| - 1;
    EntriesCounted(txs[..n]);
    if t < n {
      EntryInOrder(txs[..n], t, j);
      assert txs[..n][..t] == txs[..t];
    }
  }

  lemma {:induction false} EntryCountGrows(txs: seq<Option<Transaction>>, t: nat)
    requires t <= |txs|
    ensures EntryCount(txs[..t]) <= EntryCount(txs)
    decreases |txs|
  {
    if t == |txs| {
      assert txs[..t] == txs;
    } else {
      EntryCountGrows(txs[..|txs| - 1], t);
      assert txs[..|txs| - 1][..t] == txs[..t];
    }
  }

  lemma AllEntriesFollow(txs: seq<Option<Transaction>>)
    ensures InListOrder(Listed(txs), txs)
  {
    EntriesCounted(txs);
    forall t | 0 <= t < |txs| ensures EntriesFollow(Listed(txs), txs, t) {
      forall j | 0 <= j < |EntriesOf(txs[t])|
        ensures EntryCount(txs[..t]) + j < |Listed(txs)|
        ensures Listed(txs)[EntryCount(txs[..t]) + j] == Item(txs[t].value.hash, txs[t].value.accessList[j])
      {
        EntryInOrder(txs, t, j);
      }
      EntryCountGrows(txs, t + 1);
      assert txs[..t + 1][..t] == txs[..t];
    }
  }

  lemma ListedMore(txs: seq<Option<Transaction>>, t: nat)
    requires t < |txs|
    ensures txs[t].Some? ==> Listed(txs[..t + 1]) == UpTo(Listed(txs[..t]), txs[t].value, |txs[t].value.accessList|)
    ensures txs[t].None? ==> Listed(txs[..t + 1]) == Listed(txs[..t])
  {
    assert txs[..t + 1][..t] == txs[..t];
  }

  // ---------------------------------------------------------------- the emitted documents can all be written

  /** The documents as the link stamper sees them, their content named by an injective encoding. */
  function AsDocs(encode: AleDoc -> nat, docs: seq<AleDoc>): seq<Doc> {
    seq(|docs|, i requires 0 <= i < |docs| => Doc(encode(docs[i]), None, None, None))
  }

  /**
   * Once stamped with their transactions, first occurrences are pairwise different
   * documents, so none is refused as already existing because of another.
   */
  lemma EmittedAreWritable(encode: AleDoc -> nat, items: seq<Item>, kept: seq<Item>, blockNumber: int, groups: seq<Group>, blockId: Option<DocId>)
    requires forall d, e :: encode(d) == encode(e) ==> d == e
    requires FirstOccurrences(kept, items) && DistinctTxs(groups)
    requires forall i :: 0 <= i < |kept| ==> exists g, j :: IsTx(groups, g, j) && groups[g].docs[j].txHash == Some(kept[i].parent)
    ensures BlockWriter.DistinctIds(
              Ids(AleCol, StampDocs(AleCol, AsDocs(encode, DocsOf(kept, blockNumber)), ParentsOf(kept), blockId, TxIndex(groups))))
  {
    var docs := DocsOf(kept, blockNumber);
    var ids := Ids(AleCol, StampDocs(AleCol, AsDocs(encode, docs), ParentsOf(kept), blockId, TxIndex(groups)));
    forall i, j | 0 <= i < j < |ids| ensures ids[i] != ids[j] {
      assert kept[i] != kept[j];
      if ids[i] == ids[j] {
        assert docs[i] == docs[j];
        var g, m :| IsTx(groups, g, m) && groups[g].docs[m].txHash == Some(kept[i].parent);
        var g', m' :| IsTx(groups, g', m') && groups[g'].docs[m'].txHash == Some(kept[j].parent);
        IndexExact(groups, g, m);
        IndexExact(groups, g', m');
        assert false;
      }
    }
  }
}
