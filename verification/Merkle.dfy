/** The Merkle root signed over the block-signature roots of one snapshot. */
module Merkle {
  import opened Chain

  const DIGEST_SIZE := 32

  /** The hash function is a parameter; all that is known of it is its output size. */
  ghost predicate Digests(h: Bytes -> Bytes) {
    forall x :: |h(x)| == DIGEST_SIZE
  }

  function Leaves(h: Bytes -> Bytes, roots: seq<Bytes>): seq<Bytes> {
    seq(|roots|, i requires 0 <= i < |roots| => h(roots[i]))
  }

  // ---------------------------------------------------------------- the tree

  ghost predicate PowerOfTwo(k: int) {
    k == 1 || (k > 1 && k % 2 == 0 && PowerOfTwo(k / 2))
  }

  /** The size of the left subtree: the largest power of two below the number of leaves. */
  function Split(n: nat): (k: nat)
    requires n >= 2
    ensures k < n <= 2 * k && PowerOfTwo(k)
  {
    if n == 2 then 1 else 2 * Split((n + 1) / 2)
  }

  lemma {:induction false} SplitUnique(n: nat, k: nat)
    requires n >= 2 && k < n <= 2 * k && PowerOfTwo(k)
    ensures k == Split(n)
    decreases n
  {
    if n > 2 {
      SplitUnique((n + 1) / 2, k / 2);
    }
  }

  /** The root of the tree over these leaf digests: a full left subtree, the rest on the right. */
  function TreeRoot(h: Bytes -> Bytes, leaves: seq<Bytes>): Bytes
    requires leaves != []
    decreases |leaves|
  {
    if |leaves| == 1 then leaves[0]
    else
      var k := Split(|leaves|);
      h(TreeRoot(h, leaves[..k]) + TreeRoot(h, leaves[k..]))
  }

  /** Every string the tree hashes above its leaves. */
  ghost function Nodes(h: Bytes -> Bytes, leaves: seq<Bytes>): set<Bytes>
    requires leaves != []
    decreases |leaves|
  {
    if |leaves| == 1 then {}
    else
      var k := Split(|leaves|);
      Nodes(h, leaves[..k]) + Nodes(h, leaves[k..]) + {TreeRoot(h, leaves[..k]) + TreeRoot(h, leaves[k..])}
  }

  /** Every string hashed in computing a snapshot root. */
  ghost function Hashed(h: Bytes -> Bytes, roots: seq<Bytes>): set<Bytes>
    requires roots != []
  {
    (set r | r in roots) + Nodes(h, Leaves(h, roots))
  }

  // ---------------------------------------------------------------- one level at a time

  /** Pair neighbours; an odd last digest moves up unchanged. */
  function Level(h: Bytes -> Bytes, hashes: seq<Bytes>): (up: seq<Bytes>)
    ensures |up| == (|hashes| + 1) / 2
  {
    if |hashes| < 2 then hashes else [h(hashes[0] + hashes[1])] + Level(h, hashes[2..])
  }

  lemma {:induction false} LevelSplits(h: Bytes -> Bytes, left: seq<Bytes>, right: seq<Bytes>)
    requires |left| % 2 == 0
    ensures Level(h, left + right) == Level(h, left) + Level(h, right)
    decreases |left|
  {
    if left == [] {
      assert left + right == right;
    } else {
      assert (left + right)[2..] == left[2..] + right;
      LevelSplits(h, left[2..], right);
    }
  }

  lemma JoinRoot(h: Bytes -> Bytes, left: seq<Bytes>, right: seq<Bytes>)
    requires left != [] && right != [] && |left| == Split(|left + right|)
    ensures TreeRoot(h, left + right) == h(TreeRoot(h, left) + TreeRoot(h, right))
  {
    assert (left + right)[..|left|] == left && (left + right)[|left|..] == right;
  }

  lemma PairKeepsRoot(h: Bytes -> Bytes, x: Bytes, y: Bytes)
    ensures TreeRoot(h, Level(h, [x, y])) == TreeRoot(h, [x, y])
  {
    assert [x, y] == [x] + [y];
    JoinRoot(h, [x], [y]);
    assert Level(h, [x, y]) == [h(x + y)];
  }

  lemma SplitHalf(n: nat)
    requires n > 2
    ensures Split(n) % 2 == 0 && Split(n) >= 2 && Split(n) / 2 == Split((n + 1) / 2)
  {
  }

  lemma JoinKeepsRoot(h: Bytes -> Bytes, left: seq<Bytes>, right: seq<Bytes>)
    requires |left| >= 2 && right != [] && |left| == Split(|left + right|)
    requires TreeRoot(h, Level(h, left)) == TreeRoot(h, left) && TreeRoot(h, Level(h, right)) == TreeRoot(h, right)
    ensures TreeRoot(h, Level(h, left + right)) == TreeRoot(h, left + right)
  {
    SplitHalf(|left + right|);
    LevelSplits(h, left, right);
    JoinRoot(h, left, right);
    JoinRoot(h, Level(h, left), Level(h, right));
  }

  /** Pairing once does not change the root of the tree. */
  lemma {:induction false} LevelKeepsRoot(h: Bytes -> Bytes, hashes: seq<Bytes>)
    requires hashes != []
    ensures TreeRoot(h, Level(h, hashes)) == TreeRoot(h, hashes)
    decreases |hashes|
  {
    if |hashes| == 2 {
      assert hashes == [hashes[0], hashes[1]];
      PairKeepsRoot(h, hashes[0], hashes[1]);
    } else if |hashes| > 2 {
      var k := Split(|hashes|);
      SplitHalf(|hashes|);
      assert hashes == hashes[..k] + hashes[k..];
      LevelKeepsRoot(h, hashes[..k]);
      LevelKeepsRoot(h, hashes[k..]);
      JoinKeepsRoot(h, hashes[..k], hashes[k..]);
    }
  }

  lemma {:induction false} LevelDigests(h: Bytes -> Bytes, hashes: seq<Bytes>)
    requires Digests(h) && forall i :: 0 <= i < |hashes| ==> |hashes[i]| == DIGEST_SIZE
    ensures forall i :: 0 <= i < |Level(h, hashes)| ==> |Level(h, hashes)[i]| == DIGEST_SIZE
    decreases |hashes|
  {
    if |hashes| >= 2 {
      LevelDigests(h, hashes[2..]);
    }
  }

  /** Copy into a part of the reused buffer. */
  method CopyInto(buffer: array<Byte>, at: nat, src: Bytes)
    requires at + |src| <= buffer.Length
    modifies buffer
    ensures buffer[..at] == old(buffer[..at]) && buffer[at..at + |src|] == src
    ensures buffer[at + |src|..] == old(buffer[at + |src|..])
  {
    forall i | 0 <= i < |src| {
      buffer[at + i] := src[i];
    }
  }

  /** One pass of pairing through the 64-byte buffer. */
  method PairUp(h: Bytes -> Bytes, hashes: seq<Bytes>, combined: array<Byte>) returns (up: seq<Bytes>)
    requires combined.Length == 2 * DIGEST_SIZE
    requires forall i :: 0 <= i < |hashes| ==> |hashes[i]| == DIGEST_SIZE
    modifies combined
    ensures up == Level(h, hashes)
  {
    up := [];
    var i := 0;
    while i < |hashes|
      invariant 0 <= i && PairedUpTo(h, hashes, i, up)
    {
      PairMore(h, hashes, i, up);
      if i + 1 < |hashes| {
        CopyInto(combined, 0, hashes[i]);
        CopyInto(combined, DIGEST_SIZE, hashes[i + 1]);
        assert combined[..] == combined[..DIGEST_SIZE] + combined[DIGEST_SIZE..];
        assert combined[..] == hashes[i] + hashes[i + 1];
        up := up + [h(combined[..])];
      } else {
        up := up + [hashes[i]];
      }
      i := i + 2;
    }
    assert i == |hashes| ==> hashes[i..] == [];
  }

  /** What is paired so far, followed by the pairing of the rest, is the whole level. */
  ghost predicate PairedUpTo(h: Bytes -> Bytes, hashes: seq<Bytes>, i: nat, up: seq<Bytes>) {
    if i <= |hashes| then up + Level(h, hashes[i..]) == Level(h, hashes) else up == Level(h, hashes)
  }

  lemma PairMore(h: Bytes -> Bytes, hashes: seq<Bytes>, i: nat, up: seq<Bytes>)
    requires i < |hashes| && PairedUpTo(h, hashes, i, up)
    ensures PairedUpTo(h, hashes, i + 2, up + [if i + 1 < |hashes| then h(hashes[i] + hashes[i + 1]) else hashes[i]])
  {
    if i + 1 < |hashes| {
      assert hashes[i..][2..] == hashes[i + 2..];
    } else {
      assert hashes[i..] == [hashes[i]];
    }
  }

  /** The pairing loop ends, and computes the root of the tree over the hashed roots; nothing for no roots. */
  method ComputeSnapshotMerkleRoot(h: Bytes -> Bytes, roots: seq<Bytes>) returns (root: Option<Bytes>)
    requires Digests(h)
    ensures root == if roots == [] then None else Some(TreeRoot(h, Leaves(h, roots)))
  {
    if roots == [] {
      return None;
    }
    var hashes := Leaves(h, roots);
    var combined := new Byte[2 * DIGEST_SIZE];
    while |hashes| > 1
      invariant hashes != [] && TreeRoot(h, hashes) == TreeRoot(h, Leaves(h, roots))
      invariant forall i :: 0 <= i < |hashes| ==> |hashes[i]| == DIGEST_SIZE
      decreases |hashes|
    {
      LevelKeepsRoot(h, hashes);
      LevelDigests(h, hashes);
      hashes := PairUp(h, hashes, combined);
    }
    return Some(hashes[0]);
  }

  // ---------------------------------------------------------------- the root binds the list

  lemma {:induction false} TreeRootSize(h: Bytes -> Bytes, leaves: seq<Bytes>)
    requires Digests(h) && leaves != [] && forall i :: 0 <= i < |leaves| ==> |leaves[i]| == DIGEST_SIZE
    ensures |TreeRoot(h, leaves)| == DIGEST_SIZE
  {
  }

  /** No two different strings of the set hash alike. */
  ghost predicate InjectiveOn(h: Bytes -> Bytes, s: set<Bytes>) {
    forall x, y :: x in s && y in s && h(x) == h(y) ==> x == y
  }

  lemma {:induction false} TreeBinds(h: Bytes -> Bytes, a: seq<Bytes>, b: seq<Bytes>)
    requires Digests(h) && a != [] && |a| == |b|
    requires forall i :: 0 <= i < |a| ==> |a[i]| == DIGEST_SIZE && |b[i]| == DIGEST_SIZE
    requires InjectiveOn(h, Nodes(h, a) + Nodes(h, b))
    requires TreeRoot(h, a) == TreeRoot(h, b)
    ensures a == b
    decreases |a|
  {
    if |a| > 1 {
      var k := Split(|a|);
      HalvesAgree(h, a, b, k);
      TreeBinds(h, a[..k], b[..k]);
      TreeBinds(h, a[k..], b[k..]);
      assert a == a[..k] + a[k..] && b == b[..k] + b[k..];
    }
  }

  lemma JoinedHalves(x: Bytes, u: Bytes, y: Bytes, v: Bytes)
    requires |x| == |y| && x + u == y + v
    ensures x == y && u == v
  {
    assert x == (x + u)[..|x|] && y == (y + v)[..|y|];
    assert u == (x + u)[|x|..] && v == (y + v)[|y|..];
  }

  /** Equal roots above one split have equal subtree roots. */
  lemma HalvesAgree(h: Bytes -> Bytes, a: seq<Bytes>, b: seq<Bytes>, k: nat)
    requires Digests(h) && |a| == |b| > 1 && k == Split(|a|)
    requires forall i :: 0 <= i < |a| ==> |a[i]| == DIGEST_SIZE && |b[i]| == DIGEST_SIZE
    requires InjectiveOn(h, Nodes(h, a) + Nodes(h, b)) && TreeRoot(h, a) == TreeRoot(h, b)
    ensures TreeRoot(h, a[..k]) == TreeRoot(h, b[..k]) && TreeRoot(h, a[k..]) == TreeRoot(h, b[k..])
    ensures InjectiveOn(h, Nodes(h, a[..k]) + Nodes(h, b[..k])) && InjectiveOn(h, Nodes(h, a[k..]) + Nodes(h, b[k..]))
  {
    var x, y := TreeRoot(h, a[..k]) + TreeRoot(h, a[k..]), TreeRoot(h, b[..k]) + TreeRoot(h, b[k..]);
    assert x in Nodes(h, a) && y in Nodes(h, b);
    TreeRootSize(h, a[..k]);
    TreeRootSize(h, b[..k]);
    JoinedHalves(TreeRoot(h, a[..k]), TreeRoot(h, a[k..]), TreeRoot(h, b[..k]), TreeRoot(h, b[k..]));
  }

  /**
   * Two root lists of equal length with the same snapshot root are the same list,
   * as long as the hash tells apart the strings the two computations hash.
   */
  lemma RootBindsList(h: Bytes -> Bytes, a: seq<Bytes>, b: seq<Bytes>)
    requires Digests(h) && a != [] && |a| == |b|
    requires InjectiveOn(h, Hashed(h, a) + Hashed(h, b))
    requires TreeRoot(h, Leaves(h, a)) == TreeRoot(h, Leaves(h, b))
    ensures a == b
  {
    TreeBinds(h, Leaves(h, a), Leaves(h, b));
    forall i | 0 <= i < |a| ensures a[i] == b[i] {
      assert Leaves(h, a)[i] == h(a[i]) && Leaves(h, b)[i] == h(b[i]);
      assert a[i] in Hashed(h, a) && b[i] in Hashed(h, b);
    }
  }
}
