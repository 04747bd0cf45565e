/** Block hashes, visible block documents and the stored-hash query. */
module Chain {

  type Byte = x: int | 0 <= x < 256

  type Bytes = seq<Byte>

  datatype Option<+T> = None | Some(value: T)

  /** A block hash as the processor sees it: the empty string, or an opaque digest. */
  datatype Hash = NoHash | Digest(id: nat)

  /** The part of a stored block document the reorg logic reads. */
  datatype Block = Block(num: int, hash: Hash, parent: Hash)

  datatype Query = Answer(hash: Hash) | QueryError

  /** The visible block documents at one height. */
  function BlocksAt(visible: set<Block>, num: int): set<Block> {
    set b | b in visible && b.num == num
  }

  /** The visible block documents at or below one height. */
  function UpTo(visible: set<Block>, num: int): set<Block> {
    set b | b in visible && b.num <= num
  }

  /**
   * The stored-hash query: the empty hash for an empty height, the hash of the
   * only block document, and an error when several documents share the height.
   */
  function StoredHash(visible: set<Block>, num: int): Query {
    var rows := BlocksAt(visible, num);
    if rows == {} then Answer(NoHash)
    else if exists b :: b in rows && rows == {b} then
      var b :| b in rows && rows == {b};
      Answer(b.hash)
    else QueryError
  }

  /** No two visible block documents share a height. */
  ghost predicate UniqueHeights(visible: set<Block>) {
    forall a, b :: a in visible && b in visible && a.num == b.num ==> a == b
  }

  /** Visible neighbours are parent and child. */
  ghost predicate ParentLinked(visible: set<Block>) {
    forall a, b :: a in visible && b in visible && b.num == a.num + 1 ==> b.parent == a.hash
  }

  ghost predicate NamedBlocks(visible: set<Block>) {
    forall b :: b in visible ==> b.hash != NoHash && b.num >= 0
  }

  /** On a store with one block per height the query never fails and tells the whole truth. */
  lemma StoredHashOfUnique(visible: set<Block>, num: int)
    requires UniqueHeights(visible) && NamedBlocks(visible)
    ensures StoredHash(visible, num).Answer?
    ensures StoredHash(visible, num) == Answer(NoHash) <==> BlocksAt(visible, num) == {}
    ensures forall b :: b in visible && b.num == num ==> StoredHash(visible, num) == Answer(b.hash)
  {
    var rows := BlocksAt(visible, num);
    if b :| b in rows {
      assert rows == {b};
    }
    forall b | b in visible && b.num == num ensures StoredHash(visible, num) == Answer(b.hash) {
      assert b in rows;
    }
  }

  /** A query that answers names the hash of every visible block at that height. */
  lemma StoredHashSound(visible: set<Block>, num: int)
    ensures forall b :: b in visible && b.num == num && StoredHash(visible, num).Answer?
              ==> StoredHash(visible, num).hash == b.hash
    ensures StoredHash(visible, num).Answer? && StoredHash(visible, num).hash != NoHash ==>
              exists b :: b in visible && b.num == num && b.hash == StoredHash(visible, num).hash
  {
    var rows := BlocksAt(visible, num);
    forall b | b in visible && b.num == num && StoredHash(visible, num).Answer?
      ensures StoredHash(visible, num).hash == b.hash
    {
      assert b in rows;
    }
  }
}
