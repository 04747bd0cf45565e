/** The collector's ordered apply as it runs: a cursor, a reorder buffer and a set of holes updated in place. */
module Collector {
  import opened Processor

  class OrderedCollector {
    var applyCursor: int
    var reorderCompletions: map<int, Completion>
    var applyHoles: set<int>

    constructor (startBlock: int)
      ensures applyCursor == startBlock && reorderCompletions == map[] && applyHoles == {}
    {
      applyCursor := startBlock;
      reorderCompletions := map[];
      applyHoles := {};
    }

    /** The apply state of the processor, with an empty history. */
    ghost function View(): Apply
      reads this
    {
      Apply(applyCursor, reorderCompletions, applyHoles, [], {}, [])
    }

    /** Park one completion and gather everything the cursor can now reach. */
    method Receive(completion: Completion) returns (batch: seq<Completion>)
      modifies this
      ensures var after := Park(old(View()), completion);
              && View() == after.(consumed := [], skipped := {})
              && batch == after.consumed
    {
      reorderCompletions := reorderCompletions[completion.item.num := completion];
      batch := CollectReadyCompletions();
    }

    method CollectReadyCompletions() returns (batch: seq<Completion>)
      modifies this
      ensures var after := CollectReady(old(View()));
              && View() == after.(consumed := [], skipped := {})
              && batch == after.consumed
    {
      batch := [];
      ghost var skipped: set<int> := {};
      while true
        invariant CollectReady(old(View())) == CollectReady(View().(consumed := batch, skipped := skipped))
        decreases |applyHoles| + |reorderCompletions|
      {
        ghost var now := View().(consumed := batch, skipped := skipped);
        PassStep(now);
        if applyCursor in applyHoles {
          applyHoles := applyHoles - {applyCursor};
          skipped := skipped + {applyCursor};
          applyCursor := applyCursor + 1;
          assert View().(consumed := batch, skipped := skipped) == SkipHole(now);
          continue;
        }
        if applyCursor !in reorderCompletions {
          return batch;
        }
        batch := batch + [reorderCompletions[applyCursor]];
        reorderCompletions := reorderCompletions - {applyCursor};
        applyCursor := applyCursor + 1;
        assert View().(consumed := batch, skipped := skipped) == Consume(now);
      }
    }
  }

  /** One turn of the ordered pass. */
  lemma PassStep(a: Apply)
    ensures CollectReady(a) ==
            if a.cursor in a.holes then CollectReady(SkipHole(a)) else if a.cursor in a.reorder then CollectReady(Consume(a)) else a
  {
  }
}
