/** Which adjacent messages become an interaction block, shared by the two
    copies of `create_interaction_blocks` (main.py and
    utils/conversation_parser.py): the message at index i and the one after it
    form a block exactly when their senders differ. */
module Pairing {

  /** The indices i < k (and i + 1 < |senders|) at which the sender changes
      between message i and message i + 1, in increasing order. */
  function PairIndicesBelow(senders: seq<string>, k: nat): (ix: seq<nat>)
    requires k < |senders| || k == 0
    ensures forall a :: 0 <= a < |ix| ==> ix[a] < k
  {
    if k == 0 then []
    else PairIndicesBelow(senders, k - 1) + (if senders[k - 1] != senders[k] then [k - 1] else [])
  }

  /** The indices for the whole conversation: `range(len(messages) - 1)`. */
  function PairIndices(senders: seq<string>): (ix: seq<nat>)
    ensures forall a :: 0 <= a < |ix| ==> ix[a] + 1 < |senders|
  {
    if |senders| == 0 then [] else PairIndicesBelow(senders, |senders| - 1)
  }

  /** `ix` lists, in increasing order, exactly the indices i < k at which
      the sender changes between message i and message i + 1. */
  predicate ListsChangesBelow(senders: seq<string>, ix: seq<nat>, k: nat)
    requires k < |senders| || k == 0
  {
    && (forall i: nat :: i in ix ==> i < k && senders[i] != senders[i + 1])
    && (forall i: nat :: i < k && senders[i] != senders[i + 1] ==> i in ix)
    && (forall a, b :: 0 <= a < b < |ix| ==> ix[a] < ix[b])
    && |ix| <= k
  }

  /** An index is listed exactly when the senders differ there; the list is
      strictly increasing and no longer than the number of adjacent pairs. */
  lemma {:induction false} PairIndicesBelowSpec(senders: seq<string>, k: nat)
    requires k < |senders| || k == 0
    ensures ListsChangesBelow(senders, PairIndicesBelow(senders, k), k)
  {
    if k > 0 {
      PairIndicesBelowSpec(senders, k - 1);
      ChangesBelowStep(senders, k, PairIndicesBelow(senders, k - 1));
    }
  }

  /** The step of PairIndicesBelowSpec: listing k - 1 or not, as the senders
      at k - 1 and k differ or not. */
  lemma ChangesBelowStep(senders: seq<string>, k: nat, prev: seq<nat>)
    requires 0 < k < |senders| && ListsChangesBelow(senders, prev, k - 1)
    ensures ListsChangesBelow(senders, prev + (if senders[k - 1] != senders[k] then [k - 1] else []), k)
  {
    forall a | 0 <= a < |prev|
      ensures prev[a] < k - 1
    {
      assert prev[a] in prev;
    }
    if senders[k - 1] != senders[k] {
      var ix := prev + [k - 1];
      assert forall a :: 0 <= a < |prev| ==> ix[a] < k - 1;
    }
  }

  /** Over the whole conversation: an index is listed exactly when it has a
      successor with a different sender; the list is strictly increasing and
      has at most |senders| - 1 entries. */
  lemma PairIndicesSpec(senders: seq<string>)
    ensures var ix := PairIndices(senders);
      && (forall i: nat :: i in ix <==> i + 1 < |senders| && senders[i] != senders[i + 1])
      && (forall a, b :: 0 <= a < b < |ix| ==> ix[a] < ix[b])
      && |ix| <= if |senders| == 0 then 0 else |senders| - 1
  {
    if |senders| > 0 {
      PairIndicesBelowSpec(senders, |senders| - 1);
    }
  }

  /** Fewer than two messages make no block. */
  lemma PairIndicesOfShort(senders: seq<string>)
    requires |senders| < 2
    ensures PairIndices(senders) == []
  {
  }
}
