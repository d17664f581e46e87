/** The greedy token-budget batching that appears three times in the
    pipeline (`split_into_batches` in main.py and the grouping loops of
    `RuiAI.analyze` and `MariaAI.analyze`), each time with its own cost of
    an item and its own limit; and the different prefix rule of
    `generate_initial_memory`, which stops at the first item that would
    overflow the budget. */
module Batching {
  import opened Shared

  /** `int(words / 0.75)` and `words // 0.75`: the floor of 4·words/3. */
  function TokensForWords(words: nat): (t: nat)
    ensures 3 * t <= 4 * words < 3 * t + 3
  {
    (4 * words) / 3
  }

  /** The summed cost of a batch. */
  function Cost<T(==)>(cost: T -> nat, b: seq<T>): nat {
    if b == [] then 0 else Cost(cost, b[..|b| - 1]) + cost(b[|b| - 1])
  }

  lemma CostSnoc<T>(cost: T -> nat, b: seq<T>, x: T)
    ensures Cost(cost, b + [x]) == Cost(cost, b) + cost(x)
  {
    assert (b + [x])[..|b|] == b;
  }

  lemma CostSingle<T>(cost: T -> nat, x: T)
    ensures Cost(cost, [x]) == cost(x)
  {
    CostSnoc(cost, [], x);
    assert [] + [x] == [x];
  }

  /** Costs are never negative, so a prefix never costs more than the whole. */
  lemma {:induction false} CostOfPrefix<T>(cost: T -> nat, b: seq<T>, n: nat)
    requires n <= |b|
    ensures Cost(cost, b[..n]) <= Cost(cost, b)
    decreases |b| - n
  {
    if n < |b| {
      CostOfPrefix(cost, b, n + 1);
      CostSnoc(cost, b[..n], b[n]);
      assert b[..n + 1] == b[..n] + [b[n]];
    } else {
      assert b[..n] == b;
    }
  }

  function Flatten<T(==)>(bs: seq<seq<T>>): seq<T> {
    if bs == [] then [] else bs[0] + Flatten(bs[1..])
  }

  /** The batching loop run from a state: the items not yet seen, the batch
      being filled and its token count. An item that would push the count past
      the limit closes the current batch (if it holds anything) and opens a
      new one on its own; otherwise it joins the current batch. */
  function Continue<T(==)>(cost: T -> nat, limit: nat, rest: seq<T>, cur: seq<T>, tokens: nat): seq<seq<T>>
    decreases |rest|
  {
    if rest == [] then
      (if cur == [] then [] else [cur])
    else
      var c := cost(rest[0]);
      if tokens + c > limit then
        (if cur == [] then [] else [cur]) + Continue(cost, limit, rest[1..], [rest[0]], c)
      else
        Continue(cost, limit, rest[1..], cur + [rest[0]], tokens + c)
  }

  /** The batches the loop produces from `items`. */
  function Batches<T(==)>(cost: T -> nat, limit: nat, items: seq<T>): seq<seq<T>> {
    Continue(cost, limit, items, [], 0)
  }

  /** An independent description of the greedy split: the batches cover the
      items in order, none is empty, each fits the budget unless it is a
      single item, and no batch could have taken the first item of the next. */
  predicate IsGreedySplit<T(==)>(cost: T -> nat, limit: nat, bs: seq<seq<T>>, items: seq<T>) {
    Flatten(bs) == items && IsGreedy(cost, limit, bs)
  }

  /** None of the batches is empty, each fits the budget unless it is a
      single item, and no batch could have taken the first item of the next. */
  predicate IsGreedy<T(==)>(cost: T -> nat, limit: nat, bs: seq<seq<T>>) {
    && (forall i :: 0 <= i < |bs| ==> bs[i] != [])
    && (forall i :: 0 <= i < |bs| ==> |bs[i]| == 1 || Cost(cost, bs[i]) <= limit)
    && (forall i :: 0 <= i < |bs| - 1 ==> Cost(cost, bs[i]) + cost(bs[i + 1][0]) > limit)
  }

  /** The first batch starts with `cur` (nothing is asked of an empty `cur`). */
  predicate StartsWith<T(==)>(bs: seq<seq<T>>, cur: seq<T>) {
    cur != [] ==> bs != [] && |cur| <= |bs[0]| && bs[0][..|cur|] == cur
  }

  /** What the loop keeps true of its current batch. */
  predicate GoodCurrent<T(==)>(cost: T -> nat, limit: nat, cur: seq<T>, tokens: nat) {
    && tokens == Cost(cost, cur)
    && (|cur| <= 1 || tokens <= limit)
  }

  /** The loop covers the current batch and the rest, in order. */
  lemma {:induction false} ContinueFlattens<T>(cost: T -> nat, limit: nat, rest: seq<T>, cur: seq<T>, tokens: nat)
    ensures Flatten(Continue(cost, limit, rest, cur, tokens)) == cur + rest
    decreases |rest|
  {
    if rest == [] {
      assert cur + rest == cur;
      if cur != [] {
        assert Flatten([cur]) == cur + Flatten([]);
      }
    } else {
      var c := cost(rest[0]);
      HeadTail(rest);
      if tokens + c > limit {
        var tail := Continue(cost, limit, rest[1..], [rest[0]], c);
        ContinueFlattens(cost, limit, rest[1..], [rest[0]], c);
        if cur != [] {
          assert ([cur] + tail)[1..] == tail;
        } else {
          assert [] + tail == tail;
        }
      } else {
        ContinueFlattens(cost, limit, rest[1..], cur + [rest[0]], tokens + c);
      }
    }
  }

  /** The batches the loop emits from a good state are non-empty, within
      budget unless single, greedy at every boundary, and the first of them
      starts with the current batch. */
  lemma {:induction false} ContinueIsGreedy<T>(cost: T -> nat, limit: nat, rest: seq<T>, cur: seq<T>, tokens: nat)
    requires GoodCurrent(cost, limit, cur, tokens)
    ensures IsGreedy(cost, limit, Continue(cost, limit, rest, cur, tokens))
    ensures StartsWith(Continue(cost, limit, rest, cur, tokens), cur)
    decreases |rest|
  {
    if rest != [] {
      var x := rest[0];
      var c := cost(x);
      if tokens + c > limit {
        CostSingle(cost, x);
        ContinueIsGreedy(cost, limit, rest[1..], [x], c);
        var tail := Continue(cost, limit, rest[1..], [x], c);
        if cur != [] {
          ClosingKeepsGreedy(cost, limit, cur, tokens, x, tail);
        }
      } else {
        CostSnoc(cost, cur, x);
        ContinueIsGreedy(cost, limit, rest[1..], cur + [x], tokens + c);
        StartsWithShorter(Continue(cost, limit, rest[1..], cur + [x], tokens + c), cur, x);
      }
    }
  }

  /** Closing a good, non-empty current batch because `x` does not fit, in
      front of greedy batches starting with `x`, keeps them greedy. */
  lemma ClosingKeepsGreedy<T>(cost: T -> nat, limit: nat, cur: seq<T>, tokens: nat, x: T, tail: seq<seq<T>>)
    requires GoodCurrent(cost, limit, cur, tokens) && cur != []
    requires tokens + cost(x) > limit
    requires IsGreedy(cost, limit, tail) && StartsWith(tail, [x])
    ensures IsGreedy(cost, limit, [cur] + tail) && StartsWith([cur] + tail, cur)
  {
    var bs := [cur] + tail;
    assert tail[0][..1] == [x];
    assert bs[1][0] == x;
    assert forall i :: 1 <= i < |bs| ==> bs[i] == tail[i - 1];
    assert bs[0][..|cur|] == cur;
  }

  /** Batches starting with `cur + [x]` start with `cur`. */
  lemma StartsWithShorter<T>(bs: seq<seq<T>>, cur: seq<T>, x: T)
    requires StartsWith(bs, cur + [x])
    ensures StartsWith(bs, cur)
  {
    if cur != [] {
      assert bs[0][..|cur|] == (bs[0][..|cur| + 1])[..|cur|];
    }
  }

  /** The loop's batches are a greedy split of the items. */
  lemma BatchesIsGreedy<T>(cost: T -> nat, limit: nat, items: seq<T>)
    ensures IsGreedySplit(cost, limit, Batches(cost, limit, items), items)
  {
    ContinueFlattens(cost, limit, items, [], 0);
    assert [] + items == items;
    ContinueIsGreedy(cost, limit, items, [], 0);
  }

  lemma FlattenCons<T>(bs: seq<seq<T>>)
    requires bs != []
    ensures Flatten(bs) == bs[0] + Flatten(bs[1..])
  {
  }

  /** A batch followed by more batches is a strict prefix of what they cover. */
  lemma FirstBatchIsPrefix<T>(bs: seq<seq<T>>, items: seq<T>)
    requires bs != [] && Flatten(bs) == items
    ensures |bs[0]| <= |items| && items[..|bs[0]|] == bs[0]
    ensures Flatten(bs[1..]) == items[|bs[0]|..]
  {
    FlattenCons(bs);
  }

  lemma FlattenOfNonEmpty<T>(bs: seq<seq<T>>)
    requires bs != [] && forall i :: 0 <= i < |bs| ==> bs[i] != []
    ensures Flatten(bs) != [] && Flatten(bs)[0] == bs[0][0]
  {
    FlattenCons(bs);
  }

  /** Greedy splits are unique: two of them of the same items agree. */
  lemma {:induction false} GreedySplitIsUnique<T>(cost: T -> nat, limit: nat, bs: seq<seq<T>>, cs: seq<seq<T>>, items: seq<T>)
    requires IsGreedySplit(cost, limit, bs, items)
    requires IsGreedySplit(cost, limit, cs, items)
    ensures bs == cs
    decreases |items|
  {
    if bs == [] || cs == [] {
      if bs != [] {
        FlattenOfNonEmpty(bs);
      }
      if cs != [] {
        FlattenOfNonEmpty(cs);
      }
    } else {
      FirstBatchIsPrefix(bs, items);
      FirstBatchIsPrefix(cs, items);
      FirstBatchLongest(cost, limit, bs, cs, items);
      FirstBatchLongest(cost, limit, cs, bs, items);
      assert bs[0] == cs[0];
      var n := |bs[0]|;
      GreedySplitIsUnique(cost, limit, bs[1..], cs[1..], items[n..]);
      HeadTail(bs);
      HeadTail(cs);
    }
  }

  /** The first batch of a greedy split is at least as long as the first
      batch of any other: had it been shorter, the item after it would have
      fitted. */
  lemma FirstBatchLongest<T>(cost: T -> nat, limit: nat, bs: seq<seq<T>>, cs: seq<seq<T>>, items: seq<T>)
    requires IsGreedySplit(cost, limit, bs, items)
    requires IsGreedySplit(cost, limit, cs, items)
    requires bs != [] && cs != []
    ensures |cs[0]| <= |bs[0]|
  {
    FirstBatchIsPrefix(bs, items);
    FirstBatchIsPrefix(cs, items);
    var n := |bs[0]|;
    if n < |cs[0]| {
      assert 1 < |bs|;
      FlattenOfNonEmpty(bs[1..]);
      assert items[n] == bs[1][0];
      var longer := cs[0][..n + 1];
      assert longer == bs[0] + [items[n]];
      CostSnoc(cost, bs[0], items[n]);
      CostOfPrefix(cost, cs[0], n + 1);
      assert false;
    }
  }

  /** The loop's batches are the only greedy split of the items. */
  lemma GreedySplitIsBatches<T>(cost: T -> nat, limit: nat, bs: seq<seq<T>>, items: seq<T>)
    requires IsGreedySplit(cost, limit, bs, items)
    ensures bs == Batches(cost, limit, items)
  {
    BatchesIsGreedy(cost, limit, items);
    GreedySplitIsUnique(cost, limit, bs, Batches(cost, limit, items), items);
  }

  /** An item that alone exceeds the budget is never dropped and always sits
      in a batch of its own. */
  lemma OversizedItemSitsAlone<T>(cost: T -> nat, limit: nat, items: seq<T>, i: nat)
    requires i < |items| && cost(items[i]) > limit
    ensures exists b :: b in Batches(cost, limit, items) && b == [items[i]]
  {
    var bs := Batches(cost, limit, items);
    BatchesIsGreedy(cost, limit, items);
    var k, off := LocateItem(bs, items, i);
    var b := bs[k];
    if |b| > 1 {
      assert b[..off + 1][..off] == b[..off];
      CostSnoc(cost, b[..off], b[off]);
      assert b[..off + 1] == b[..off] + [b[off]];
      CostOfPrefix(cost, b, off + 1);
      assert false;
    }
    assert b == [items[i]];
    assert bs[k] in bs;
  }

  /** Where item `i` lies in a split: batch `k`, offset `off`. */
  lemma {:induction false} LocateItem<T>(bs: seq<seq<T>>, items: seq<T>, i: nat) returns (k: nat, off: nat)
    requires Flatten(bs) == items && i < |items|
    ensures k < |bs| && off < |bs[k]| && bs[k][off] == items[i]
  {
    FlattenCons(bs);
    if i < |bs[0]| {
      k, off := 0, i;
    } else {
      var k1, off1 := LocateItem(bs[1..], items[|bs[0]|..], i - |bs[0]|);
      k, off := k1 + 1, off1;
    }
  }

  /** One turn of the loop, on the items from `i` on. */
  lemma ContinueStep<T>(cost: T -> nat, limit: nat, items: seq<T>, i: nat, cur: seq<T>, tokens: nat)
    requires i < |items|
    ensures var c := cost(items[i]);
      Continue(cost, limit, items[i..], cur, tokens)
      == if tokens + c > limit then
           (if cur == [] then [] else [cur]) + Continue(cost, limit, items[i + 1..], [items[i]], c)
         else
           Continue(cost, limit, items[i + 1..], cur + [items[i]], tokens + c)
  {
    assert items[i..][1..] == items[i + 1..];
  }

  /** `split_into_batches`: the loop itself, proved to compute Batches. */
  method SplitIntoBatches<T(==)>(items: seq<T>, cost: T -> nat, limit: nat) returns (batches: seq<seq<T>>)
    ensures batches == Batches(cost, limit, items)
    ensures IsGreedySplit(cost, limit, batches, items)
  {
    batches := [];
    var current: seq<T> := [];
    var tokens: nat := 0;
    for i := 0 to |items|
      invariant batches + Continue(cost, limit, items[i..], current, tokens) == Batches(cost, limit, items)
    {
      var item := items[i];
      var c := cost(item);
      ContinueStep(cost, limit, items, i, current, tokens);
      if tokens + c > limit {
        if current != [] {
          AppendAssoc(batches, [current], Continue(cost, limit, items[i + 1..], [item], c));
          batches := batches + [current];
        }
        current := [item];
        tokens := c;
      } else {
        current := current + [item];
        tokens := tokens + c;
      }
    }
    assert items[|items|..] == [];
    if current != [] {
      batches := batches + [current];
    }
    BatchesIsGreedy(cost, limit, items);
  }

  /** The prefix `generate_initial_memory` keeps: `n` items whose running
      cost stays within the limit, stopped by the first item that would not. */
  predicate IsBudgetPrefix<T(==)>(cost: T -> nat, limit: nat, items: seq<T>, n: nat) {
    && n <= |items|
    && Cost(cost, items[..n]) <= limit
    && (n < |items| ==> Cost(cost, items[..n]) + cost(items[n]) > limit)
  }

  /** The kept prefix is the longest one within budget: any prefix fits
      exactly when it is no longer than the kept one. */
  lemma BudgetPrefixIsLongest<T>(cost: T -> nat, limit: nat, items: seq<T>, n: nat, m: nat)
    requires IsBudgetPrefix(cost, limit, items, n) && m <= |items|
    ensures Cost(cost, items[..m]) <= limit <==> m <= n
  {
    if m <= n {
      assert items[..n][..m] == items[..m];
      CostOfPrefix(cost, items[..n], m);
    } else {
      assert items[..m][..n + 1] == items[..n + 1];
      assert items[..n + 1] == items[..n] + [items[n]];
      CostSnoc(cost, items[..n], items[n]);
      CostOfPrefix(cost, items[..m], n + 1);
    }
  }
}
