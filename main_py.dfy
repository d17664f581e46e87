/** main.py: the interaction blocks built from the merged conversation, the
    batches they are split into, and one step of the batch loop (the cache
    rule of `process_rui` / `process_maria`, the `update` of the running
    feedback and the `extend` accumulation), taken sequentially. */
module MainScript {
  import opened Shared
  import opened PyText
  import opened Batching
  import opened Pairing
  import opened Personas

  // ---------------------------------------------------------------------
  // create_interaction_blocks
  // ---------------------------------------------------------------------

  function Senders(messages: seq<Message>): (s: seq<string>)
    ensures |s| == |messages| && forall i :: 0 <= i < |messages| ==> s[i] == messages[i].senderName
  {
    seq(|messages|, i requires 0 <= i < |messages| => messages[i].senderName)
  }

  function TurnOf(m: Message): Turn {
    Turn(m.senderName, m.timestampMs, ContentOrEmpty(m))
  }

  /** The block made of message i and message i + 1. */
  function BlockAt(messages: seq<Message>, i: nat): Block
    requires i + 1 < |messages|
  {
    Block(TurnOf(messages[i]), TurnOf(messages[i + 1]))
  }

  /** The blocks `create_interaction_blocks` returns: one per index at which
      the sender changes, in index order. */
  function InteractionBlocks(messages: seq<Message>): seq<Block> {
    BlocksAt(messages, PairIndices(Senders(messages)))
  }

  /** The blocks at the listed indices, in list order. */
  function BlocksAt(messages: seq<Message>, ix: seq<nat>): seq<Block>
    requires forall a :: 0 <= a < |ix| ==> ix[a] + 1 < |messages|
  {
    seq(|ix|, j requires 0 <= j < |ix| => BlockAt(messages, ix[j]))
  }

  lemma BlocksAtSnoc(messages: seq<Message>, ix: seq<nat>, i: nat)
    requires forall a :: 0 <= a < |ix| ==> ix[a] + 1 < |messages|
    requires i + 1 < |messages|
    ensures BlocksAt(messages, ix + [i]) == BlocksAt(messages, ix) + [BlockAt(messages, i)]
  {
  }

  /** `create_interaction_blocks`: the index loop that appends a block
      whenever two neighbours have different senders. */
  method CreateInteractionBlocks(messages: seq<Message>) returns (blocks: seq<Block>)
    ensures blocks == InteractionBlocks(messages)
  {
    ghost var senders := Senders(messages);
    var n := if |messages| == 0 then 0 else |messages| - 1;
    blocks := [];
    for i := 0 to n
      invariant blocks == BlocksAt(messages, PairIndicesBelow(senders, i))
    {
      if messages[i].senderName != messages[i + 1].senderName {
        BlocksAtSnoc(messages, PairIndicesBelow(senders, i), i);
        blocks := blocks + [BlockAt(messages, i)];
      }
    }
  }

  /** A block is emitted for index i exactly when the senders of message i
      and message i + 1 differ; there are at most |messages| - 1 blocks and
      they follow the index order, with missing content read as "". */
  lemma InteractionBlocksSpec(messages: seq<Message>)
    ensures var blocks := InteractionBlocks(messages);
      && (forall i :: 0 <= i && i + 1 < |messages| && messages[i].senderName != messages[i + 1].senderName ==>
            BlockAt(messages, i) in blocks)
      && (forall b :: b in blocks ==>
            exists i :: (0 <= i && i + 1 < |messages| && BlockAt(messages, i) == b
                         && messages[i].senderName != messages[i + 1].senderName))
      && |blocks| <= if |messages| == 0 then 0 else |messages| - 1
  {
    var senders := Senders(messages);
    var ix := PairIndices(senders);
    var blocks := InteractionBlocks(messages);
    PairIndicesSpec(senders);
    forall i | 0 <= i && i + 1 < |messages| && messages[i].senderName != messages[i + 1].senderName
      ensures BlockAt(messages, i) in blocks
    {
      assert senders[i] != senders[i + 1];
      var j :| 0 <= j < |ix| && ix[j] == i;
      assert blocks[j] == BlockAt(messages, i);
    }
    forall b | b in blocks
      ensures exists i :: (0 <= i && i + 1 < |messages| && BlockAt(messages, i) == b
                           && messages[i].senderName != messages[i + 1].senderName)
    {
      var j :| 0 <= j < |blocks| && blocks[j] == b;
      assert ix[j] in ix;
    }
  }

  /** The block for index i takes its sides from messages i and i + 1, and a
      message without content contributes "". */
  lemma BlockAtContent(messages: seq<Message>, i: nat)
    requires i + 1 < |messages| && messages[i].content == None
    ensures BlockAt(messages, i).input.message == ""
    ensures BlockAt(messages, i).input.sender == messages[i].senderName
    ensures BlockAt(messages, i).response.timestampMs == messages[i + 1].timestampMs
  {
  }

  // ---------------------------------------------------------------------
  // split_into_batches(blocks, max_tokens_per_batch=3000, is_blocks=True)
  // ---------------------------------------------------------------------

  /** The limit main.py passes. */
  const BatchLimit: nat := 3000

  /** `estimate_tokens`: `int(len(text.split()) / 0.75)`. */
  function EstimateTokens(text: string): (t: nat)
    ensures 3 * t <= 4 * WordCount(text) < 3 * t + 3
  {
    TokensForWords(WordCount(text))
  }

  /** The text of a block in `split_into_batches`: the two lines with the
      raw sender names and messages (no "Eu", no encoding repair). */
  function ItemText(stamp: int -> string, b: Block): string {
    "[" + stamp(b.input.timestampMs) + "] " + b.input.sender + ": " + b.input.message + "\n"
    + "[" + stamp(b.response.timestampMs) + "] " + b.response.sender + ": " + b.response.message
  }

  function ItemCost(stamp: int -> string): Block -> nat {
    b => EstimateTokens(ItemText(stamp, b))
  }

  /** The batches of main.py:180. */
  method SplitBlocks(stamp: int -> string, blocks: seq<Block>) returns (batches: seq<seq<Block>>)
    ensures batches == Batches(ItemCost(stamp), BatchLimit, blocks)
    ensures IsGreedySplit(ItemCost(stamp), BatchLimit, batches, blocks)
  {
    batches := SplitIntoBatches(blocks, ItemCost(stamp), BatchLimit);
  }

  // ---------------------------------------------------------------------
  // One step of the batch loop
  // ---------------------------------------------------------------------

  /** `f"batch_{i}"`, with the decimal digits of i. */
  function Digits(n: nat): (s: string)
    ensures |s| >= 1 && forall k :: 0 <= k < |s| ==> '0' <= s[k] <= '9'
  {
    if n < 10 then [('0' as int + n) as char]
    else Digits(n / 10) + [('0' as int + n % 10) as char]
  }

  function BatchKey(i: nat): string {
    "batch_" + Digits(i)
  }

  /** Different numbers have different digits. */
  lemma {:induction false} DigitsInjective(a: nat, b: nat)
    requires Digits(a) == Digits(b)
    ensures a == b
  {
    var s := Digits(a);
    if a >= 10 && b >= 10 {
      assert s[..|s| - 1] == Digits(a / 10);
      assert Digits(b)[..|s| - 1] == Digits(b / 10);
      DigitsInjective(a / 10, b / 10);
    }
  }

  /** Every batch has its own cache entry. */
  lemma BatchKeysDistinct(i: nat, j: nat)
    requires i != j
    ensures BatchKey(i) != BatchKey(j)
  {
    if BatchKey(i) == BatchKey(j) {
      assert BatchKey(i)[6..] == Digits(i);
      assert BatchKey(j)[6..] == Digits(j);
      DigitsInjective(i, j);
    }
  }

  /** `any(feedback.get(key) for key in aggregate)`: some key of the running
      aggregate maps to a truthy value in the fresh feedback. */
  predicate WorthCaching(feedback: map<string, Json>, aggregateKeys: set<string>) {
    exists k :: k in aggregateKeys && k in feedback && Truthy(feedback[k])
  }

  /** The cache after a miss: the fresh feedback is stored only when it is
      worth caching; an exception leaves the cache as it was. */
  function CacheAfterMiss(cache: map<string, map<string, Json>>, key: string,
                          r: Result<map<string, Json>>, aggregateKeys: set<string>): map<string, map<string, Json>>
  {
    if r.Ok? && WorthCaching(r.value, aggregateKeys) then cache[key := r.value] else cache
  }

  /** Fresh feedback is never cached: `analyze` only succeeds with an empty
      list of reflections, and no other key is in its result. */
  lemma FreshFeedbackNeverCached(io: Io, p: Persona, memory: Json, batch: seq<Block>,
                                 cache: map<string, map<string, Json>>, key: string, aggregateKeys: set<string>)
    ensures CacheAfterMiss(cache, key, AnalyzeSpec(io, p, memory, batch), aggregateKeys) == cache
  {
    Reflections.AnalyzeNeverReports(batch, CostOf(io.stamp, p), Limit(p), Processor(io, p, memory));
  }

  /** `rui_feedback[key].extend(rui_batch_feedback[key])` after the shallow
      copy: both names denote the same list, so a listed key holding a list L
      comes to hold L ++ L; a value with no `extend` raises AttributeError;
      an absent key is skipped. */
  function Doubled(feedback: map<string, Json>, key: string): (r: Result<map<string, Json>>)
    ensures r.Raise? <==> key in feedback && !feedback[key].JArr?
    ensures r.Raise? ==> r.exc == AttributeError
    ensures r.Ok? ==> r.value.Keys == feedback.Keys
    ensures r.Ok? ==> forall k :: k in feedback && k != key ==> r.value[k] == feedback[k]
    ensures r.Ok? && key in feedback ==> r.value[key] == JArr(feedback[key].items + feedback[key].items)
  {
    if key !in feedback then Ok(feedback)
    else
      match feedback[key]
      case JArr(xs) => Ok(feedback[key := JArr(xs + xs)])
      case _ => Raise(AttributeError)
  }

  /** The five keys of the accumulation loop. */
  const AccumulatedKeys: seq<string> := ["reflexoes", "planos", "elogios", "core_values", "emotional_patterns"]

  /** Where the accumulation loop stops and the two aggregates it leaves. */
  datatype Accumulation = Accumulation(outcome: Result<()>, rui: map<string, Json>, maria: map<string, Json>)

  /** The loop from a point on: for each key, Rui's aggregate first, then
      Maria's; the first exception ends the script. */
  function AccumulateFrom(rui: map<string, Json>, maria: map<string, Json>, keys: seq<string>): Accumulation {
    if keys == [] then Accumulation(Ok(()), rui, maria)
    else
      match Doubled(rui, keys[0])
      case Raise(e) => Accumulation(Raise(e), rui, maria)
      case Ok(rui') =>
        match Doubled(maria, keys[0])
        case Raise(e) => Accumulation(Raise(e), rui', maria)
        case Ok(maria') => AccumulateFrom(rui', maria', keys[1..])
  }

  /** What `Doubled` does to one map across a list of distinct keys. */
  predicate DoubledAll(before: map<string, Json>, after: map<string, Json>, keys: seq<string>) {
    && after.Keys == before.Keys
    && forall k :: k in before ==>
         after[k] == if k in keys && before[k].JArr? then JArr(before[k].items + before[k].items) else before[k]
  }

  /** When every listed key that is present holds a list in both aggregates,
      the loop completes and each listed list is doubled, nothing else
      changing. */
  lemma {:induction false} AccumulateDoublesLists(rui: map<string, Json>, maria: map<string, Json>, keys: seq<string>)
    requires forall a, b :: 0 <= a < b < |keys| ==> keys[a] != keys[b]
    requires forall k :: k in keys && k in rui ==> rui[k].JArr?
    requires forall k :: k in keys && k in maria ==> maria[k].JArr?
    ensures var acc := AccumulateFrom(rui, maria, keys);
      && acc.outcome == Ok(())
      && DoubledAll(rui, acc.rui, keys)
      && DoubledAll(maria, acc.maria, keys)
  {
    if keys != [] {
      var key := keys[0];
      var rui' := Doubled(rui, key).value;
      var maria' := Doubled(maria, key).value;
      var rest := keys[1..];
      assert key !in rest by {
        forall a | 0 <= a < |rest| ensures rest[a] != key {
          assert rest[a] == keys[a + 1];
        }
      }
      forall a, b | 0 <= a < b < |rest| ensures rest[a] != rest[b] {
        assert rest[a] == keys[a + 1] && rest[b] == keys[b + 1];
      }
      assert forall k :: k in rest ==> k in keys;
      AccumulateDoublesLists(rui', maria', rest);
    }
  }

  /** A value without `extend` under a listed key ends the script at that key. */
  lemma AccumulateStopsAtNonList(rui: map<string, Json>, maria: map<string, Json>)
    requires "reflexoes" in rui && !rui["reflexoes"].JArr?
    ensures AccumulateFrom(rui, maria, AccumulatedKeys) == Accumulation(Raise(AttributeError), rui, maria)
  {
  }

  /** Every aggregate key listed in `shared` names a cache entry holding that
      key. */
  predicate Linked(cache: map<string, map<string, Json>>, shared: map<string, string>) {
    forall k :: k in shared ==> shared[k] in cache && k in cache[shared[k]]
  }

  /** The aggregate and the cache entry named in `shared` hold one and the
      same list object under each shared key, so their values agree. */
  predicate SharesWith(cache: map<string, map<string, Json>>, shared: map<string, string>,
                       feedback: map<string, Json>) {
    && Linked(cache, shared)
    && forall k :: k in shared ==> k in feedback && cache[shared[k]][k] == feedback[k]
  }

  /** The entry stored under `b` as seen through its shared lists: each
      shared value is read from the aggregate, every other value is the
      entry's own. */
  function EntryWithShared(entry: map<string, Json>, b: string, shared: map<string, string>,
                           feedback: map<string, Json>): (e: map<string, Json>)
    ensures e.Keys == entry.Keys
  {
    map k | k in entry :: if k in shared && shared[k] == b && k in feedback then feedback[k] else entry[k]
  }

  /** The cache as seen through its shared lists. */
  function CacheWithShared(cache: map<string, map<string, Json>>, shared: map<string, string>,
                           feedback: map<string, Json>): (c: map<string, map<string, Json>>)
    ensures c.Keys == cache.Keys
    ensures forall b :: b in cache ==> c[b] == EntryWithShared(cache[b], b, shared, feedback)
  {
    map b | b in cache :: EntryWithShared(cache[b], b, shared, feedback)
  }

  /** After `feedback.update(result)`: when the result is the dict stored
      under `batchKey` (a hit, or a miss that was cached), each of its keys
      now shares its list with that entry; a fresh, uncached result shares
      nothing; an exception changes nothing. */
  function SharedAfter(shared: map<string, string>, cached: bool, r: Result<map<string, Json>>,
                       batchKey: string): map<string, string>
  {
    if !r.Ok? then shared
    else if cached then shared + (map k | k in r.value :: batchKey)
    else shared - r.value.Keys
  }

  /** A cache that already agrees with the aggregate on its shared lists is
      its own view through them. */
  lemma CacheWithSharedOfAliased(cache: map<string, map<string, Json>>, shared: map<string, string>,
                                 feedback: map<string, Json>)
    requires SharesWith(cache, shared, feedback)
    ensures CacheWithShared(cache, shared, feedback) == cache
  {
    var c := CacheWithShared(cache, shared, feedback);
    forall b | b in cache ensures c[b] == cache[b] {
      var e := EntryWithShared(cache[b], b, shared, feedback);
      assert forall k :: k in cache[b] ==> e[k] == cache[b][k];
    }
  }

  /** The view through the shared lists agrees with the aggregate. */
  lemma CacheWithSharedShares(cache: map<string, map<string, Json>>, shared: map<string, string>,
                              feedback: map<string, Json>)
    requires Linked(cache, shared) && shared.Keys <= feedback.Keys
    ensures SharesWith(CacheWithShared(cache, shared, feedback), shared, feedback)
  {
  }

  /** Changing one aggregate value changes an entry's view only under that
      key, and only when the entry shares it. */
  lemma EntryWithSharedStep(entry: map<string, Json>, b: string, shared: map<string, string>,
                            feedback: map<string, Json>, key: string, v: Json)
    requires key in feedback
    ensures EntryWithShared(entry, b, shared, feedback[key := v])
         == if key in shared && shared[key] == b && key in entry
            then EntryWithShared(entry, b, shared, feedback)[key := v]
            else EntryWithShared(entry, b, shared, feedback)
  {
  }

  /** Changing one aggregate value changes the view in the entry sharing it,
      if any, and nowhere else. */
  lemma CacheWithSharedStep(cache: map<string, map<string, Json>>, shared: map<string, string>,
                            feedback: map<string, Json>, key: string, v: Json)
    requires Linked(cache, shared) && key in feedback
    ensures var c := CacheWithShared(cache, shared, feedback);
      CacheWithShared(cache, shared, feedback[key := v])
        == if key in shared then c[shared[key] := c[shared[key]][key := v]] else c
  {
    if key in shared {
      SharedKeyStep(cache, shared, feedback, key, v);
    } else {
      UnsharedKeyStep(cache, shared, feedback, key, v);
    }
  }

  lemma SharedKeyStep(cache: map<string, map<string, Json>>, shared: map<string, string>,
                      feedback: map<string, Json>, key: string, v: Json)
    requires Linked(cache, shared) && key in feedback && key in shared
    ensures var c := CacheWithShared(cache, shared, feedback);
      CacheWithShared(cache, shared, feedback[key := v]) == c[shared[key] := c[shared[key]][key := v]]
  {
    var c := CacheWithShared(cache, shared, feedback);
    var c' := CacheWithShared(cache, shared, feedback[key := v]);
    var b0 := shared[key];
    forall b | b in cache && b != b0 ensures c'[b] == c[b] {
      EntryWithSharedStep(cache[b], b, shared, feedback, key, v);
    }
    EntryWithSharedStep(cache[b0], b0, shared, feedback, key, v);
    assert c'[b0] == c[b0][key := v];
  }

  lemma UnsharedKeyStep(cache: map<string, map<string, Json>>, shared: map<string, string>,
                        feedback: map<string, Json>, key: string, v: Json)
    requires key in feedback && key !in shared
    ensures CacheWithShared(cache, shared, feedback[key := v]) == CacheWithShared(cache, shared, feedback)
  {
    var c := CacheWithShared(cache, shared, feedback);
    var c' := CacheWithShared(cache, shared, feedback[key := v]);
    forall b | b in cache ensures c'[b] == c[b] {
      EntryWithSharedStep(cache[b], b, shared, feedback, key, v);
    }
  }

  /** `feedback.update(result)` keeps the aggregate and the cache in step:
      the entries already cached are unchanged, and when the result is cached
      under `batchKey` it is that entry. */
  lemma UpdateShares(before: map<string, map<string, Json>>, cache: map<string, map<string, Json>>,
                     shared: map<string, string>, feedback: map<string, Json>,
                     r: Result<map<string, Json>>, batchKey: string)
    requires SharesWith(before, shared, feedback)
    requires forall b :: b in before ==> b in cache && cache[b] == before[b]
    requires r.Ok? && batchKey in cache ==> cache[batchKey] == r.value
    ensures SharesWith(cache, SharedAfter(shared, batchKey in cache, r, batchKey), Merged(feedback, r))
  {
  }

  /** On a cache hit the aggregate shares the entry's lists, so the
      accumulation doubles each list of the entry under a listed key in the
      cache as well. */
  lemma HitListsDouble(cache: map<string, map<string, Json>>, shared: map<string, string>,
                       before: map<string, Json>, after: map<string, Json>, batchKey: string, keys: seq<string>)
    requires batchKey in cache
    requires DoubledAll(before + cache[batchKey], after, keys)
    ensures var entry := cache[batchKey];
      var c := CacheWithShared(cache, SharedAfter(shared, true, Ok(entry), batchKey), after);
      forall k :: k in keys && k in entry && entry[k].JArr? ==> c[batchKey][k] == JArr(entry[k].items + entry[k].items)
  {
  }

  /** One persona's side of the loop: its AI, its cache and its running
      aggregate. */
  class Side {
    const ai: PersonaAI
    var cache: map<string, map<string, Json>>
    var feedback: map<string, Json>
    /** For each aggregate key whose list is the very object stored in a
        cache entry, the key of that entry (`update` copies references). */
    var shared: map<string, string>

    /** The aggregates start as fresh lists, shared with no cache entry. */
    constructor (ai: PersonaAI, cache: map<string, map<string, Json>>, feedback: map<string, Json>)
      ensures this.ai == ai && this.cache == cache && this.feedback == feedback && this.shared == map[]
      ensures Aliased()
    {
      this.ai := ai;
      this.cache := cache;
      this.feedback := feedback;
      this.shared := map[];
    }

    predicate Aliased()
      reads this
    {
      SharesWith(cache, shared, feedback)
    }

    /** `process_rui` / `process_maria`: a cached entry is returned without
        analysing; otherwise `analyze` runs, and its result is cached when it
        is worth caching. */
    method Process(io: Io, batch: seq<Block>, batchKey: string) returns (r: Result<map<string, Json>>)
      modifies this`cache
      ensures batchKey in old(cache) ==> r == Ok(old(cache)[batchKey]) && cache == old(cache)
      ensures batchKey !in old(cache) ==>
        && r == AnalyzeSpec(io, ai.persona, ai.base.memory, batch)
        && cache == CacheAfterMiss(old(cache), batchKey, r, feedback.Keys)
    {
      if batchKey in cache {
        return Ok(cache[batchKey]);
      }
      r := ai.Analyze(io, batch);
      if r.Ok? && WorthCaching(r.value, feedback.Keys) {
        cache := cache[batchKey := r.value];
      }
    }

    /** The thread body `feedback.update(process())`: the result's keys
        overwrite the aggregate's, sharing their lists with the cache entry
        when the result is one; an exception ends the thread and leaves the
        aggregate as it was. */
    method Update(io: Io, batch: seq<Block>, batchKey: string) returns (r: Result<map<string, Json>>)
      requires Aliased()
      modifies this`cache, this`feedback, this`shared
      ensures batchKey in old(cache) ==> r == Ok(old(cache)[batchKey]) && cache == old(cache)
      ensures batchKey !in old(cache) ==>
        && r == AnalyzeSpec(io, ai.persona, ai.base.memory, batch)
        && cache == CacheAfterMiss(old(cache), batchKey, r, old(feedback).Keys)
      ensures feedback == if r.Ok? then old(feedback) + r.value else old(feedback)
      ensures shared == SharedAfter(old(shared), batchKey in cache, r, batchKey)
      ensures Aliased()
    {
      ghost var before := cache;
      r := Process(io, batch, batchKey);
      UpdateShares(before, cache, shared, feedback, r, batchKey);
      if r.Ok? {
        feedback := feedback + r.value;
        shared := SharedAfter(shared, batchKey in cache, r, batchKey);
      }
    }

    /** `feedback[key].extend(batch_feedback[key])` where both name the same
        list: it doubles, in the aggregate and in the cache entry sharing it. */
    method DoubleList(key: string)
      requires key in feedback && feedback[key].JArr? && Linked(cache, shared)
      modifies this`feedback, this`cache
      ensures feedback == old(feedback)[key := JArr(old(feedback)[key].items + old(feedback)[key].items)]
      ensures cache == if key in shared then old(cache)[shared[key] := old(cache)[shared[key]][key := feedback[key]]]
                       else old(cache)
    {
      var xs := feedback[key].items;
      feedback := feedback[key := JArr(xs + xs)];
      if key in shared {
        cache := cache[shared[key] := cache[shared[key]][key := JArr(xs + xs)]];
      }
    }
  }

  /** What a side's `process` returns: the cached entry on a hit, the
      result of `analyze` on a miss. */
  function Answer(io: Io, ai: PersonaAI, cache: map<string, map<string, Json>>, batchKey: string,
                  batch: seq<Block>): Result<map<string, Json>>
    reads ai, ai.base
  {
    if batchKey in cache then Ok(cache[batchKey]) else AnalyzeSpec(io, ai.persona, ai.base.memory, batch)
  }

  /** The aggregate after `feedback.update(...)` with that answer. */
  function Merged(feedback: map<string, Json>, r: Result<map<string, Json>>): map<string, Json> {
    if r.Ok? then feedback + r.value else feedback
  }

  /** The aggregates as main.py initialises them. */
  function InitialFeedback(p: Persona): map<string, Json> {
    match p
    case RuiPersona =>
      map["reflexoes" := JArr([]), "planos" := JArr([]), "elogios" := JArr([]),
          "core_values" := JArr([]), "emotional_patterns" := JArr([])]
    case MariaPersona =>
      map["reflexoes" := JArr([]), "planupakan" := JArr([]), "planos" := JArr([]),
          "elogios" := JArr([]), "core_values" := JArr([]), "emotional_patterns" := JArr([])]
  }

  /** The two sides of the loop. */
  class Pipeline {
    const rui: Side
    const maria: Side

    constructor (rui: Side, maria: Side)
      ensures this.rui == rui && this.maria == maria
    {
      this.rui := rui;
      this.maria := maria;
    }

    /** The accumulation loop over AccumulatedKeys. Each doubled list is
        also the list of the cache entry it is shared with. */
    method Accumulate() returns (r: Result<()>)
      requires rui != maria && rui.Aliased() && maria.Aliased()
      modifies rui`feedback, rui`cache, maria`feedback, maria`cache
      ensures var acc := AccumulateFrom(old(rui.feedback), old(maria.feedback), AccumulatedKeys);
        r == acc.outcome && rui.feedback == acc.rui && maria.feedback == acc.maria
      ensures rui.cache == CacheWithShared(old(rui.cache), rui.shared, rui.feedback)
      ensures maria.cache == CacheWithShared(old(maria.cache), maria.shared, maria.feedback)
      ensures rui.Aliased() && maria.Aliased()
    {
      CacheWithSharedOfAliased(rui.cache, rui.shared, rui.feedback);
      CacheWithSharedOfAliased(maria.cache, maria.shared, maria.feedback);
      var keys := AccumulatedKeys;
      for i := 0 to |keys|
        invariant AccumulateFrom(rui.feedback, maria.feedback, keys[i..])
               == AccumulateFrom(old(rui.feedback), old(maria.feedback), keys)
        invariant rui.feedback.Keys == old(rui.feedback).Keys && maria.feedback.Keys == old(maria.feedback).Keys
        invariant Linked(old(rui.cache), rui.shared) && Linked(old(maria.cache), maria.shared)
        invariant rui.cache == CacheWithShared(old(rui.cache), rui.shared, rui.feedback)
        invariant maria.cache == CacheWithShared(old(maria.cache), maria.shared, maria.feedback)
        invariant rui.Aliased() && maria.Aliased()
      {
        assert keys[i..][1..] == keys[i + 1..];
        var key := keys[i];
        if key in rui.feedback {
          if !rui.feedback[key].JArr? {
            return Raise(AttributeError);
          }
          ghost var v := JArr(rui.feedback[key].items + rui.feedback[key].items);
          CacheWithSharedStep(old(rui.cache), rui.shared, rui.feedback, key, v);
          rui.DoubleList(key);
          CacheWithSharedShares(old(rui.cache), rui.shared, rui.feedback);
        }
        if key in maria.feedback {
          if !maria.feedback[key].JArr? {
            return Raise(AttributeError);
          }
          ghost var v := JArr(maria.feedback[key].items + maria.feedback[key].items);
          CacheWithSharedStep(old(maria.cache), maria.shared, maria.feedback, key, v);
          maria.DoubleList(key);
          CacheWithSharedShares(old(maria.cache), maria.shared, maria.feedback);
        }
      }
      assert keys[|keys|..] == [];
      r := Ok(());
    }

    /** One iteration of the batch loop: both thread bodies, Rui's first,
        then the accumulation. A failing thread body leaves its aggregate
        alone and the script goes on; a failing accumulation ends it. No
        entry is added to either cache (a hit writes nothing, and a miss
        yields nothing worth caching), but an entry whose lists the aggregate
        shares grows with it. */
    method Step(io: Io, batch: seq<Block>, batchKey: string) returns (r: Result<()>)
      requires rui != maria && rui.Aliased() && maria.Aliased()
      modifies rui`cache, rui`feedback, rui`shared, maria`cache, maria`feedback, maria`shared
      ensures rui.shared == SharedAfter(old(rui.shared), batchKey in old(rui.cache),
                                        Answer(io, rui.ai, old(rui.cache), batchKey, batch), batchKey)
      ensures maria.shared == SharedAfter(old(maria.shared), batchKey in old(maria.cache),
                                          Answer(io, maria.ai, old(maria.cache), batchKey, batch), batchKey)
      ensures var acc := AccumulateFrom(
                Merged(old(rui.feedback), Answer(io, rui.ai, old(rui.cache), batchKey, batch)),
                Merged(old(maria.feedback), Answer(io, maria.ai, old(maria.cache), batchKey, batch)),
                AccumulatedKeys);
        r == acc.outcome && rui.feedback == acc.rui && maria.feedback == acc.maria
      ensures rui.cache == CacheWithShared(old(rui.cache), rui.shared, rui.feedback)
      ensures maria.cache == CacheWithShared(old(maria.cache), maria.shared, maria.feedback)
      ensures rui.Aliased() && maria.Aliased()
    {
      var fromRui := rui.Update(io, batch, batchKey);
      FreshFeedbackNeverCached(io, rui.ai.persona, rui.ai.base.memory, batch, old(rui.cache), batchKey, old(rui.feedback).Keys);
      var fromMaria := maria.Update(io, batch, batchKey);
      FreshFeedbackNeverCached(io, maria.ai.persona, maria.ai.base.memory, batch, old(maria.cache), batchKey, old(maria.feedback).Keys);
      r := Accumulate();
    }
  }
}
