/** The part of `RuiAI.analyze` and `MariaAI.analyze` that is the same in
    both: the batches are grouped with the greedy budget rule, every batch's
    reflections are appended with `list.extend`, and the collected list is
    filtered down to the distinct, dated, non-blank reflections. */
module Reflections {
  import opened Shared
  import opened PyText
  import opened Batching

  /** The only date the filter accepts (the date the prompts ask for). */
  const ReflectionDate: string := "2025-04-12"

  /** `all_reflections.extend(v)`: a list contributes its items, a string its
      characters, a dict its keys; any other value raises TypeError. The
      characters and keys are strings, which the filter below refuses with
      AttributeError whatever they spell, so they are kept here only as that
      many string values. */
  function Extension(v: Json): (r: Result<seq<Json>>)
    ensures r.Raise? <==> (v.JNull? || v.JBool? || v.JNum?)
    ensures r.Raise? ==> r.exc == TypeError
    ensures v.JArr? ==> r == Ok(v.items)
    ensures v.JStr? ==> r.Ok? && |r.value| == |v.s|
    ensures v.JObj? ==> r.Ok? && |r.value| == |v.fields|
    ensures r.Ok? && !v.JArr? ==> forall k :: 0 <= k < |r.value| ==> r.value[k].JStr?
  {
    match v
    case JArr(items) => Ok(items)
    case JStr(s) => Ok(seq(|s|, k requires 0 <= k < |s| => JStr([s[k]])))
    case JObj(m) => Ok(seq(|m|, k => JStr("")))
    case _ => Raise(TypeError)
  }

  /** Prefixes the list of a successful result. */
  function Then(prefix: seq<Json>, r: Result<seq<Json>>): (t: Result<seq<Json>>)
    ensures t.Ok? <==> r.Ok?
    ensures t.Raise? ==> t == r
    ensures t.Ok? ==> t.value == prefix + r.value
  {
    match r
    case Ok(xs) => Ok(prefix + xs)
    case Raise(e) => Raise(e)
  }

  lemma ThenEmpty(r: Result<seq<Json>>)
    ensures Then([], r) == r
  {
    if r.Ok? {
      assert [] + r.value == r.value;
    }
  }

  lemma ThenThen(a: seq<Json>, b: seq<Json>, r: Result<seq<Json>>)
    ensures Then(a, Then(b, r)) == Then(a + b, r)
  {
    if r.Ok? {
      assert a + (b + r.value) == (a + b) + r.value;
    }
  }

  /** The extension of every batch's reflections in turn; the first
      extension that raises ends the whole analysis. */
  function Collect<B>(process: seq<B> -> Json, groups: seq<seq<B>>): Result<seq<Json>> {
    if groups == [] then Ok([])
    else
      match Extension(process(groups[0]))
      case Raise(e) => Raise(e)
      case Ok(xs) => Then(xs, Collect(process, groups[1..]))
  }

  /** When every batch answers with a list, the collected reflections are
      the answers' items laid end to end. */
  lemma {:induction false} CollectOfLists<B>(process: seq<B> -> Json, groups: seq<seq<B>>)
    requires forall k :: 0 <= k < |groups| ==> process(groups[k]).JArr?
    ensures Collect(process, groups).Ok?
    ensures Collect(process, groups).value == Flatten(seq(|groups|, k requires 0 <= k < |groups| => process(groups[k]).items))
  {
    var f := seq(|groups|, k requires 0 <= k < |groups| => process(groups[k]).items);
    if groups != [] {
      CollectOfLists(process, groups[1..]);
      var g := seq(|groups[1..]|, k requires 0 <= k < |groups[1..]| => process(groups[1..][k]).items);
      assert f[1..] == g;
    }
  }

  /** When every batch answers with an empty list, nothing is collected. */
  lemma {:induction false} CollectOfEmptyAnswers<B>(process: seq<B> -> Json, groups: seq<seq<B>>)
    requires forall g :: process(g) == JArr([])
    ensures Collect(process, groups) == Ok([])
  {
    if groups != [] {
      CollectOfEmptyAnswers(process, groups[1..]);
    }
  }

  /** The grouping loop of `analyze`, run on the blocks: a batch is sent to
      `process` and its answer extended onto the collected list at the moment
      it is closed, and the last batch after the loop. */
  method GroupAndCollect<B(==)>(blocks: seq<B>, cost: B -> nat, limit: nat, process: seq<B> -> Json)
    returns (r: Result<seq<Json>>)
    ensures r == Collect(process, Batches(cost, limit, blocks))
  {
    var all: seq<Json> := [];
    var current: seq<B> := [];
    var tokens: nat := 0;
    assert blocks[0..] == blocks;
    ThenEmpty(Collect(process, Batches(cost, limit, blocks)));
    for i := 0 to |blocks|
      invariant Then(all, Collect(process, Continue(cost, limit, blocks[i..], current, tokens)))
                == Collect(process, Batches(cost, limit, blocks))
    {
      var block := blocks[i];
      var c := cost(block);
      assert blocks[i..][1..] == blocks[i + 1..];
      if tokens + c > limit {
        ghost var tail := Continue(cost, limit, blocks[i + 1..], [block], c);
        if current != [] {
          assert ([current] + tail)[1..] == tail;
          match Extension(process(current))
          case Raise(e) =>
            return Raise(e);
          case Ok(xs) =>
            ThenThen(all, xs, Collect(process, tail));
            all := all + xs;
        } else {
          assert [] + tail == tail;
        }
        current := [block];
        tokens := c;
      } else {
        current := current + [block];
        tokens := tokens + c;
      }
    }
    assert blocks[|blocks|..] == [];
    if current != [] {
      assert [current][1..] == [];
      match Extension(process(current))
      case Raise(e) =>
        return Raise(e);
      case Ok(xs) =>
        assert xs + [] == xs;
        all := all + xs;
    } else {
      assert all + [] == all;
    }
    r := Ok(all);
  }

  /** What the filter decides about one collected reflection. */
  datatype Verdict = Admit(text: string) | Pass | Fail(exc: Exc)

  /** The filter's test, in Python's evaluation order: `r.get` needs a dict
      (AttributeError); `not in seen_texts` needs a hashable text
      (TypeError); a seen text or a date other than ReflectionDate is passed
      over; `.strip()` needs a string text (AttributeError); a blank text is
      passed over. */
  function Judge(r: Json, seen: set<string>): (v: Verdict)
    ensures v.Admit? <==> IsReflection(r) && TextOf(r) !in seen
    ensures v.Admit? ==> v.text == TextOf(r)
  {
    match r
    case JObj(m) =>
      var text := Get(m, "text", JStr(""));
      if !Hashable(text) then Fail(TypeError)
      else if text.JStr? && text.s in seen then Pass
      else if Get(m, "date", JStr("")) != JStr(ReflectionDate) then Pass
      else if !text.JStr? then Fail(AttributeError)
      else if Strip(text.s) == [] then Pass
      else Admit(text.s)
    case _ => Fail(AttributeError)
  }

  /** A reflection the filter can keep: a dict dated ReflectionDate whose
      "text" is a string that is not blank. */
  predicate IsReflection(r: Json) {
    && r.JObj?
    && "text" in r.fields && r.fields["text"].JStr? && Strip(r.fields["text"].s) != []
    && "date" in r.fields && r.fields["date"] == JStr(ReflectionDate)
  }

  function TextOf(r: Json): string {
    if r.JObj? && "text" in r.fields && r.fields["text"].JStr? then r.fields["text"].s else ""
  }

  /** The deduplicating filter from a point in the list, given the texts
      already kept. */
  function FilterFrom(rs: seq<Json>, seen: set<string>): Result<seq<Json>> {
    if rs == [] then Ok([])
    else
      match Judge(rs[0], seen)
      case Fail(e) => Raise(e)
      case Pass => FilterFrom(rs[1..], seen)
      case Admit(t) => Then([rs[0]], FilterFrom(rs[1..], seen + {t}))
  }

  /** What the filter keeps: an ordered selection of the collected list, of
      reflections only, with pairwise distinct texts none of which was seen
      before. */
  lemma {:induction false} FilterKeepsDistinctReflections(rs: seq<Json>, seen: set<string>)
    requires FilterFrom(rs, seen).Ok?
    ensures var u := FilterFrom(rs, seen).value;
      && SubsequenceOf(u, rs)
      && (forall k :: 0 <= k < |u| ==> IsReflection(u[k]) && TextOf(u[k]) !in seen)
      && (forall a, b :: 0 <= a < b < |u| ==> TextOf(u[a]) != TextOf(u[b]))
  {
    if rs != [] {
      match Judge(rs[0], seen)
      case Pass =>
        FilterKeepsDistinctReflections(rs[1..], seen);
        var u := FilterFrom(rs[1..], seen).value;
        if u != [] {
          assert SubsequenceOf(u, rs[1..]);
        }
      case Admit(t) =>
        var seen' := seen + {t};
        FilterKeepsDistinctReflections(rs[1..], seen');
        var tail := FilterFrom(rs[1..], seen').value;
        var u := [rs[0]] + tail;
        assert u[1..] == tail;
        forall k | 0 <= k < |u|
          ensures IsReflection(u[k]) && TextOf(u[k]) !in seen
        {
          if k > 0 {
            assert u[k] == tail[k - 1];
          }
        }
        forall a, b | 0 <= a < b < |u|
          ensures TextOf(u[a]) != TextOf(u[b])
        {
          if a == 0 {
            assert u[b] == tail[b - 1];
          }
        }
    }
  }

  /** The texts of a list of kept reflections. */
  function KeptTexts(u: seq<Json>): set<string> {
    if u == [] then {} else {TextOf(u[0])} + KeptTexts(u[1..])
  }

  /** The texts seen after judging `r`. */
  function NextSeen(r: Json, seen: set<string>): set<string> {
    if Judge(r, seen).Admit? then seen + {TextOf(r)} else seen
  }

  /** One successful step of the filter: the rest succeeds too, and the kept
      texts are those of the rest plus the head's when it is admitted. */
  lemma FilterStep(rs: seq<Json>, seen: set<string>)
    requires rs != [] && FilterFrom(rs, seen).Ok?
    ensures FilterFrom(rs[1..], NextSeen(rs[0], seen)).Ok?
    ensures seen + KeptTexts(FilterFrom(rs, seen).value)
         == NextSeen(rs[0], seen) + KeptTexts(FilterFrom(rs[1..], NextSeen(rs[0], seen)).value)
    ensures IsReflection(rs[0]) ==> TextOf(rs[0]) in NextSeen(rs[0], seen)
  {
    var v := Judge(rs[0], seen);
    if v.Admit? {
      var tail := FilterFrom(rs[1..], seen + {v.text}).value;
      var u := [rs[0]] + tail;
      assert FilterFrom(rs, seen).value == u;
      assert u[1..] == tail;
      assert KeptTexts(u) == {v.text} + KeptTexts(tail);
    }
  }

  /** Nothing is lost: on success, every reflection of the collected list
      has its text either seen before or among the kept texts. */
  lemma {:induction false} FilterIsComplete(rs: seq<Json>, seen: set<string>, k: nat)
    requires FilterFrom(rs, seen).Ok?
    requires k < |rs| && IsReflection(rs[k])
    ensures TextOf(rs[k]) in seen + KeptTexts(FilterFrom(rs, seen).value)
  {
    FilterStep(rs, seen);
    if k > 0 {
      assert rs[1..][k - 1] == rs[k];
      FilterIsComplete(rs[1..], NextSeen(rs[0], seen), k - 1);
    }
  }

  /** The filter raises exactly when it reaches an element that is not a
      dict; a string element (the character of a string answer, the key of
      a dict answer) is one. */
  lemma FilterRejectsText(rs: seq<Json>, seen: set<string>, s: string)
    requires rs != [] && rs[0] == JStr(s)
    ensures FilterFrom(rs, seen) == Raise(AttributeError)
  {
  }

  /** The deduplication loop of `analyze`. */
  method FilterReflections(all: seq<Json>) returns (r: Result<seq<Json>>)
    ensures r == FilterFrom(all, {})
  {
    var unique: seq<Json> := [];
    var seen: set<string> := {};
    assert all[0..] == all;
    ThenEmpty(FilterFrom(all, {}));
    for i := 0 to |all|
      invariant Then(unique, FilterFrom(all[i..], seen)) == FilterFrom(all, {})
    {
      var x := all[i];
      assert all[i..][1..] == all[i + 1..];
      match Judge(x, seen)
      case Fail(e) =>
        return Raise(e);
      case Pass =>
      case Admit(t) =>
        ThenThen(unique, [x], FilterFrom(all[i + 1..], seen + {t}));
        unique := unique + [x];
        seen := seen + {t};
    }
    assert all[|all|..] == [];
    assert unique + [] == unique;
    r := Ok(unique);
  }

  /** `unique_reflections[:2]`. */
  function RecentReflections(unique: seq<Json>): (r: seq<Json>)
    ensures |r| == if |unique| < 2 then |unique| else 2
    ensures r == unique[..|r|]
  {
    if |unique| < 2 then unique else unique[..2]
  }

  /** The end of `analyze`: it builds {"recent_reflections": the first two},
      but when there is anything to store the call `self.update_memory(data)`
      lacks the `data` argument of `update_memory(key, data)` and raises
      TypeError, so `analyze` only ever returns an empty list of reflections. */
  function AnalyzeOutcome(unique: seq<Json>): (r: Result<map<string, Json>>)
    ensures r.Raise? <==> unique != []
    ensures r.Raise? ==> r.exc == TypeError
    ensures r.Ok? ==> r.value == map["recent_reflections" := JArr([])]
  {
    var data := map["recent_reflections" := JArr(RecentReflections(unique))];
    if unique != [] then Raise(TypeError) else Ok(data)
  }

  /** The whole of `analyze` for a given cost, limit and batch processor. */
  function AnalyzeSpec<B(==)>(blocks: seq<B>, cost: B -> nat, limit: nat, process: seq<B> -> Json): Result<map<string, Json>> {
    match Collect(process, Batches(cost, limit, blocks))
    case Raise(e) => Raise(e)
    case Ok(all) =>
      match FilterFrom(all, {})
      case Raise(e) => Raise(e)
      case Ok(unique) => AnalyzeOutcome(unique)
  }

  /** `analyze` succeeds only with an empty list of reflections: one
      reflection that passes the filter is enough to make it raise. */
  lemma AnalyzeNeverReports<B>(blocks: seq<B>, cost: B -> nat, limit: nat, process: seq<B> -> Json)
    ensures var r := AnalyzeSpec(blocks, cost, limit, process);
      r.Ok? ==> r.value == map["recent_reflections" := JArr([])]
  {
  }

  /** When the collected list holds a reflection and the filter gets through
      it, `analyze` raises TypeError. */
  lemma {:induction false} AnalyzeRaisesOnReflection<B>(blocks: seq<B>, cost: B -> nat, limit: nat, process: seq<B> -> Json, k: nat)
    requires var all := Collect(process, Batches(cost, limit, blocks));
      all.Ok? && k < |all.value| && IsReflection(all.value[k])
    requires FilterFrom(Collect(process, Batches(cost, limit, blocks)).value, {}).Ok?
    ensures AnalyzeSpec(blocks, cost, limit, process) == Raise(TypeError)
  {
    var all := Collect(process, Batches(cost, limit, blocks)).value;
    FilterIsComplete(all, {}, k);
  }

  /** `analyze` itself, for a given cost, limit and batch processor. */
  method Analyze<B(==)>(blocks: seq<B>, cost: B -> nat, limit: nat, process: seq<B> -> Json)
    returns (r: Result<map<string, Json>>)
    ensures r == AnalyzeSpec(blocks, cost, limit, process)
  {
    var all := GroupAndCollect(blocks, cost, limit, process);
    if all.Raise? {
      return Raise(all.exc);
    }
    var unique := FilterReflections(all.value);
    if unique.Raise? {
      return Raise(unique.exc);
    }
    r := AnalyzeOutcome(unique.value);
  }
}
