/** ai/ai_relational.py: the relational memory (profiles of both persons and
    the history of reports), its normalisation on construction, and
    `generate_feedback`: the JSON span of the model's answer, the key
    fallbacks, the three-item report, the appended history and the profile
    merge in which the stored profile wins. */
module Relational {
  import opened Shared
  import opened PyText
  import opened AiBase

  const RuiProfile: string := "rui_profile"
  const MariaProfile: string := "maria_profile"
  const Dynamics: string := "relational_dynamics"

  lemma KeysDistinct()
    ensures RuiProfile != MariaProfile && RuiProfile != Dynamics && MariaProfile != Dynamics
  {
    assert RuiProfile[1] != Dynamics[1];
    assert MariaProfile[0] != Dynamics[0] && MariaProfile[0] != RuiProfile[0];
  }

  // ---------------------------------------------------------------------
  // __init__
  // ---------------------------------------------------------------------

  /** The memory after `__init__`: both profiles exist (a stored value is
      kept, whatever it is) and the history is a list (any other value,
      or none, is replaced by the empty list). */
  function Normalized(m: map<string, Json>): map<string, Json> {
    var m1 := if RuiProfile in m then m else m[RuiProfile := JObj(map[])];
    var m2 := if MariaProfile in m1 then m1 else m1[MariaProfile := JObj(map[])];
    if Dynamics in m2 && m2[Dynamics].JArr? then m2 else m2[Dynamics := JArr([])]
  }

  /** What a usable relational memory holds. */
  predicate WellFormed(m: map<string, Json>) {
    RuiProfile in m && MariaProfile in m && Dynamics in m && m[Dynamics].JArr?
  }

  /** Normalising makes the memory well formed and changes nothing it need
      not: stored profiles and a stored list are kept, other keys too. */
  lemma NormalizedSpec(m: map<string, Json>)
    ensures WellFormed(Normalized(m))
    ensures Normalized(m).Keys == m.Keys + {RuiProfile, MariaProfile, Dynamics}
    ensures forall k :: k in m && k != Dynamics ==> Normalized(m)[k] == m[k]
    ensures RuiProfile !in m ==> Normalized(m)[RuiProfile] == JObj(map[])
    ensures MariaProfile !in m ==> Normalized(m)[MariaProfile] == JObj(map[])
    ensures Dynamics in m && m[Dynamics].JArr? ==> Normalized(m)[Dynamics] == m[Dynamics]
    ensures !(Dynamics in m && m[Dynamics].JArr?) ==> Normalized(m)[Dynamics] == JArr([])
  {
  }

  /** Normalising twice is normalising once. */
  lemma NormalizedIdempotent(m: map<string, Json>)
    ensures Normalized(Normalized(m)) == Normalized(m)
  {
    NormalizedSpec(m);
  }

  // ---------------------------------------------------------------------
  // The JSON span: re.search(r'\{[\s\S]*\}', text)
  // ---------------------------------------------------------------------

  /** The index of the first `c`, or |s| when there is none. */
  function IndexOf(s: string, c: char): (i: nat)
    ensures i <= |s| && (i < |s| ==> s[i] == c)
    ensures forall k :: 0 <= k < i ==> s[k] != c
  {
    if s == [] then 0
    else if s[0] == c then 0
    else 1 + IndexOf(s[1..], c)
  }

  /** The index of the last `c`, or -1 when there is none. */
  function LastIndexOf(s: string, c: char): (j: int)
    ensures -1 <= j < |s| && (j >= 0 ==> s[j] == c)
    ensures forall k :: j < k < |s| ==> s[k] != c
  {
    if s == [] then -1
    else if s[|s| - 1] == c then |s| - 1
    else LastIndexOf(s[..|s| - 1], c)
  }

  /** The matched text: from the first '{' to the last '}' when that one
      comes after it (the leftmost start, extended as far as it goes). */
  function GreedySpan(s: string): Option<string> {
    var i := IndexOf(s, '{');
    var j := LastIndexOf(s, '}');
    if i < |s| && i < j then Some(s[i..j + 1]) else None
  }

  /** There is a match exactly when some '{' precedes some '}'; the match
      then starts at the first '{' and ends at the last '}'. */
  lemma GreedySpanSpec(s: string)
    ensures GreedySpan(s).Some? <==> exists a, b :: 0 <= a < b < |s| && s[a] == '{' && s[b] == '}'
    ensures GreedySpan(s).Some? ==>
      var t := GreedySpan(s).value;
      && |t| >= 2 && t[0] == '{' && t[|t| - 1] == '}'
      && (forall k :: 0 <= k < IndexOf(s, '{') ==> s[k] != '{')
      && t == s[IndexOf(s, '{')..LastIndexOf(s, '}') + 1]
      && (forall k :: LastIndexOf(s, '}') < k < |s| ==> s[k] != '}')
  {
    if exists a, b :: 0 <= a < b < |s| && s[a] == '{' && s[b] == '}' {
      var a, b :| 0 <= a < b < |s| && s[a] == '{' && s[b] == '}';
      assert IndexOf(s, '{') <= a;
      assert LastIndexOf(s, '}') >= b;
    }
  }

  /** Prose between two objects stays inside the span, which then no
      longer parses as one JSON value. */
  lemma GreedySpanTakesBothObjects()
    ensures GreedySpan("x {\"a\": 1} and {\"b\": 2}") == Some("{\"a\": 1} and {\"b\": 2}")
  {
    var s := "x {\"a\": 1} and {\"b\": 2}";
    assert s[2] == '{';
    assert IndexOf(s, '{') == 2;
    assert s[|s| - 1] == '}';
    assert LastIndexOf(s, '}') == |s| - 1;
    assert s[2..|s|] == "{\"a\": 1} and {\"b\": 2}";
  }

  // ---------------------------------------------------------------------
  // Extraction, report, merge
  // ---------------------------------------------------------------------

  /** The three lists a report is built from, before slicing. */
  datatype Extracted = Extracted(strengths: Json, challenges: Json, advice: Json)

  const NoLists: Extracted := Extracted(JArr([]), JArr([]), JArr([]))

  /** `d.get(primary, d.get(fallback, []))`. */
  function Fallback(d: map<string, Json>, primary: string, fallback: string): (r: Json)
    ensures primary in d ==> r == d[primary]
    ensures primary !in d && fallback in d ==> r == d[fallback]
    ensures primary !in d && fallback !in d ==> r == JArr([])
  {
    Get(d, primary, Get(d, fallback, JArr([])))
  }

  /** The try block: no span raises ValueError and a span that does not
      parse raises JSONDecodeError, both caught and giving empty lists; a
      parsed value that is not a dict has no `get`, and that AttributeError
      is not caught. */
  function Extract(text: string, parse: string -> Option<Json>): (r: Result<Extracted>)
    ensures GreedySpan(text).None? ==> r == Ok(NoLists)
    ensures GreedySpan(text).Some? && parse(GreedySpan(text).value).None? ==> r == Ok(NoLists)
    ensures r.Raise? <==> GreedySpan(text).Some? && parse(GreedySpan(text).value).Some?
                           && !parse(GreedySpan(text).value).value.JObj?
  {
    match GreedySpan(text)
    case None => Ok(NoLists)
    case Some(span) =>
      match parse(span)
      case None => Ok(NoLists)
      case Some(JObj(d)) =>
        Ok(Extracted(Fallback(d, "strengths", "positivos"),
                     Fallback(d, "challenges", "negativos"),
                     Fallback(d, "advice", "conselhos")))
      case Some(_) => Raise(AttributeError)
  }

  /** `v[:3]`: the first three items of a list or characters of a string;
      any other value cannot be sliced and raises TypeError. */
  function Slice3(v: Json): (r: Result<Json>)
    ensures r.Ok? <==> v.JArr? || v.JStr?
    ensures r.Raise? ==> r.exc == TypeError
    ensures v.JArr? ==>
      && r.value.JArr? && |r.value.items| == (if |v.items| < 3 then |v.items| else 3)
      && r.value.items == v.items[..|r.value.items|]
    ensures v.JStr? ==>
      && r.value.JStr? && |r.value.s| == (if |v.s| < 3 then |v.s| else 3)
      && r.value.s == v.s[..|r.value.s|]
  {
    match v
    case JArr(xs) => Ok(JArr(if |xs| <= 3 then xs else xs[..3]))
    case JStr(s) => Ok(JStr(if |s| <= 3 then s else s[..3]))
    case _ => Raise(TypeError)
  }

  /** The report dict, keys in the order written. */
  function Report(today: string, e: Extracted): Result<map<string, Json>> {
    match Slice3(e.strengths)
    case Raise(x) => Raise(x)
    case Ok(s) =>
      match Slice3(e.challenges)
      case Raise(x) => Raise(x)
      case Ok(c) =>
        match Slice3(e.advice)
        case Raise(x) => Raise(x)
        case Ok(a) => Ok(map["date" := JStr(today), "strengths" := s, "challenges" := c, "advice" := a])
  }

  /** Every list of a report is a prefix of at most three items of what was
      extracted; with no usable answer all three are empty. */
  lemma ReportSpec(today: string, e: Extracted)
    ensures Report(today, e).Ok? <==>
      ((e.strengths.JArr? || e.strengths.JStr?)
       && (e.challenges.JArr? || e.challenges.JStr?)
       && (e.advice.JArr? || e.advice.JStr?))
    ensures Report(today, e).Ok? ==>
      var r := Report(today, e).value;
      && r.Keys == {"date", "strengths", "challenges", "advice"}
      && r["date"] == JStr(today)
      && r["strengths"] == Slice3(e.strengths).value
      && r["challenges"] == Slice3(e.challenges).value
      && r["advice"] == Slice3(e.advice).value
  {
  }

  /** The report of an answer that yields nothing: the date and three empty lists. */
  function EmptyReport(today: string): map<string, Json> {
    map["date" := JStr(today), "strengths" := JArr([]), "challenges" := JArr([]), "advice" := JArr([])]
  }

  lemma ReportOfNoLists(today: string)
    ensures Report(today, NoLists) == Ok(EmptyReport(today))
  {
  }

  /** `incoming | stored`: the union of the two dicts, the stored value
      winning on a shared key; a stored value that is not a dict makes `|`
      raise TypeError. */
  function MergeProfile(incoming: map<string, Json>, stored: Json): (r: Result<Json>)
    ensures r.Ok? <==> stored.JObj?
    ensures r.Raise? ==> r.exc == TypeError
    ensures r.Ok? ==>
      && r.value.JObj?
      && r.value.fields.Keys == incoming.Keys + stored.fields.Keys
      && (forall k :: k in stored.fields ==> r.value.fields[k] == stored.fields[k])
      && (forall k :: k in incoming && k !in stored.fields ==> r.value.fields[k] == incoming[k])
  {
    match stored
    case JObj(m) => Ok(JObj(incoming + m))
    case _ => Raise(TypeError)
  }

  /** Merging the same feedback again changes nothing. */
  lemma MergeProfileIdempotent(incoming: map<string, Json>, stored: Json)
    requires stored.JObj?
    ensures MergeProfile(incoming, MergeProfile(incoming, stored).value) == MergeProfile(incoming, stored)
  {
    var once := MergeProfile(incoming, stored).value;
    var twice := MergeProfile(incoming, once).value;
    assert twice.fields == once.fields;
  }

  /** The result of `generate_feedback` and the memory it leaves. */
  datatype FeedbackOutcome = FeedbackOutcome(result: Result<map<string, Json>>, memory: map<string, Json>)

  /** `generate_feedback` on a well-formed memory, given the model's answer
      (`answer`, before stripping) and the date (`today`). The history is
      appended to before the profiles are merged, so a failing merge leaves
      the new report in place. */
  function FeedbackSpec(answer: string, parse: string -> Option<Json>, today: string,
                        rui: map<string, Json>, maria: map<string, Json>, memory: map<string, Json>): (out: FeedbackOutcome)
    requires WellFormed(memory)
    ensures WellFormed(out.memory) && out.memory.Keys == memory.Keys
  {
    match Extract(Strip(answer), parse)
    case Raise(e) => FeedbackOutcome(Raise(e), memory)
    case Ok(lists) =>
      match Report(today, lists)
      case Raise(e) => FeedbackOutcome(Raise(e), memory)
      case Ok(report) => StoreReport(report, rui, maria, memory)
  }

  /** The part of `generate_feedback` after the report is built: append it
      to the history, then merge the feedback into Rui's profile and then
      into Maria's. */
  function StoreReport(report: map<string, Json>, rui: map<string, Json>, maria: map<string, Json>,
                       memory: map<string, Json>): (out: FeedbackOutcome)
    requires WellFormed(memory)
    ensures WellFormed(out.memory) && out.memory.Keys == memory.Keys
  {
    KeysDistinct();
    var m1 := memory[Dynamics := JArr(memory[Dynamics].items + [JObj(report)])];
    match MergeProfile(rui, m1[RuiProfile])
    case Raise(e) => FeedbackOutcome(Raise(e), m1)
    case Ok(rp) =>
      var m2 := m1[RuiProfile := rp];
      match MergeProfile(maria, m2[MariaProfile])
      case Raise(e) => FeedbackOutcome(Raise(e), m2)
      case Ok(mp) => FeedbackOutcome(Ok(report), m2[MariaProfile := mp])
  }

  /** Storing a report appends exactly it to the history and touches no
      other key than the two profiles; the call can then fail only with
      TypeError, from a stored profile that is not a dict, and when both
      profiles are dicts it succeeds, each profile being the merge of the
      feedback into it. */
  lemma StoreReportSpec(report: map<string, Json>, rui: map<string, Json>, maria: map<string, Json>,
                        memory: map<string, Json>)
    requires WellFormed(memory)
    ensures var out := StoreReport(report, rui, maria, memory);
      && out.memory[Dynamics].items == memory[Dynamics].items + [JObj(report)]
      && (forall k :: k in memory && k != Dynamics && k != RuiProfile && k != MariaProfile ==> out.memory[k] == memory[k])
      && (out.result.Ok? ==> out.result.value == report)
      && (out.result.Raise? ==> out.result.exc == TypeError)
      && (memory[RuiProfile].JObj? && memory[MariaProfile].JObj? ==>
            && out.result.Ok?
            && out.memory[RuiProfile] == MergeProfile(rui, memory[RuiProfile]).value
            && out.memory[MariaProfile] == MergeProfile(maria, memory[MariaProfile]).value)
  {
    KeysDistinct();
  }

  /** The history grows by exactly the returned report whenever a report is
      built, earlier entries untouched; otherwise the memory is unchanged.
      Once a report is built only a profile merge can fail, with TypeError.
      The memory stays well formed, and only the three managed keys change. */
  lemma FeedbackAppendsOneReport(answer: string, parse: string -> Option<Json>, today: string,
                                 rui: map<string, Json>, maria: map<string, Json>, memory: map<string, Json>)
    requires WellFormed(memory)
    ensures var out := FeedbackSpec(answer, parse, today, rui, maria, memory);
      var built := Extract(Strip(answer), parse).Ok? && Report(today, Extract(Strip(answer), parse).value).Ok?;
      && WellFormed(out.memory)
      && out.memory.Keys == memory.Keys
      && (forall k :: k in memory && k != Dynamics && k != RuiProfile && k != MariaProfile ==> out.memory[k] == memory[k])
      && (built ==> out.memory[Dynamics].items
                    == memory[Dynamics].items + [JObj(Report(today, Extract(Strip(answer), parse).value).value)])
      && (!built ==> out.memory == memory)
      && (out.result.Ok? ==> built && out.result.value == Report(today, Extract(Strip(answer), parse).value).value)
      && (out.result.Raise? && built ==> out.result.exc == TypeError)
  {
    var lists := Extract(Strip(answer), parse);
    if lists.Ok? && Report(today, lists.value).Ok? {
      StoreReportSpec(Report(today, lists.value).value, rui, maria, memory);
    }
  }

  /** When both stored profiles are dicts the call succeeds once a report is
      built, and each new profile keeps every stored entry and adds the
      feedback's other keys. */
  lemma FeedbackStoredProfileWins(answer: string, parse: string -> Option<Json>, today: string,
                                  rui: map<string, Json>, maria: map<string, Json>, memory: map<string, Json>)
    requires WellFormed(memory) && memory[RuiProfile].JObj? && memory[MariaProfile].JObj?
    requires Extract(Strip(answer), parse).Ok? && Report(today, Extract(Strip(answer), parse).value).Ok?
    ensures var out := FeedbackSpec(answer, parse, today, rui, maria, memory);
      && out.result.Ok?
      && out.memory[RuiProfile] == MergeProfile(rui, memory[RuiProfile]).value
      && out.memory[MariaProfile] == MergeProfile(maria, memory[MariaProfile]).value
  {
    StoreReportSpec(Report(today, Extract(Strip(answer), parse).value).value, rui, maria, memory);
  }

  /** An answer without a '{' before a '}' still yields a report, with
      three empty lists, appended to the history; only a stored profile
      that is not a dict can then make the call raise. */
  lemma FeedbackWithoutJson(answer: string, parse: string -> Option<Json>, today: string,
                            rui: map<string, Json>, maria: map<string, Json>, memory: map<string, Json>)
    requires WellFormed(memory)
    requires GreedySpan(Strip(answer)).None?
    ensures var out := FeedbackSpec(answer, parse, today, rui, maria, memory);
      && out.memory[Dynamics].items == memory[Dynamics].items + [JObj(EmptyReport(today))]
      && (out.result.Ok? ==> out.result.value == EmptyReport(today))
      && (out.result.Raise? ==> out.result.exc == TypeError)
  {
    var text := Strip(answer);
    assert Extract(text, parse) == Ok(NoLists);
    ReportOfNoLists(today);
    FeedbackAppendsOneReport(answer, parse, today, rui, maria, memory);
  }

  // ---------------------------------------------------------------------
  // RelationalAI
  // ---------------------------------------------------------------------

  class RelationalAI {
    const base: BaseAI

    /** The memory is a dict holding both profiles and a list history. */
    predicate Valid()
      reads this, base
    {
      base.memory.JObj? && WellFormed(base.memory.fields)
    }

    /** `__init__`: the BaseAI state, then the normalisation (`setdefault`
        needs the memory to be a dict). */
    constructor (memory: map<string, Json>, modelUrl: string)
      ensures Valid() && fresh(base)
      ensures base.memory == JObj(Normalized(memory)) && base.modelUrl == RStripSlash(modelUrl)
    {
      base := new BaseAI(JObj(memory), modelUrl);
      new;
      NormalizedSpec(memory);
      var m := memory;
      if RuiProfile !in m {
        m := m[RuiProfile := JObj(map[])];
      }
      if MariaProfile !in m {
        m := m[MariaProfile := JObj(map[])];
      }
      if !(Dynamics in m && m[Dynamics].JArr?) {
        m := m[Dynamics := JArr([])];
      }
      base.memory := JObj(m);
    }

    /** `generate_feedback`: prompt, answer, extraction, report, then the
        in-place updates of the memory. */
    method GenerateFeedback(io: Io, today: string, rui: map<string, Json>, maria: map<string, Json>)
      returns (r: Result<map<string, Json>>)
      requires Valid()
      modifies base`memory
      ensures Valid()
      ensures var prompt := io.relationalPrompt(rui, maria, old(base.memory).fields[RuiProfile], old(base.memory).fields[MariaProfile]);
        var out := FeedbackSpec(io.complete(prompt), io.parse, today, rui, maria, old(base.memory).fields);
        r == out.result && base.memory == JObj(out.memory)
    {
      var memory := base.memory.fields;
      var prompt := io.relationalPrompt(rui, maria, memory[RuiProfile], memory[MariaProfile]);
      var answer := io.complete(prompt);
      FeedbackAppendsOneReport(answer, io.parse, today, rui, maria, memory);
      var text := Strip(answer);
      var lists := Extract(text, io.parse);
      if lists.Raise? {
        return Raise(lists.exc);
      }
      var report := Report(today, lists.value);
      if report.Raise? {
        return Raise(report.exc);
      }
      memory := memory[Dynamics := JArr(memory[Dynamics].items + [JObj(report.value)])];
      base.memory := JObj(memory);
      var ruiProfile := MergeProfile(rui, memory[RuiProfile]);
      if ruiProfile.Raise? {
        return Raise(ruiProfile.exc);
      }
      memory := memory[RuiProfile := ruiProfile.value];
      base.memory := JObj(memory);
      var mariaProfile := MergeProfile(maria, memory[MariaProfile]);
      if mariaProfile.Raise? {
        return Raise(mariaProfile.exc);
      }
      memory := memory[MariaProfile := mariaProfile.value];
      base.memory := JObj(memory);
      r := Ok(report.value);
    }
  }
}
