/** ai/ai_rui.py and ai/ai_maria.py: the two personas, which differ only in
    whose messages are "Eu", how a block's tokens are estimated, the batch
    budget, and Rui's truncation of an over-long batch. */
module Personas {
  import opened Shared
  import opened PyText
  import opened AiBase
  import opened Batching
  import Reflections

  // ---------------------------------------------------------------------
  // format_conversation
  // ---------------------------------------------------------------------

  /** The persona's own name, as the sender field spells it. */
  function SelfName(p: Persona): string {
    match p
    case RuiPersona => "Rui"
    case MariaPersona => "Maria"
  }

  /** The label every other sender gets. */
  function OtherName(p: Persona): string {
    match p
    case RuiPersona => "Maria"
    case MariaPersona => "Rui"
  }

  /** The speaker label of a line: "Eu" exactly for the persona's own
      messages; any other sender, whatever its name, is shown as the other
      persona. */
  function Speaker(p: Persona, sender: string): (r: string)
    ensures r == "Eu" <==> sender == SelfName(p)
    ensures r != "Eu" ==> r == OtherName(p)
  {
    if sender == SelfName(p) then "Eu" else OtherName(p)
  }

  /** One line: "[stamp] speaker: repaired message\n". */
  function TurnLine(stamp: int -> string, p: Persona, t: Turn): string {
    "[" + stamp(t.timestampMs) + "] " + Speaker(p, t.sender) + ": " + FixEncoding(t.message) + "\n"
  }

  /** The text accumulated before the final strip: two lines per block. */
  function Lines(stamp: int -> string, p: Persona, blocks: seq<Block>): string {
    if blocks == [] then ""
    else
      var last := blocks[|blocks| - 1];
      Lines(stamp, p, blocks[..|blocks| - 1]) + TurnLine(stamp, p, last.input) + TurnLine(stamp, p, last.response)
  }

  /** What `format_conversation` returns. */
  function Formatted(stamp: int -> string, p: Persona, blocks: seq<Block>): string {
    Strip(Lines(stamp, p, blocks))
  }

  /** `format_conversation`: the loop that builds the lines, then the strip. */
  method FormatConversation(stamp: int -> string, p: Persona, blocks: seq<Block>) returns (formatted: string)
    ensures formatted == Formatted(stamp, p, blocks)
  {
    var text := "";
    for i := 0 to |blocks|
      invariant text == Lines(stamp, p, blocks[..i])
    {
      assert blocks[..i + 1][..i] == blocks[..i];
      text := text + TurnLine(stamp, p, blocks[i].input);
      text := text + TurnLine(stamp, p, blocks[i].response);
    }
    assert blocks[..|blocks|] == blocks;
    formatted := Strip(text);
  }

  predicate IsNewline(c: char) {
    c == '\n'
  }

  function NewlineCount(s: string): nat {
    |Keep(s, IsNewline)|
  }

  /** A turn is one line: when neither its time stamp nor its message holds
      a newline, the only newline is the one that ends it (the repair by
      fix_encoding never introduces one). */
  lemma TurnLineNewlines(stamp: int -> string, p: Persona, t: Turn)
    requires '\n' !in stamp(t.timestampMs) && '\n' !in t.message
    ensures NewlineCount(TurnLine(stamp, p, t)) == 1
  {
    var fx := FixEncoding(t.message);
    FixEncodingKeepsAsciiCount(t.message, '\n');
    assert '\n' !in fx;
    LineNewlines(stamp(t.timestampMs), Speaker(p, t.sender), fx);
  }

  /** The newlines of "[st] sp: fx\n" when its three parts hold none. */
  lemma LineNewlines(st: string, sp: string, fx: string)
    requires '\n' !in st && '\n' !in sp && '\n' !in fx
    ensures NewlineCount("[" + st + "] " + sp + ": " + fx + "\n") == 1
  {
    var line := "[" + st + "] " + sp + ": " + fx;
    assert '\n' !in line;
    KeepNone(line, IsNewline);
    KeepAppend(line, "\n", IsNewline);
  }

  /** Appending two one-line texts adds two newlines. */
  lemma TwoMoreLines(prefix: string, a: string, b: string)
    requires NewlineCount(a) == 1 && NewlineCount(b) == 1
    ensures NewlineCount(prefix + a + b) == NewlineCount(prefix) + 2
  {
    NewlineCountAppend(prefix, a);
    NewlineCountAppend(prefix + a, b);
  }

  /** Newlines add up over a concatenation. */
  lemma NewlineCountAppend(a: string, b: string)
    ensures NewlineCount(a + b) == NewlineCount(a) + NewlineCount(b)
  {
    KeepAppend(a, b, IsNewline);
  }

  /** Neither turn of the block has a newline in its time stamp or its message. */
  predicate OneLineEach(stamp: int -> string, b: Block) {
    && '\n' !in stamp(b.input.timestampMs) && '\n' !in b.input.message
    && '\n' !in stamp(b.response.timestampMs) && '\n' !in b.response.message
  }

  /** Two lines per block: the accumulated text holds exactly 2·|blocks|
      newlines when no stamp or message holds one. */
  lemma {:induction false} LinesNewlines(stamp: int -> string, p: Persona, blocks: seq<Block>)
    requires forall k :: 0 <= k < |blocks| ==> OneLineEach(stamp, blocks[k])
    ensures NewlineCount(Lines(stamp, p, blocks)) == 2 * |blocks|
  {
    if blocks != [] {
      var n := |blocks| - 1;
      assert forall k :: 0 <= k < n ==> blocks[..n][k] == blocks[k];
      var prefix := Lines(stamp, p, blocks[..n]);
      var a := TurnLine(stamp, p, blocks[n].input);
      var b := TurnLine(stamp, p, blocks[n].response);
      LinesNewlines(stamp, p, blocks[..n]);
      TurnLineNewlines(stamp, p, blocks[n].input);
      TurnLineNewlines(stamp, p, blocks[n].response);
      TwoMoreLines(prefix, a, b);
    }
  }

  // ---------------------------------------------------------------------
  // Token estimates and budgets
  // ---------------------------------------------------------------------

  /** A text's token estimate: `len(text) // 4` for Rui, and
      `len(text.split()) // 0.75` (the floor of 4·words/3) for Maria. */
  function TextTokens(p: Persona, text: string): (t: nat)
    ensures p.RuiPersona? ==> 4 * t <= |text| < 4 * t + 4
    ensures p.MariaPersona? ==> 3 * t <= 4 * WordCount(text) < 3 * t + 3
  {
    match p
    case RuiPersona => |text| / 4
    case MariaPersona => TokensForWords(WordCount(text))
  }

  /** `max_token_limit` of `generate_initial_memory` and `analyze`. */
  function Limit(p: Persona): nat {
    match p
    case RuiPersona => 2000
    case MariaPersona => 3000
  }

  /** The estimate of one block, formatted on its own. */
  function BlockTokens(stamp: int -> string, p: Persona, b: Block): nat {
    TextTokens(p, Formatted(stamp, p, [b]))
  }

  function CostOf(stamp: int -> string, p: Persona): Block -> nat {
    b => BlockTokens(stamp, p, b)
  }

  // ---------------------------------------------------------------------
  // _process_batch
  // ---------------------------------------------------------------------

  /** Rui's `max_context` and the room left for the prompt. */
  const MaxContext: nat := 7105
  const PromptRoom: nat := 1000

  /** How many words Rui keeps of an over-long batch: `int((max_context - 1000) * 4)`. */
  const KeptWords: nat := (MaxContext - PromptRoom) * 4

  /** Rui's truncation: a batch whose estimate exceeds 6105 tokens is cut to
      its first KeptWords words joined by single spaces. */
  function Truncated(text: string): string {
    if |text| / 4 > MaxContext - PromptRoom then
      var words := Split(text);
      Join(words[..if |words| < KeptWords then |words| else KeptWords])
    else text
  }

  /** The cut keeps the leading words, in order, and only those. */
  lemma TruncatedKeepsLeadingWords(text: string)
    requires |text| / 4 > MaxContext - PromptRoom
    ensures var n := if WordCount(text) < KeptWords then WordCount(text) else KeptWords;
      Split(Truncated(text)) == Split(text)[..n]
  {
    var words := Split(text);
    var n := if |words| < KeptWords then |words| else KeptWords;
    assert forall k :: 0 <= k < n ==> IsWord(words[..n][k]);
    SplitJoin(words[..n]);
  }

  /** A text within the estimate is left alone. */
  lemma TruncatedLeavesShortText(text: string)
    requires |text| / 4 <= MaxContext - PromptRoom
    ensures Truncated(text) == text
  {
  }

  /** The cut does not bring the estimate back under the limit when the batch
      has at least KeptWords words: 24420 words joined by spaces are at least
      48839 characters, an estimate of 12209 tokens. */
  lemma TruncationStaysOverLimit(text: string)
    requires |text| / 4 > MaxContext - PromptRoom
    requires WordCount(text) >= KeptWords
    ensures |Truncated(text)| / 4 > MaxContext - PromptRoom
  {
    var words := Split(text)[..KeptWords];
    assert forall k :: 0 <= k < |words| ==> IsWord(words[k]);
    JoinLength(words);
  }

  /** The conversation text a batch prompt carries. */
  function BatchText(stamp: int -> string, p: Persona, blocks: seq<Block>): string {
    var text := Formatted(stamp, p, blocks);
    match p
    case RuiPersona => Truncated(text)
    case MariaPersona => text
  }

  /** `json.loads(...).get("recent_reflections", [])` inside the try: a text
      that does not parse, or parses to something other than a dict (no
      `get`), gives the `[]` of the except branch. */
  function AnswerReflections(parsed: Option<Json>): (r: Json)
    ensures parsed.Some? && parsed.value.JObj? && "recent_reflections" in parsed.value.fields ==>
      r == parsed.value.fields["recent_reflections"]
    ensures !(parsed.Some? && parsed.value.JObj? && "recent_reflections" in parsed.value.fields) ==>
      r == JArr([])
  {
    match parsed
    case Some(JObj(m)) => Get(m, "recent_reflections", JArr([]))
    case _ => JArr([])
  }

  /** `_process_batch`: prompt with the memory and the batch text, strip and
      clean the answer, parse it and take its reflections. */
  function ProcessBatch(io: Io, p: Persona, memory: Json, blocks: seq<Block>): Json {
    var answer := Strip(io.complete(io.batchPrompt(p, memory, BatchText(io.stamp, p, blocks))));
    AnswerReflections(io.parse(CleanJson(answer)))
  }

  function Processor(io: Io, p: Persona, memory: Json): seq<Block> -> Json {
    bs => ProcessBatch(io, p, memory, bs)
  }

  /** `analyze` for a persona holding `memory`. */
  function AnalyzeSpec(io: Io, p: Persona, memory: Json, blocks: seq<Block>): Result<map<string, Json>> {
    Reflections.AnalyzeSpec(blocks, CostOf(io.stamp, p), Limit(p), Processor(io, p, memory))
  }

  /** When no answer of the endpoint parses, `analyze` returns an empty list
      of reflections. */
  lemma AnalyzeWithoutAnswers(io: Io, p: Persona, memory: Json, blocks: seq<Block>)
    requires forall s :: io.parse(s) == None
    ensures AnalyzeSpec(io, p, memory, blocks) == Ok(map["recent_reflections" := JArr([])])
  {
    var groups := Batches(CostOf(io.stamp, p), Limit(p), blocks);
    Reflections.CollectOfEmptyAnswers(Processor(io, p, memory), groups);
  }

  // ---------------------------------------------------------------------
  // generate_initial_memory
  // ---------------------------------------------------------------------

  /** The conversation text of `generate_initial_memory`: each block
      formatted on its own and followed by a newline. */
  function InitialText(stamp: int -> string, p: Persona, blocks: seq<Block>): string {
    if blocks == [] then ""
    else InitialText(stamp, p, blocks[..|blocks| - 1]) + Formatted(stamp, p, [blocks[|blocks| - 1]]) + "\n"
  }

  /** Taking one more block adds its estimate and its text. */
  lemma InitialStep(stamp: int -> string, p: Persona, blocks: seq<Block>, i: nat)
    requires i < |blocks|
    ensures Cost(CostOf(stamp, p), blocks[..i + 1]) == Cost(CostOf(stamp, p), blocks[..i]) + BlockTokens(stamp, p, blocks[i])
    ensures InitialText(stamp, p, blocks[..i + 1]) == InitialText(stamp, p, blocks[..i]) + Formatted(stamp, p, [blocks[i]]) + "\n"
  {
    assert blocks[..i + 1] == blocks[..i] + [blocks[i]];
    assert blocks[..i + 1][..i] == blocks[..i];
    CostSnoc(CostOf(stamp, p), blocks[..i], blocks[i]);
  }

  /** Rui or Maria: the persona and the state of its BaseAI. */
  class PersonaAI {
    const persona: Persona
    const base: BaseAI

    constructor (persona: Persona, memory: Json, modelUrl: string)
      ensures this.persona == persona && fresh(base)
      ensures base.memory == memory && base.modelUrl == RStripSlash(modelUrl)
    {
      this.persona := persona;
      base := new BaseAI(memory, modelUrl);
    }

    /** `generate_initial_memory`: the blocks are taken while the running
        estimate stays within the limit, stopping at the first block that
        would exceed it. The profile request that follows always raises
        inside its try (`self.MEMORY_SCHEMA` does not exist, and
        `update_memory` would be called without its `data`), so the memory is
        never written: the method modifies nothing, and returns the text it
        would have sent and its estimate. */
    method GenerateInitialMemory(io: Io, blocks: seq<Block>) returns (conversationText: string, tokenEstimate: nat)
      ensures exists n: nat ::
        && IsBudgetPrefix(CostOf(io.stamp, persona), Limit(persona), blocks, n)
        && conversationText == InitialText(io.stamp, persona, blocks[..n])
        && tokenEstimate == Cost(CostOf(io.stamp, persona), blocks[..n])
    {
      var cost := CostOf(io.stamp, persona);
      var limit := Limit(persona);
      conversationText := "";
      tokenEstimate := 0;
      var i := 0;
      while i < |blocks|
        invariant i <= |blocks|
        invariant tokenEstimate == Cost(cost, blocks[..i]) <= limit
        invariant conversationText == InitialText(io.stamp, persona, blocks[..i])
      {
        var blockText := FormatConversation(io.stamp, persona, [blocks[i]]);
        var blockTokens := TextTokens(persona, blockText);
        assert cost(blocks[i]) == blockTokens;
        if tokenEstimate + blockTokens > limit {
          assert IsBudgetPrefix(cost, limit, blocks, i);
          break;
        }
        InitialStep(io.stamp, persona, blocks, i);
        conversationText := conversationText + blockText + "\n";
        tokenEstimate := tokenEstimate + blockTokens;
        i := i + 1;
      }
      assert IsBudgetPrefix(cost, limit, blocks, i);
    }

    /** `analyze`, with the persona's budget and batch processor and the
        memory as it stands. */
    method Analyze(io: Io, blocks: seq<Block>) returns (r: Result<map<string, Json>>)
      ensures r == AnalyzeSpec(io, persona, base.memory, blocks)
    {
      r := Reflections.Analyze(blocks, CostOf(io.stamp, persona), Limit(persona), Processor(io, persona, base.memory));
    }
  }
}
