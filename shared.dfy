/** Values shared by every part of the pipeline: optional and failing results,
    the JSON values the pipeline parses and stores, chat messages and
    interaction blocks, and the collaborators the pipeline only calls
    (clock formatting, the model endpoint, the JSON parser). */
module Shared {

  datatype Option<+T> = None | Some(value: T)

  /** The Python exceptions the modelled code raises or catches. */
  datatype Exc = AttributeError | TypeError | KeyError | ValueError | JsonDecodeError

  /** The outcome of a Python call: a value, or an exception that escaped it. */
  datatype Result<+T> = Ok(value: T) | Raise(exc: Exc)

  /** A value as `json.loads` produces it. Numbers are integers here (see
      README, "Left out"); objects are unordered maps from key to value. */
  datatype Json =
    | JNull
    | JBool(b: bool)
    | JNum(n: int)
    | JStr(s: string)
    | JArr(items: seq<Json>)
    | JObj(fields: map<string, Json>)

  /** Python truthiness of a JSON value: empty containers, "", 0, False and None are false. */
  predicate Truthy(v: Json) {
    match v
    case JNull => false
    case JBool(b) => b
    case JNum(n) => n != 0
    case JStr(s) => s != ""
    case JArr(xs) => xs != []
    case JObj(m) => m != map[]
  }

  /** `d.get(key, default)` on a dict. */
  function Get(d: map<string, Json>, key: string, default: Json): (r: Json)
    ensures key in d ==> r == d[key]
    ensures key !in d ==> r == default
  {
    if key in d then d[key] else default
  }

  /** Values Python can put in a set: everything but lists and dicts. */
  predicate Hashable(v: Json) {
    !v.JArr? && !v.JObj?
  }

  /** A non-empty sequence is its head followed by its tail. */
  lemma HeadTail<T>(s: seq<T>)
    requires s != []
    ensures s == [s[0]] + s[1..]
  {
  }

  /** A sequence is its prefix up to i followed by the rest. */
  lemma SplitAt<T>(s: seq<T>, i: nat)
    requires i <= |s|
    ensures s == s[..i] + s[i..]
  {
  }

  lemma AppendAssoc<T>(a: seq<T>, b: seq<T>, c: seq<T>)
    ensures a + (b + c) == (a + b) + c
  {
  }

  /** `u` is `xs` with some elements left out, the others in their order. */
  predicate SubsequenceOf<T(==)>(u: seq<T>, xs: seq<T>) {
    if u == [] then true
    else if xs == [] then false
    else (u[0] == xs[0] && SubsequenceOf(u[1..], xs[1..])) || SubsequenceOf(u, xs[1..])
  }

  lemma {:induction false} SubsequenceOfSelf<T>(xs: seq<T>)
    ensures SubsequenceOf(xs, xs)
  {
    if xs != [] {
      SubsequenceOfSelf(xs[1..]);
    }
  }

  /** One message of the merged conversation export: `sender_name`,
      `timestamp_ms` and an optional `content` (absent key = None). */
  datatype Message = Message(senderName: string, timestampMs: int, content: Option<string>)

  /** `msg.get("content", "")`. */
  function ContentOrEmpty(m: Message): string {
    match m.content
    case Some(c) => c
    case None => ""
  }

  /** One side of an interaction block as main.py builds it. */
  datatype Turn = Turn(sender: string, timestampMs: int, message: string)

  /** An interaction block: a message and the reply of the other sender. */
  datatype Block = Block(input: Turn, response: Turn)

  /** Whose prompt is being built: RuiAI's or MariaAI's. */
  datatype Persona = RuiPersona | MariaPersona

  /** The parts of the program the model only calls, never inspects:
      - stamp: `datetime.fromtimestamp(ms / 1000).strftime("%Y-%m-%d %H:%M:%S")`;
      - complete: the text the model endpoint returns for a prompt
        (`_call_model_api`, which already turns HTTP failures into "{}");
      - parse: `json.loads`, None when it raises JSONDecodeError;
      - batchPrompt / profilePrompt / relationalPrompt: the f-string prompts. */
  datatype Io = Io(
    stamp: int -> string,
    complete: string -> string,
    parse: string -> Option<Json>,
    batchPrompt: (Persona, Json, string) -> string,
    profilePrompt: (Persona, string) -> string,
    relationalPrompt: (map<string, Json>, map<string, Json>, Json, Json) -> string)
}
