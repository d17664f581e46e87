/** utils/stack_manager.py: keeping the messages of the last seven days.
    Times are whole milliseconds since the epoch; the reference moment is a
    parameter (the source reads the clock when the caller gives none). */
module StackManager {
  import opened Shared

  /** `timedelta(days=7)` in milliseconds. */
  const OneWeekMs: int := 7 * 24 * 60 * 60 * 1000

  /** A message at or after `one_week_ago = reference_date - timedelta(days=7)`. */
  predicate WithinLastWeek(m: Message, referenceMs: int) {
    m.timestampMs >= referenceMs - OneWeekMs
  }

  /** `filter_last_week_messages`: the comprehension over `messages`, in order. */
  function FilterLastWeek(messages: seq<Message>, referenceMs: int): (kept: seq<Message>)
    ensures |kept| <= |messages|
    ensures forall m :: m in kept ==> m in messages && WithinLastWeek(m, referenceMs)
  {
    if messages == [] then []
    else
      var rest := FilterLastWeek(messages[1..], referenceMs);
      if WithinLastWeek(messages[0], referenceMs) then [messages[0]] + rest else rest
  }

  /** The result is the input with the older messages left out: an ordered
      selection of unaltered messages, holding every message of the last
      week as many times as the input does. */
  lemma {:induction false} FilterLastWeekSpec(messages: seq<Message>, referenceMs: int)
    ensures var kept := FilterLastWeek(messages, referenceMs);
      && SubsequenceOf(kept, messages)
      && (forall m :: m in kept <==> m in messages && WithinLastWeek(m, referenceMs))
      && (forall m :: multiset(kept)[m] == if WithinLastWeek(m, referenceMs) then multiset(messages)[m] else 0)
  {
    FilterLastWeekCounts(messages, referenceMs);
    if messages != [] {
      FilterLastWeekSpec(messages[1..], referenceMs);
      var rest := FilterLastWeek(messages[1..], referenceMs);
      var kept := FilterLastWeek(messages, referenceMs);
      if WithinLastWeek(messages[0], referenceMs) {
        assert kept[1..] == rest;
      } else if kept != [] {
        assert SubsequenceOf(kept, messages[1..]);
      }
      forall i | 0 <= i < |messages| && WithinLastWeek(messages[i], referenceMs)
        ensures messages[i] in kept
      {
        if i > 0 {
          assert messages[i] == messages[1..][i - 1];
        }
      }
    }
  }

  /** Each recent message is kept as often as it occurs; older ones not at all. */
  lemma {:induction false} FilterLastWeekCounts(messages: seq<Message>, referenceMs: int)
    ensures forall m :: multiset(FilterLastWeek(messages, referenceMs))[m]
                        == if WithinLastWeek(m, referenceMs) then multiset(messages)[m] else 0
  {
    if messages != [] {
      FilterLastWeekCounts(messages[1..], referenceMs);
      HeadTail(messages);
    }
  }

  /** The result is the whole input, unchanged, exactly when no message is
      older than a week. */
  lemma {:induction false} FilterLastWeekKeepsAllRecent(messages: seq<Message>, referenceMs: int)
    ensures (forall m :: m in messages ==> WithinLastWeek(m, referenceMs))
            <==> FilterLastWeek(messages, referenceMs) == messages
  {
    if messages != [] {
      FilterLastWeekKeepsAllRecent(messages[1..], referenceMs);
      var rest := FilterLastWeek(messages[1..], referenceMs);
      if !WithinLastWeek(messages[0], referenceMs) {
        assert |rest| <= |messages[1..]|;
      } else if (forall m :: m in messages[1..] ==> WithinLastWeek(m, referenceMs)) {
        HeadTail(messages);
      } else {
        var m :| m in messages[1..] && !WithinLastWeek(m, referenceMs);
        assert m in messages;
      }
    }
  }

  /** Filtering twice with the same reference changes nothing more. */
  lemma FilterLastWeekIdempotent(messages: seq<Message>, referenceMs: int)
    ensures FilterLastWeek(FilterLastWeek(messages, referenceMs), referenceMs) == FilterLastWeek(messages, referenceMs)
  {
    FilterLastWeekKeepsAllRecent(FilterLastWeek(messages, referenceMs), referenceMs);
  }

  /** A later reference keeps no more: everything it keeps, an earlier one keeps too. */
  lemma FilterLastWeekMonotone(messages: seq<Message>, earlierMs: int, laterMs: int)
    requires earlierMs <= laterMs
    ensures forall m :: m in FilterLastWeek(messages, laterMs) ==> m in FilterLastWeek(messages, earlierMs)
  {
    FilterLastWeekSpec(messages, earlierMs);
  }
}
