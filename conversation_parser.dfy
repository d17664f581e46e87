/** utils/conversation_parser.py: the copy of `create_interaction_blocks`
    whose blocks carry only the sender and the message of each side. */
module ConversationParser {
  import opened Shared
  import opened Pairing
  import MainScript

  /** `{"sender": ..., "message": ...}`. */
  datatype Speech = Speech(sender: string, message: string)

  /** `{"input": ..., "response": ...}`. */
  datatype ChatBlock = ChatBlock(input: Speech, response: Speech)

  function SpeechOf(m: Message): Speech {
    Speech(m.senderName, ContentOrEmpty(m))
  }

  /** The block made of message i and message i + 1. */
  function ChatBlockAt(messages: seq<Message>, i: nat): ChatBlock
    requires i + 1 < |messages|
  {
    ChatBlock(SpeechOf(messages[i]), SpeechOf(messages[i + 1]))
  }

  /** The blocks the parser returns: one per index at which the sender
      changes, in index order. */
  function ChatBlocks(messages: seq<Message>): seq<ChatBlock> {
    ChatBlocksAt(messages, PairIndices(MainScript.Senders(messages)))
  }

  /** The blocks at the listed indices, in list order. */
  function ChatBlocksAt(messages: seq<Message>, ix: seq<nat>): seq<ChatBlock>
    requires forall a :: 0 <= a < |ix| ==> ix[a] + 1 < |messages|
  {
    seq(|ix|, j requires 0 <= j < |ix| => ChatBlockAt(messages, ix[j]))
  }

  lemma ChatBlocksAtSnoc(messages: seq<Message>, ix: seq<nat>, i: nat)
    requires forall a :: 0 <= a < |ix| ==> ix[a] + 1 < |messages|
    requires i + 1 < |messages|
    ensures ChatBlocksAt(messages, ix + [i]) == ChatBlocksAt(messages, ix) + [ChatBlockAt(messages, i)]
  {
  }

  /** `create_interaction_blocks`: `for i in range(len(messages) - 1)`,
      appending a block when the two senders differ. */
  method CreateInteractionBlocks(messages: seq<Message>) returns (blocks: seq<ChatBlock>)
    ensures blocks == ChatBlocks(messages)
  {
    ghost var senders := MainScript.Senders(messages);
    var n := if |messages| == 0 then 0 else |messages| - 1;
    blocks := [];
    var i := 0;
    while i < n
      invariant 0 <= i <= n
      invariant blocks == ChatBlocksAt(messages, PairIndicesBelow(senders, i))
    {
      if messages[i].senderName != messages[i + 1].senderName {
        ChatBlocksAtSnoc(messages, PairIndicesBelow(senders, i), i);
        blocks := blocks + [ChatBlockAt(messages, i)];
      }
      i := i + 1;
    }
  }

  /** A block is emitted for index i exactly when the senders of message i
      and message i + 1 differ, its sides are those two messages (missing
      content read as ""), the blocks follow the index order and there are
      at most |messages| - 1 of them. */
  lemma ChatBlocksSpec(messages: seq<Message>)
    ensures var blocks := ChatBlocks(messages);
      && (forall i :: 0 <= i && i + 1 < |messages| && messages[i].senderName != messages[i + 1].senderName ==>
            ChatBlockAt(messages, i) in blocks)
      && (forall b :: b in blocks ==>
            exists i :: (0 <= i && i + 1 < |messages| && ChatBlockAt(messages, i) == b
                         && messages[i].senderName != messages[i + 1].senderName))
      && |blocks| <= if |messages| == 0 then 0 else |messages| - 1
  {
    var senders := MainScript.Senders(messages);
    var ix := PairIndices(senders);
    var blocks := ChatBlocks(messages);
    PairIndicesSpec(senders);
    forall i | 0 <= i && i + 1 < |messages| && messages[i].senderName != messages[i + 1].senderName
      ensures ChatBlockAt(messages, i) in blocks
    {
      assert senders[i] != senders[i + 1];
      var j :| 0 <= j < |ix| && ix[j] == i;
      assert blocks[j] == ChatBlockAt(messages, i);
    }
    forall b | b in blocks
      ensures exists i :: (0 <= i && i + 1 < |messages| && ChatBlockAt(messages, i) == b
                           && messages[i].senderName != messages[i + 1].senderName)
    {
      var j :| 0 <= j < |blocks| && blocks[j] == b;
      assert ix[j] in ix;
    }
  }

  /** A conversation of fewer than two messages gives no block. */
  lemma ChatBlocksOfShort(messages: seq<Message>)
    requires |messages| < 2
    ensures ChatBlocks(messages) == []
  {
    PairIndicesOfShort(MainScript.Senders(messages));
  }

  /** The two copies agree: the parser's blocks are main.py's blocks with
      the timestamps dropped, one for one and in the same order. */
  lemma ChatBlocksForgetTimestamps(messages: seq<Message>)
    ensures var blocks := ChatBlocks(messages);
      var full := MainScript.InteractionBlocks(messages);
      && |blocks| == |full|
      && forall j :: 0 <= j < |blocks| ==>
           && blocks[j].input == Speech(full[j].input.sender, full[j].input.message)
           && blocks[j].response == Speech(full[j].response.sender, full[j].response.message)
  {
  }
}
