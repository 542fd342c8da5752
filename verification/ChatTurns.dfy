/** What the chat loop makes of the chunks of a reply, and what the transcript holds turn by turn. */
module ChatTurns {
  import opened Prelude
  import opened ChatStream
  import opened ChatTranscript

  // ----- one streamed reply -----

  /** Which chunks of a stream count, and how it ends: before the first end, interruption or error. */
  lemma StreamEndExact(chunks: seq<Chunk>)
    ensures var n := |Consumed(chunks)|;
            && n <= |chunks| && Consumed(chunks) == chunks[..n]
            && (forall i :: 0 <= i < n ==> !chunks[i].Done? && !chunks[i].Interrupt? && !chunks[i].Fail?)
            && (n < |chunks| ==> chunks[n].Done? || chunks[n].Interrupt? || chunks[n].Fail?)
            && HowItEnds(chunks) == if n == |chunks| || chunks[n].Done? then Completed
                                    else if chunks[n].Interrupt? then Interrupted
                                    else Broken(chunks[n].error)
  {
    var r := Consumed(chunks);
    assert forall i :: 0 <= i < |r| ==> r[i] == chunks[i] && !r[i].EndsStream();
    assert |r| < |chunks| ==> chunks[|r|].EndsStream();
    hide Consumed;
  }

  /** The call that the chunks of one index build up to. */
  function CallAt(chunks: seq<Chunk>, index: nat): Option<ToolCall> { CallOf(ToolChunks(chunks, index)) }

  predicate Ascending(indices: seq<nat>) { forall k, l :: 0 <= k < l < |indices| ==> indices[k] < indices[l] }

  /** `calls` are the calls of strictly increasing indices, one for every index that has a call. */
  ghost predicate CallsInOrder(chunks: seq<Chunk>, indices: seq<nat>, calls: seq<ToolCall>) {
    && Ascending(indices) && |calls| == |indices|
    && (forall k :: 0 <= k < |indices| ==> CallAt(chunks, indices[k]) == Some(calls[k]))
    && (forall i: nat :: CallAt(chunks, i).Some? ==> i in indices)
  }

  lemma SortedCalls(chunks: seq<Chunk>) returns (indices: seq<nat>)
    requires Fold(chunks).tools != map[]
    ensures CallsOf(Fold(chunks).tools).Some?
    ensures CallsInOrder(chunks, indices, CallsOf(Fold(chunks).tools).value) && indices != []
  {
    CallsAreOrderedFolds(chunks);
    var sorted := Sorted(Fold(chunks).tools);
    SortedExact(Fold(chunks).tools);
    hide Sorted, Fold, CallOf, ToolChunks;
    indices := seq(|sorted|, k requires 0 <= k < |sorted| => sorted[k].0);
    forall i: nat | CallAt(chunks, i).Some?
      ensures i in indices
    {
      var k :| 0 <= k < |sorted| && sorted[k] == (i, CallAt(chunks, i).value);
      assert indices[k] == i;
    }
  }

  lemma NoCalls(chunks: seq<Chunk>, i: nat)
    requires Fold(chunks).tools == map[]
    ensures CallAt(chunks, i).None?
  {
    FoldParts(chunks, i);
  }

  /**
   The turn of a streamed reply: its calls, strictly by index and each built from its own chunks, none exactly
   when no index has one; its text and thinking as streamed, or extracted from the text exactly when no thinking
   was streamed.
   */
  lemma TurnExact(chunks: seq<Chunk>, o: Oracle) returns (indices: seq<nat>)
    ensures var t, consumed := TurnOf(Streamed(chunks), o), Consumed(chunks);
            && (t.calls.None? <==> forall i: nat :: CallAt(consumed, i).None?)
            && (t.calls.Some? ==> CallsInOrder(consumed, indices, t.calls.value))
            && (AllThinking(consumed) != "" ==>
                  t.text == Some(AllText(consumed)) && t.thinking == Some(AllThinking(consumed)))
            && (AllThinking(consumed) == "" ==>
                  t.text == Some(o.extract(AllText(consumed)).1) && t.thinking == o.extract(AllText(consumed)).0)
  {
    var consumed := Consumed(chunks);
    FoldParts(consumed, 0);
    indices := [];
    if Fold(consumed).tools == map[] {
      forall i: nat
        ensures CallAt(consumed, i).None?
      {
        NoCalls(consumed, i);
      }
      assert TurnOf(Streamed(chunks), o).calls.None?;
      assert forall i: nat :: CallAt(consumed, i).None?;
    } else {
      indices := SortedCalls(consumed);
      assert !CallAt(consumed, indices[0]).None?;
      assert TurnOf(Streamed(chunks), o).calls.Some?;
      assert !(forall i: nat :: CallAt(consumed, i).None?);
    }
  }

  // ----- the whole transcript -----

  /** Reply k of a conversation: the first one, then the provider's answers. */
  function ReplyAt(initial: Reply, replies: seq<Result<Reply, string>>, k: nat): Option<Reply> {
    if k == 0 then Some(initial)
    else if k <= |replies| && replies[k - 1].Ok? then Some(replies[k - 1].value)
    else None
  }

  /** An assistant message: the text, the tool uses in order with their parsed arguments, then any thinking. */
  predicate Asks(m: Message, t: Turn, o: Oracle) {
    && t.calls.Some? && m.role.Assistant?
    && var calls := t.calls.value;
    && |m.content| == 1 + |calls| + (if t.thinking.Some? && t.thinking.value != "" then 1 else 0)
    && m.content[0] == TextBlock(if t.text.Some? then t.text.value else "")
    && (forall i :: 0 <= i < |calls| ==>
          m.content[1 + i] == ToolUse(calls[i].id, calls[i].name, o.parseArguments(calls[i].arguments)))
    && (t.thinking.Some? && t.thinking.value != "" ==> m.content[1 + |calls|] == ThinkingBlock(t.thinking.value))
  }

  /** The user message behind it: what each tool came to, in the same order, with failures marked. */
  predicate Answers(m: Message, t: Turn, turn: nat, o: Oracle) {
    && t.calls.Some? && m.role.User?
    && var calls := t.calls.value;
    && |m.content| == |calls|
    && (forall i :: 0 <= i < |calls| ==>
          && m.content[i].ToolResult?
          && m.content[i].resultId == calls[i].id && m.content[i].resultName == calls[i].name
          && m.content[i].isError == o.runTool(turn, i, calls[i]).Err?
          && m.content[i].content == match o.runTool(turn, i, calls[i]) case Ok(text) => text case Err(e) => e)
  }

  /** The last message: text and any thinking. */
  predicate Concludes(m: Message, t: Turn) {
    && t.calls.None? && m.role.Assistant?
    && m.content == [TextBlock(if t.text.Some? then t.text.value else "")]
                    + if t.thinking.Some? && t.thinking.value != "" then [ThinkingBlock(t.thinking.value)] else []
  }

  /** Exchange k of what was appended belongs to reply k, which was read to its end and asked for tools. */
  predicate ExchangeAt(initial: Reply, replies: seq<Result<Reply, string>>, from: nat, k: nat, added: seq<Message>,
      o: Oracle)
  {
    && ReplyAt(initial, replies, k).Some? && 2 * k + 1 < |added|
    && var reply := ReplyAt(initial, replies, k).value;
    && ReadEnd(reply).Completed?
    && Asks(added[2 * k], TurnOf(reply, o), o) && Answers(added[2 * k + 1], TurnOf(reply, o), from + k, o)
  }

  /** How the loop ends after n exchanges, and whether a last message was appended. */
  predicate EndsAfter(initial: Reply, replies: seq<Result<Reply, string>>, n: nat, added: seq<Message>, exit: Exit,
      o: Oracle)
  {
    match ReplyAt(initial, replies, n)
    case Some(reply) =>
      (match ReadEnd(reply)
       case Completed => |added| == 2 * n + 1 && exit == Normal && Concludes(added[2 * n], TurnOf(reply, o))
       case Interrupted => |added| == 2 * n && exit == UserInterrupt
       case Broken(e) => |added| == 2 * n && exit == Failed(e))
    case None =>
      && |added| == 2 * n
      && n > 0 && exit == if n <= |replies| then Failed(if replies[n - 1].Err? then replies[n - 1].error else "")
                          else Waiting
  }

  lemma ExchangeIsRight(t: Turn, turn: nat, o: Oracle)
    requires t.calls.Some?
    ensures Asks(AskMessage(t, o), t, o) && Answers(AnswerMessage(t, turn, o), t, turn, o)
  {
    var calls, content := t.calls.value, AskMessage(t, o).content;
    assert forall i :: 0 <= i < |calls| ==> content[1 + i] == UseBlocks(calls, o)[i];
    assert forall i :: 0 <= i < |calls| ==> AnswerMessage(t, turn, o).content[i] == ResultBlocks(calls, turn, o)[i];
  }

  lemma {:induction false} ConverseExact(current: Reply, replies: seq<Result<Reply, string>>, from: nat, o: Oracle)
    returns (n: nat)
    ensures var (added, exit) := Converse(current, replies, from, o);
            && (forall k :: 0 <= k < n ==> ExchangeAt(current, replies, from, k, added, o))
            && EndsAfter(current, replies, n, added, exit, o)
    decreases |replies|
  {
    var (added, exit) := Converse(current, replies, from, o);
    var t := TurnOf(current, o);
    hide TurnOf, ReadEnd, Asks, Answers, AskMessage, AnswerMessage;
    if !ReadEnd(current).Completed? || t.calls.None? {
      n := 0;
    } else {
      ExchangeIsRight(t, from, o);
      assert ExchangeAt(current, replies, from, 0, added, o);
      if replies == [] || replies[0].Err? {
        n := 1;
      } else {
        var m := ConverseExact(replies[0].value, replies[1..], from + 1, o);
        n := m + 1;
        var rest := Converse(replies[0].value, replies[1..], from + 1, o).0;
        assert added == [AskMessage(t, o), AnswerMessage(t, from, o)] + rest;
        hide Converse;
        LaterExchanges(current, replies, from, m, added, rest, o);
        LaterEnd(current, replies, m, added, rest, exit, o);
      }
    }
  }

  predicate LaterExchange(replies: seq<Result<Reply, string>>, from: nat, k: nat, rest: seq<Message>, o: Oracle)
    requires replies != [] && replies[0].Ok?
  {
    ExchangeAt(replies[0].value, replies[1..], from + 1, k, rest, o)
  }

  lemma LaterExchanges(current: Reply, replies: seq<Result<Reply, string>>, from: nat, m: nat, added: seq<Message>,
      rest: seq<Message>, o: Oracle)
    requires replies != [] && replies[0].Ok? && |added| == 2 + |rest| && added[2..] == rest
    requires ExchangeAt(current, replies, from, 0, added, o)
    requires forall k :: 0 <= k < m ==> LaterExchange(replies, from, k, rest, o)
    ensures forall k :: 0 <= k < m + 1 ==> ExchangeAt(current, replies, from, k, added, o)
  {
    hide TurnOf, ReadEnd, Asks, Answers;
    forall k | 0 < k < m + 1
      ensures ExchangeAt(current, replies, from, k, added, o)
    {
      assert LaterExchange(replies, from, k - 1, rest, o);
      assert added[2 * k] == rest[2 * (k - 1)] && added[2 * k + 1] == rest[2 * (k - 1) + 1];
      assert ReplyAt(current, replies, k) == ReplyAt(replies[0].value, replies[1..], k - 1);
    }
  }

  lemma LaterEnd(current: Reply, replies: seq<Result<Reply, string>>, m: nat, added: seq<Message>,
      rest: seq<Message>, exit: Exit, o: Oracle)
    requires replies != [] && replies[0].Ok? && |added| == 2 + |rest| && added[2..] == rest
    requires EndsAfter(replies[0].value, replies[1..], m, rest, exit, o)
    ensures EndsAfter(current, replies, m + 1, added, exit, o)
  {
    hide TurnOf, ReadEnd, Concludes;
    assert ReplyAt(current, replies, m + 1) == ReplyAt(replies[0].value, replies[1..], m);
    assert |rest| == 2 * m + 1 ==> added[2 * (m + 1)] == rest[2 * m];
  }

  /**
   What the loop appends, message by message: n exchanges of the first n replies, each an assistant message with
   the text, the tool uses and the thinking of that reply and a user message with the outcome of each tool, and
   then what reply n brings: a last message, an interruption, an error, or nothing yet.
   */
  lemma TranscriptExact(messages: seq<Message>, initial: Reply, replies: seq<Result<Reply, string>>, o: Oracle)
    returns (n: nat)
    ensures var (all, exit) := After(messages, Converse(initial, replies, 0, o));
            && messages <= all
            && var added := all[|messages|..];
            && (forall k :: 0 <= k < n ==> ExchangeAt(initial, replies, 0, k, added, o))
            && EndsAfter(initial, replies, n, added, exit, o)
  {
    n := ConverseExact(initial, replies, 0, o);
    var added := Converse(initial, replies, 0, o).0;
    assert (messages + added)[|messages|..] == added;
    hide Converse, ExchangeAt, EndsAfter;
  }
}
