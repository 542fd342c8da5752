/**
 The response loop of the command-line chat: what it appends to the transcript.

 Inputs of the loop that come from outside are parameters: the replies of the provider, the outcome
 of each tool call, the extraction of thinking blocks and the parsing of tool arguments. A list of
 replies that runs out stands for a loop that is still waiting.
 */
module ChatTranscript {
  import opened Prelude
  import opened ChatStream

  datatype Role = User | Assistant

  datatype Block =
    | TextBlock(text: string)
    | ThinkingBlock(thought: string)
    | ToolUse(useId: string, useName: string, arguments: string)
    | ToolResult(resultId: string, resultName: string, isError: bool, content: string)

  datatype Message = Message(role: Role, content: seq<Block>)

  datatype Reply =
    | Streamed(chunks: seq<Chunk>)
    | Whole(text: Option<string>, thinking: Option<string>, calls: Option<seq<ToolCall>>)

  /** What the world answers. */
  datatype Oracle = Oracle(
    extract: string -> (Option<string>, string),
    parseArguments: string -> string,
    runTool: (nat, nat, ToolCall) -> Result<string, string>)

  datatype Exit = Normal | UserInterrupt | Failed(error: string) | Waiting

  /** Text, thinking and tool calls of one reply. */
  datatype Turn = Turn(text: Option<string>, thinking: Option<string>, calls: Option<seq<ToolCall>>)

  // ----- one turn -----

  function CallsOf(tools: map<nat, ToolCall>): Option<seq<ToolCall>> {
    if tools == map[] then None
    else Some(seq(|Sorted(tools)|, k requires 0 <= k < |Sorted(tools)| => Sorted(tools)[k].1))
  }

  function StreamTurn(p: Partial, o: Oracle): Turn {
    if p.thinking == "" then
      var (thinking, clean) := o.extract(p.text);
      Turn(Some(clean), thinking, CallsOf(p.tools))
    else
      Turn(Some(p.text), Some(p.thinking), CallsOf(p.tools))
  }

  function TurnOf(reply: Reply, o: Oracle): Turn {
    match reply
    case Whole(text, thinking, calls) => Turn(text, thinking, calls)
    case Streamed(chunks) => StreamTurn(Fold(Consumed(chunks)), o)
  }

  /** How reading one reply ends; a reply that was not streamed is always complete. */
  function ReadEnd(reply: Reply): StreamEnd {
    if reply.Streamed? then HowItEnds(reply.chunks) else Completed
  }

  function TextOr(text: Option<string>): Block { TextBlock(if text.Some? then text.value else "") }

  /** The builder drops an empty thinking block. */
  function ThinkingOr(thinking: Option<string>): seq<Block> {
    if thinking.Some? && thinking.value != "" then [ThinkingBlock(thinking.value)] else []
  }

  function UseBlocks(calls: seq<ToolCall>, o: Oracle): (r: seq<Block>)
    ensures |r| == |calls|
  {
    seq(|calls|, i requires 0 <= i < |calls| =>
        ToolUse(calls[i].id, calls[i].name, o.parseArguments(calls[i].arguments)))
  }

  function ResultBlocks(calls: seq<ToolCall>, turn: nat, o: Oracle): (r: seq<Block>)
    ensures |r| == |calls|
  {
    seq(|calls|, i requires 0 <= i < |calls| =>
      match o.runTool(turn, i, calls[i])
      case Ok(content) => ToolResult(calls[i].id, calls[i].name, false, content)
      case Err(e) => ToolResult(calls[i].id, calls[i].name, true, e))
  }

  function AskMessage(t: Turn, o: Oracle): Message
    requires t.calls.Some?
  {
    Message(Assistant, [TextOr(t.text)] + UseBlocks(t.calls.value, o) + ThinkingOr(t.thinking))
  }

  function AnswerMessage(t: Turn, turn: nat, o: Oracle): Message
    requires t.calls.Some?
  {
    Message(User, ResultBlocks(t.calls.value, turn, o))
  }

  function LastMessage(t: Turn): Message {
    Message(Assistant, [TextOr(t.text)] + ThinkingOr(t.thinking))
  }

  // ----- the whole loop -----

  /** What the loop appends, and how it ends; `replies` are the provider's answers to the follow-up requests. */
  function Converse(current: Reply, replies: seq<Result<Reply, string>>, turn: nat, o: Oracle): (seq<Message>, Exit)
    decreases |replies|
  {
    if ReadEnd(current).Interrupted? then ([], UserInterrupt)
    else if ReadEnd(current).Broken? then ([], Failed(ReadEnd(current).error))
    else
      var t := TurnOf(current, o);
      if t.calls.None? then ([LastMessage(t)], Normal)
      else
        var exchange := [AskMessage(t, o), AnswerMessage(t, turn, o)];
        if replies == [] then (exchange, Waiting)
        else if replies[0].Err? then (exchange, Failed(replies[0].error))
        else
          var (rest, exit) := Converse(replies[0].value, replies[1..], turn + 1, o);
          (exchange + rest, exit)
  }

  /** What is still to be appended, with what has been appended already. */
  function After(done: seq<Message>, rest: (seq<Message>, Exit)): (seq<Message>, Exit) {
    (done + rest.0, rest.1)
  }

  lemma ConverseGoesOn(done: seq<Message>, current: Reply, replies: seq<Result<Reply, string>>, n: nat, o: Oracle)
    requires n < |replies| && replies[n].Ok?
    requires ReadEnd(current).Completed? && TurnOf(current, o).calls.Some?
    ensures After(done, Converse(current, replies[n..], n, o))
            == After(done + [AskMessage(TurnOf(current, o), o), AnswerMessage(TurnOf(current, o), n, o)],
                     Converse(replies[n].value, replies[n + 1..], n + 1, o))
  {
    var t := TurnOf(current, o);
    var exchange := [AskMessage(t, o), AnswerMessage(t, n, o)];
    var rest := Converse(replies[n].value, replies[n + 1..], n + 1, o);
    assert replies[n..][0] == replies[n] && replies[n..][1..] == replies[n + 1..];
    assert Converse(current, replies[n..], n, o) == (exchange + rest.0, rest.1);
    assert done + (exchange + rest.0) == (done + exchange) + rest.0;
  }

  class Conversation {
    var messages: seq<Message>

    /** Reads one reply to its end. */
    method ReadReply(reply: Reply, o: Oracle) returns (t: Turn, end: StreamEnd)
      ensures t == TurnOf(reply, o) && end == ReadEnd(reply)
    {
      match reply {
        case Whole(text, thinking, calls) =>
          t, end := Turn(text, thinking, calls), Completed;
        case Streamed(chunks) =>
          var p, e := ReadStream(chunks);
          t, end := StreamTurn(p, o), e;
      }
    }

    /** Appends the tool uses of one turn, runs the tools in order and appends their results. */
    method Exchange(t: Turn, turn: nat, o: Oracle)
      requires t.calls.Some?
      modifies this
      ensures messages == old(messages) + [AskMessage(t, o), AnswerMessage(t, turn, o)]
    {
      var calls := t.calls.value;
      var content := [TextOr(t.text)];
      for i := 0 to |calls|
        invariant content == [TextOr(t.text)] + UseBlocks(calls, o)[..i]
      {
        content := content + [ToolUse(calls[i].id, calls[i].name, o.parseArguments(calls[i].arguments))];
      }
      assert UseBlocks(calls, o)[..|calls|] == UseBlocks(calls, o);
      content := content + ThinkingOr(t.thinking);
      messages := messages + [Message(Assistant, content)];
      assert content == AskMessage(t, o).content;
      var results: seq<Block> := [];
      for i := 0 to |calls|
        invariant results == ResultBlocks(calls, turn, o)[..i]
        invariant messages == old(messages) + [AskMessage(t, o)]
      {
        match o.runTool(turn, i, calls[i]) {
          case Ok(text) => results := results + [ToolResult(calls[i].id, calls[i].name, false, text)];
          case Err(e) => results := results + [ToolResult(calls[i].id, calls[i].name, true, e)];
        }
      }
      assert results == AnswerMessage(t, turn, o).content;
      messages := messages + [Message(User, results)];
    }

    /** `handle_any_response`. */
    method HandleAnyResponse(initial: Reply, replies: seq<Result<Reply, string>>, o: Oracle) returns (exit: Exit)
      modifies this
      ensures (messages, exit) == After(old(messages), Converse(initial, replies, 0, o))
    {
      hide TurnOf, AskMessage, AnswerMessage, LastMessage, ReadEnd;
      var current := initial;
      var n := 0;
      while true
        invariant n <= |replies|
        invariant After(old(messages), Converse(initial, replies, 0, o))
            == After(messages, Converse(current, replies[n..], n, o))
        decreases |replies| - n
      {
        var t, end := ReadReply(current, o);
        assert messages + [] == messages;
        if end.Interrupted? {
          return UserInterrupt;
        }
        if end.Broken? {
          return Failed(end.error);
        }
        if t.calls.None? {
          messages := messages + [LastMessage(t)];
          return Normal;
        }
        if n < |replies| && replies[n].Ok? {
          ConverseGoesOn(messages, current, replies, n, o);
        }
        Exchange(t, n, o);
        if n == |replies| {
          return Waiting;
        }
        if replies[n].Err? {
          return Failed(replies[n].error);
        }
        current := replies[n].value;
        n := n + 1;
      }
    }
  }

  // ----- pairing -----

  /** The ids of the tool uses of a message, in order. */
  function UseIds(content: seq<Block>): seq<string> {
    if content == [] then []
    else (if content[0].ToolUse? then [content[0].useId] else []) + UseIds(content[1..])
  }

  function ResultIds(content: seq<Block>): seq<string> {
    if content == [] then []
    else (if content[0].ToolResult? then [content[0].resultId] else []) + ResultIds(content[1..])
  }

  /** Every assistant message with tool uses is followed at once by a user message with their results, id by id. */
  predicate Paired(messages: seq<Message>) {
    forall i :: 0 <= i < |messages| && messages[i].role.Assistant? && UseIds(messages[i].content) != [] ==>
      i + 1 < |messages| && messages[i + 1].role.User?
          && ResultIds(messages[i + 1].content) == UseIds(messages[i].content)
  }

  function Ids(calls: seq<ToolCall>): seq<string> {
    if calls == [] then [] else [calls[0].id] + Ids(calls[1..])
  }

  lemma {:induction false} UseIdsOfBlocks(calls: seq<ToolCall>, o: Oracle, t: Option<string>)
    ensures UseIds(UseBlocks(calls, o) + ThinkingOr(t)) == Ids(calls)
  {
    var content := UseBlocks(calls, o) + ThinkingOr(t);
    if calls == [] {
      assert content == ThinkingOr(t);
    } else {
      UseIdsOfBlocks(calls[1..], o, t);
      assert content[1..] == UseBlocks(calls[1..], o) + ThinkingOr(t);
    }
  }

  lemma AskIds(t: Turn, o: Oracle)
    requires t.calls.Some?
    ensures UseIds(AskMessage(t, o).content) == Ids(t.calls.value)
  {
    UseIdsOfBlocks(t.calls.value, o, t.thinking);
    var content := AskMessage(t, o).content;
    assert content[1..] == UseBlocks(t.calls.value, o) + ThinkingOr(t.thinking);
  }

  lemma {:induction false} ResultIdsFrom(calls: seq<ToolCall>, turn: nat, o: Oracle, n: nat)
    requires n <= |calls|
    ensures ResultIds(ResultBlocks(calls, turn, o)[n..]) == Ids(calls[n..])
    decreases |calls| - n
  {
    if n < |calls| {
      ResultIdsFrom(calls, turn, o, n + 1);
      var blocks := ResultBlocks(calls, turn, o);
      assert blocks[n..][0] == blocks[n] && blocks[n..][1..] == blocks[n + 1..];
      assert calls[n..][0] == calls[n] && calls[n..][1..] == calls[n + 1..];
    }
  }

  lemma PairedAppend(a: seq<Message>, b: seq<Message>)
    requires Paired(a) && Paired(b)
    ensures Paired(a + b)
  {
    var ab := a + b;
    forall i | 0 <= i < |ab| && ab[i].role.Assistant? && UseIds(ab[i].content) != []
      ensures i + 1 < |ab| && ab[i + 1].role.User? && ResultIds(ab[i + 1].content) == UseIds(ab[i].content)
    {
      if i < |a| {
        assert ab[i] == a[i] && ab[i + 1] == a[i + 1];
      } else {
        assert ab[i] == b[i - |a|] && ab[i + 1] == b[i - |a| + 1];
      }
    }
  }

  lemma ExchangePaired(t: Turn, turn: nat, o: Oracle)
    requires t.calls.Some?
    ensures Paired([AskMessage(t, o), AnswerMessage(t, turn, o)])
  {
    AskIds(t, o);
    ResultIdsFrom(t.calls.value, turn, o, 0);
    assert ResultBlocks(t.calls.value, turn, o)[0..] == ResultBlocks(t.calls.value, turn, o);
    assert t.calls.value[0..] == t.calls.value;
  }

  /** The transcript ends with an assistant message that asks for no tool. */
  predicate EndsToolFree(messages: seq<Message>) {
    messages != [] && messages[|messages| - 1].role.Assistant? && UseIds(messages[|messages| - 1].content) == []
  }

  lemma {:induction false} LastIsToolFree(t: Turn)
    ensures Paired([LastMessage(t)]) && EndsToolFree([LastMessage(t)])
  {
    var content, thought := LastMessage(t).content, ThinkingOr(t.thinking);
    assert UseIds(thought) == [];
    assert content[1..] == thought;
  }

  lemma NothingIsPaired()
    ensures Paired([])
  {
  }

  lemma EndsToolFreeAppend(a: seq<Message>, b: seq<Message>)
    requires EndsToolFree(b)
    ensures EndsToolFree(a + b)
  {
    assert (a + b)[|a + b| - 1] == b[|b| - 1];
  }

  /**
   What the loop appends keeps tool uses and results paired however it ends; a normal end is a
   tool-free assistant message.
   */
  lemma {:induction false} ConversePaired(current: Reply, replies: seq<Result<Reply, string>>, turn: nat, o: Oracle)
    ensures Paired(Converse(current, replies, turn, o).0)
    ensures Converse(current, replies, turn, o).1.Normal? ==> EndsToolFree(Converse(current, replies, turn, o).0)
    decreases |replies|
  {
    hide Paired, EndsToolFree;
    var t := TurnOf(current, o);
    if !ReadEnd(current).Completed? {
      NothingIsPaired();
      assert Converse(current, replies, turn, o).0 == [];
    } else if t.calls.None? {
      LastIsToolFree(t);
      assert Converse(current, replies, turn, o) == ([LastMessage(t)], Normal);
    } else if replies == [] || replies[0].Err? {
      ExchangePaired(t, turn, o);
    } else {
      var exchange := [AskMessage(t, o), AnswerMessage(t, turn, o)];
      var (rest, exit) := Converse(replies[0].value, replies[1..], turn + 1, o);
      assert Converse(current, replies, turn, o) == (exchange + rest, exit);
      hide Converse;
      ExchangePaired(t, turn, o);
      ConversePaired(replies[0].value, replies[1..], turn + 1, o);
      PairedAppend(exchange, rest);
      if exit.Normal? {
        EndsToolFreeAppend(exchange, rest);
      }
    }
  }

  /** Pairing that held before the loop holds after it, on every exit. */
  lemma PairingIsKept(messages: seq<Message>, initial: Reply, replies: seq<Result<Reply, string>>, o: Oracle)
    requires Paired(messages)
    ensures var (all, exit) := After(messages, Converse(initial, replies, 0, o));
            Paired(all) && (exit.Normal? ==> EndsToolFree(all))
  {
    ConversePaired(initial, replies, 0, o);
    hide Paired, EndsToolFree, Converse;
    var (added, exit) := Converse(initial, replies, 0, o);
    PairedAppend(messages, added);
    if exit.Normal? {
      EndsToolFreeAppend(messages, added);
    }
  }
}
