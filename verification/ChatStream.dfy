/** Assembling a streamed reply out of its chunks. */
module ChatStream {
  import opened Prelude

  /** `Interrupt` is Ctrl-C winning the race against the next chunk; `Fail` is an error in the stream. */
  datatype Chunk =
    | Text(text: string)
    | Thinking(thought: string)
    | ThinkingSignature(signature: string)
    | ToolStart(index: nat, id: string, name: string)
    | ToolDelta(index: nat, json: string)
    | ToolComplete(index: nat, id: string, name: string, arguments: string)
    | Usage(input: nat, output: nat)
    | Done
    | Interrupt
    | Fail(error: string)
  {
    predicate EndsStream() { Done? || Interrupt? || Fail? }
    predicate IsTool() { ToolStart? || ToolDelta? || ToolComplete? }
  }

  datatype ToolCall = ToolCall(id: string, name: string, arguments: string)

  datatype Partial = Partial(text: string, thinking: string, tools: map<nat, ToolCall>)

  datatype StreamEnd = Completed | Interrupted | Broken(error: string)

  // ----- the loop -----

  function Absorb(p: Partial, c: Chunk): Partial {
    match c
    case Text(t) => p.(text := p.text + t)
    case Thinking(t) => p.(thinking := p.thinking + t)
    case ToolStart(i, id, name) => p.(tools := p.tools[i := ToolCall(id, name, "")])
    case ToolDelta(i, json) =>
      if i in p.tools then p.(tools := p.tools[i := p.tools[i].(arguments := p.tools[i].arguments + json)]) else p
    case ToolComplete(i, id, name, arguments) => p.(tools := p.tools[i := ToolCall(id, name, arguments)])
    case _ => p
  }

  function Fold(chunks: seq<Chunk>): Partial {
    if chunks == [] then Partial("", "", map[]) else Absorb(Fold(chunks[..|chunks| - 1]), chunks[|chunks| - 1])
  }

  /** The chunks the loop consumes: those before the one that ends the stream. */
  function Consumed(chunks: seq<Chunk>): (r: seq<Chunk>)
    ensures r <= chunks && (forall i :: 0 <= i < |r| ==> !r[i].EndsStream())
    ensures |r| < |chunks| ==> chunks[|r|].EndsStream()
  {
    if chunks == [] || chunks[0].EndsStream() then [] else [chunks[0]] + Consumed(chunks[1..])
  }

  function HowItEnds(chunks: seq<Chunk>): StreamEnd {
    var n := |Consumed(chunks)|;
    if n == |chunks| || chunks[n].Done? then Completed
    else if chunks[n].Interrupt? then Interrupted
    else Broken(chunks[n].error)
  }

  lemma ConsumedAt(chunks: seq<Chunk>, n: nat)
    requires n <= |chunks| && (forall i :: 0 <= i < n ==> !chunks[i].EndsStream())
    requires n < |chunks| ==> chunks[n].EndsStream()
    ensures Consumed(chunks) == chunks[..n]
  {
  }

  /** The inner loop of `handle_any_response`. */
  method ReadStream(chunks: seq<Chunk>) returns (p: Partial, end: StreamEnd)
    ensures p == Fold(Consumed(chunks)) && end == HowItEnds(chunks)
  {
    var fullText, thinkingText := "", "";
    var tools: map<nat, ToolCall> := map[];
    var i := 0;
    while i < |chunks| && !chunks[i].EndsStream()
      invariant i <= |chunks| && (forall k :: 0 <= k < i ==> !chunks[k].EndsStream())
      invariant Partial(fullText, thinkingText, tools) == Fold(chunks[..i])
    {
      assert chunks[..i + 1][..i] == chunks[..i];
      match chunks[i] {
        case Text(t) => fullText := fullText + t;
        case Thinking(t) => thinkingText := thinkingText + t;
        case ToolStart(index, id, name) => tools := tools[index := ToolCall(id, name, "")];
        case ToolDelta(index, json) =>
          if index in tools {
            tools := tools[index := tools[index].(arguments := tools[index].arguments + json)];
          }
        case ToolComplete(index, id, name, arguments) => tools := tools[index := ToolCall(id, name, arguments)];
        case _ =>
      }
      i := i + 1;
    }
    ConsumedAt(chunks, i);
    p := Partial(fullText, thinkingText, tools);
    end := if i == |chunks| || chunks[i].Done? then Completed
           else if chunks[i].Interrupt? then Interrupted
           else Broken(chunks[i].error);
  }

  // ----- only the subsequences matter -----

  function AllText(chunks: seq<Chunk>): string {
    if chunks == [] then ""
    else AllText(chunks[..|chunks| - 1]) + if chunks[|chunks| - 1].Text? then chunks[|chunks| - 1].text else ""
  }

  function AllThinking(chunks: seq<Chunk>): string {
    if chunks == [] then ""
    else
      AllThinking(chunks[..|chunks| - 1])
      + if chunks[|chunks| - 1].Thinking? then chunks[|chunks| - 1].thought else ""
  }

  /** The tool chunks of one index, in order. */
  function ToolChunks(chunks: seq<Chunk>, index: nat): seq<Chunk> {
    if chunks == [] then []
    else
      var front, last := ToolChunks(chunks[..|chunks| - 1], index), chunks[|chunks| - 1];
      if last.IsTool() && last.index == index then front + [last] else front
  }

  /** What the chunks of one index alone build up to. */
  function CallOf(chunks: seq<Chunk>): Option<ToolCall> {
    if chunks == [] then None
    else
      var before := CallOf(chunks[..|chunks| - 1]);
      match chunks[|chunks| - 1]
      case ToolStart(_, id, name) => Some(ToolCall(id, name, ""))
      case ToolDelta(_, json) =>
        if before.Some? then Some(before.value.(arguments := before.value.arguments + json)) else None
      case ToolComplete(_, id, name, arguments) => Some(ToolCall(id, name, arguments))
      case _ => before
  }

  function Slot(p: Partial, index: nat): Option<ToolCall> {
    if index in p.tools then Some(p.tools[index]) else None
  }

  lemma AbsorbPart(p: Partial, c: Chunk, index: nat, own: seq<Chunk>)
    requires Slot(p, index) == CallOf(own)
    ensures Slot(Absorb(p, c), index) == CallOf(if c.IsTool() && c.index == index then own + [c] else own)
    ensures Absorb(p, c).text == p.text + if c.Text? then c.text else ""
    ensures Absorb(p, c).thinking == p.thinking + if c.Thinking? then c.thought else ""
  {
    SnocFront(own, c);
  }

  lemma {:induction false} FoldParts(chunks: seq<Chunk>, index: nat)
    ensures Fold(chunks).text == AllText(chunks) && Fold(chunks).thinking == AllThinking(chunks)
    ensures Slot(Fold(chunks), index) == CallOf(ToolChunks(chunks, index))
  {
    if chunks != [] {
      var front, last := chunks[..|chunks| - 1], chunks[|chunks| - 1];
      FoldParts(front, index);
      hide Absorb, CallOf;
      AbsorbPart(Fold(front), last, index, ToolChunks(front, index));
    }
  }

  /**
   Two streams with the same text, the same thinking and the same chunks per tool index assemble
   to the same reply.
   */
  lemma InterleavingDoesNotMatter(a: seq<Chunk>, b: seq<Chunk>)
    requires AllText(a) == AllText(b) && AllThinking(a) == AllThinking(b)
    requires forall i: nat :: ToolChunks(a, i) == ToolChunks(b, i)
    ensures Fold(a) == Fold(b)
  {
    forall i: nat
      ensures i in Fold(a).tools <==> i in Fold(b).tools
      ensures i in Fold(a).tools ==> Fold(a).tools[i] == Fold(b).tools[i]
    {
      FoldParts(a, i);
      FoldParts(b, i);
    }
    FoldParts(a, 0);
    FoldParts(b, 0);
    assert Fold(a).tools == Fold(b).tools;
  }

  // ----- the ordered tool calls -----

  predicate IsMax(keys: set<nat>, m: nat) {
    m in keys && forall k :: k in keys ==> k <= m
  }

  lemma {:induction false} MaxExists(keys: set<nat>) returns (m: nat)
    requires keys != {}
    ensures IsMax(keys, m)
    decreases |keys|
  {
    var k :| k in keys;
    if keys == {k} {
      m := k;
    } else {
      assert keys - {k} != {};
      var m' := MaxExists(keys - {k});
      m := if m' < k then k else m';
      assert forall x :: x in keys ==> x == k || x in keys - {k};
    }
  }

  /** The collected entries after `sort_by_key`. */
  function Sorted(tools: map<nat, ToolCall>): seq<(nat, ToolCall)>
    decreases |tools|
  {
    if tools == map[] then []
    else
      assert tools.Keys != {} by { assert |tools.Keys| == |tools|; }
      var m := MaxKey(tools.Keys);
      assert (tools - {m}).Keys == tools.Keys - {m};
      Sorted(tools - {m}) + [(m, tools[m])]
  }

  function MaxKey(keys: set<nat>): (m: nat)
    requires keys != {}
    ensures IsMax(keys, m)
  {
    assert exists m: nat :: m in keys && IsMax(keys, m) by {
      var m := MaxExists(keys);
    }
    var m: nat :| m in keys && IsMax(keys, m);
    m
  }

  lemma SortedStep(tools: map<nat, ToolCall>) returns (m: nat, rest: map<nat, ToolCall>)
    requires tools != map[]
    ensures IsMax(tools.Keys, m) && rest == tools - {m} && rest.Keys == tools.Keys - {m} && |rest| == |tools| - 1
    ensures Sorted(tools) == Sorted(rest) + [(m, tools[m])]
  {
    assert |tools.Keys| == |tools|;
    m := MaxKey(tools.Keys);
    rest := tools - {m};
    assert rest.Keys == tools.Keys - {m} && |rest.Keys| == |rest|;
  }

  predicate Increasing(calls: seq<(nat, ToolCall)>) {
    forall k, l :: 0 <= k < l < |calls| ==> calls[k].0 < calls[l].0
  }

  ghost predicate Lists(calls: seq<(nat, ToolCall)>, tools: map<nat, ToolCall>) {
    && (forall k :: 0 <= k < |calls| ==> calls[k].0 in tools && tools[calls[k].0] == calls[k].1)
    && (forall i :: i in tools ==> (i, tools[i]) in calls)
  }

  lemma ListsOneMore(calls: seq<(nat, ToolCall)>, tools: map<nat, ToolCall>, m: nat)
    requires m in tools && Lists(calls, tools - {m}) && Increasing(calls) && IsMax(tools.Keys, m)
    ensures Lists(calls + [(m, tools[m])], tools) && Increasing(calls + [(m, tools[m])])
  {
    var longer, rest := calls + [(m, tools[m])], tools - {m};
    forall i | i in tools
      ensures (i, tools[i]) in longer
    {
      if i == m {
        assert longer[|calls|] == (m, tools[m]);
      } else {
        assert (i, rest[i]) in calls;
      }
    }
  }

  lemma {:induction false} SortedExact(tools: map<nat, ToolCall>)
    ensures Lists(Sorted(tools), tools) && Increasing(Sorted(tools)) && |Sorted(tools)| == |tools|
    decreases |tools|
  {
    if tools != map[] {
      var m, rest := SortedStep(tools);
      SortedExact(rest);
      hide Sorted, Lists, Increasing;
      ListsOneMore(Sorted(rest), tools, m);
    }
  }

  /**
   The calls come in strictly increasing index order, one per index that has a call, each built
   from its own chunks alone.
   */
  lemma CallsAreOrderedFolds(chunks: seq<Chunk>)
    ensures var calls := Sorted(Fold(chunks).tools);
            && Increasing(calls)
            && (forall k :: 0 <= k < |calls| ==> CallOf(ToolChunks(chunks, calls[k].0)) == Some(calls[k].1))
            && (forall i: nat, call :: CallOf(ToolChunks(chunks, i)) == Some(call) ==> (i, call) in calls)
  {
    SortedExact(Fold(chunks).tools);
    forall i: nat
      ensures Slot(Fold(chunks), i) == CallOf(ToolChunks(chunks, i))
    {
      FoldParts(chunks, i);
    }
  }
}
