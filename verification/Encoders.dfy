/** The three request encoders of server/agent/llm.go, compared through the pieces of conversation they transmit. */
module Encoders {
  import opened Text
  import opened Conversation

  datatype ContextBlock = ContextBlock(name: string, content: string)

  datatype Bundle = Bundle(policy: string, context: seq<ContextBlock>, history: History, task: string)

  function RenderContext(b: ContextBlock): string {
    "[runtime_context role=user name=" + b.name + "]\n" + b.content
  }

  // ---------- what a request says, whatever its format ----------

  datatype Piece = Said(text: string) | Wrote(text: string) | Called(call: Call) | Returned(id: string, text: string)

  function CallPieces(calls: seq<Call>): seq<Piece> {
    if calls == [] then [] else CallPieces(calls[..|calls| - 1]) + [Called(calls[|calls| - 1])]
  }

  function TextPieces(text: string): seq<Piece> {
    if Blank(text) then [] else [Wrote(text)]
  }

  function ItemPieces(it: Item): seq<Piece> {
    match it
    case User(t) => [Said(t)]
    case Assistant(t, calls) => TextPieces(t) + CallPieces(calls)
    case Tool(id, t) => [Returned(id, t)]
  }

  function HistoryPieces(h: History): seq<Piece> {
    if h == [] then [] else HistoryPieces(h[..|h| - 1]) + ItemPieces(h[|h| - 1])
  }

  function ContextPieces(c: seq<ContextBlock>): seq<Piece> {
    if c == [] then [] else ContextPieces(c[..|c| - 1]) + [Said(RenderContext(c[|c| - 1]))]
  }

  /** Context, then history, then task. */
  function Script(b: Bundle): seq<Piece> {
    ContextPieces(b.context) + HistoryPieces(b.history) + if b.task != "" then [Said(b.task)] else []
  }

  // ---------- what a script carries ----------

  /** The pieces of one kind, in order. */
  function CallsOf(p: seq<Piece>): seq<Call> {
    if p == [] then [] else (if p[0].Called? then [p[0].call] else []) + CallsOf(p[1..])
  }

  function ReturnsOf(p: seq<Piece>): seq<(string, string)> {
    if p == [] then [] else (if p[0].Returned? then [(p[0].id, p[0].text)] else []) + ReturnsOf(p[1..])
  }

  function SaidOf(p: seq<Piece>): seq<string> {
    if p == [] then [] else (if p[0].Said? then [p[0].text] else []) + SaidOf(p[1..])
  }

  function WroteOf(p: seq<Piece>): seq<string> {
    if p == [] then [] else (if p[0].Wrote? then [p[0].text] else []) + WroteOf(p[1..])
  }

  lemma {:induction false} KindsAppend(p: seq<Piece>, q: seq<Piece>)
    ensures CallsOf(p + q) == CallsOf(p) + CallsOf(q) && ReturnsOf(p + q) == ReturnsOf(p) + ReturnsOf(q)
    ensures SaidOf(p + q) == SaidOf(p) + SaidOf(q) && WroteOf(p + q) == WroteOf(p) + WroteOf(q)
  {
    if p == [] {
      assert p + q == q;
    } else {
      assert (p + q)[1..] == p[1..] + q && (p + q)[0] == p[0];
      KindsAppend(p[1..], q);
      Assoc(if p[0].Called? then [p[0].call] else [], CallsOf(p[1..]), CallsOf(q));
      Assoc(if p[0].Returned? then [(p[0].id, p[0].text)] else [], ReturnsOf(p[1..]), ReturnsOf(q));
      Assoc(if p[0].Said? then [p[0].text] else [], SaidOf(p[1..]), SaidOf(q));
      Assoc(if p[0].Wrote? then [p[0].text] else [], WroteOf(p[1..]), WroteOf(q));
    }
  }

  lemma {:induction false} CallPiecesCarry(calls: seq<Call>)
    ensures CallsOf(CallPieces(calls)) == calls
    ensures ReturnsOf(CallPieces(calls)) == [] && SaidOf(CallPieces(calls)) == [] && WroteOf(CallPieces(calls)) == []
  {
    if calls != [] {
      var n := |calls| - 1;
      CallPiecesCarry(calls[..n]);
      KindsAppend(CallPieces(calls[..n]), [Called(calls[n])]);
      assert [Called(calls[n])][1..] == [] && calls[..n] + [calls[n]] == calls;
    }
  }

  /** What the items of a history hold, in order. */
  function HistoryCalls(h: History): seq<Call> {
    if h == [] then [] else HistoryCalls(h[..|h| - 1]) + if h[|h| - 1].Assistant? then h[|h| - 1].calls else []
  }

  function HistoryReturns(h: History): seq<(string, string)> {
    if h == [] then [] else
      var it := h[|h| - 1];
      HistoryReturns(h[..|h| - 1]) + if it.Tool? then [(it.callId, it.text)] else []
  }

  function HistorySaid(h: History): seq<string> {
    if h == [] then [] else HistorySaid(h[..|h| - 1]) + if h[|h| - 1].User? then [h[|h| - 1].text] else []
  }

  function HistoryWrote(h: History): seq<string> {
    if h == [] then [] else
      var it := h[|h| - 1];
      HistoryWrote(h[..|h| - 1]) + if it.Assistant? && !Blank(it.text) then [it.text] else []
  }

  lemma ItemCarries(it: Item)
    ensures var p := ItemPieces(it);
            && CallsOf(p) == (if it.Assistant? then it.calls else [])
            && ReturnsOf(p) == (if it.Tool? then [(it.callId, it.text)] else [])
            && SaidOf(p) == (if it.User? then [it.text] else [])
            && WroteOf(p) == if it.Assistant? && !Blank(it.text) then [it.text] else []
  {
    if it.Assistant? {
      KindsAppend(TextPieces(it.text), CallPieces(it.calls));
      CallPiecesCarry(it.calls);
    }
  }

  lemma {:induction false} HistoryCarries(h: History)
    ensures var p := HistoryPieces(h);
            && CallsOf(p) == HistoryCalls(h) && ReturnsOf(p) == HistoryReturns(h)
            && SaidOf(p) == HistorySaid(h) && WroteOf(p) == HistoryWrote(h)
  {
    if h != [] {
      var n := |h| - 1;
      HistoryCarries(h[..n]);
      ItemCarries(h[n]);
      KindsAppend(HistoryPieces(h[..n]), ItemPieces(h[n]));
    }
  }

  function Rendered(c: seq<ContextBlock>): seq<string> {
    seq(|c|, i requires 0 <= i < |c| => RenderContext(c[i]))
  }

  lemma {:induction false} ContextCarries(c: seq<ContextBlock>)
    ensures var p := ContextPieces(c);
            CallsOf(p) == [] && ReturnsOf(p) == [] && SaidOf(p) == Rendered(c) && WroteOf(p) == []
  {
    if c != [] {
      var n := |c| - 1;
      ContextCarries(c[..n]);
      KindsAppend(ContextPieces(c[..n]), [Said(RenderContext(c[n]))]);
      assert [Said(RenderContext(c[n]))][1..] == [] && Rendered(c) == Rendered(c[..n]) + [RenderContext(c[n])];
    }
  }

  /**
   * Main result: a request carries every call and every result of the history with its text, in order, every text of
   * the assistant that is not blank, and as the user's words the context, the user's texts and the task.
   */
  lemma ScriptCarries(b: Bundle)
    ensures CallsOf(Script(b)) == HistoryCalls(b.history)
    ensures ReturnsOf(Script(b)) == HistoryReturns(b.history)
    ensures WroteOf(Script(b)) == HistoryWrote(b.history)
    ensures SaidOf(Script(b)) == Rendered(b.context) + HistorySaid(b.history) + if b.task != "" then [b.task] else []
  {
    var task := if b.task != "" then [Said(b.task)] else [];
    ContextCarries(b.context);
    HistoryCarries(b.history);
    KindsAppend(ContextPieces(b.context), HistoryPieces(b.history));
    KindsAppend(ContextPieces(b.context) + HistoryPieces(b.history), task);
  }

  lemma HistorySnoc(h: History, it: Item)
    ensures HistoryPieces(h + [it]) == HistoryPieces(h) + ItemPieces(it)
  {
    assert (h + [it])[..|h|] == h;
  }

  lemma {:induction false} HistoryAppend(a: History, b: History)
    ensures HistoryPieces(a + b) == HistoryPieces(a) + HistoryPieces(b)
    decreases |b|
  {
    if b == [] {
      assert a + b == a && HistoryPieces(a) + [] == HistoryPieces(a);
    } else {
      var n := |b| - 1;
      assert b == b[..n] + [b[n]] && a + b == a + b[..n] + [b[n]];
      HistoryAppend(a, b[..n]);
      HistorySnoc(a + b[..n], b[n]);
      HistorySnoc(b[..n], b[n]);
      Assoc(HistoryPieces(a), HistoryPieces(b[..n]), ItemPieces(b[n]));
    }
  }

  /** And in the order of the history: what an item says stands between what the items before and after it say. */
  lemma HistoryInOrder(a: History, it: Item, b: History)
    ensures HistoryPieces(a + [it] + b) == HistoryPieces(a) + ItemPieces(it) + HistoryPieces(b)
  {
    HistoryAppend(a + [it], b);
    HistoryAppend(a, [it]);
    assert [it][..0] == [] && [] + ItemPieces(it) == ItemPieces(it);
  }

  /** The first line names the block, the rest is its content: both can be read back. */
  lemma ContextReadsBack(a: ContextBlock, b: ContextBlock)
    requires '\n' !in a.name && '\n' !in b.name
    ensures RenderContext(a)[|RenderContext(a)| - |a.content|..] == a.content
    ensures RenderContext(a) == RenderContext(b) ==> a == b
  {
    var ra, rb := RenderContext(a), RenderContext(b);
    var head := "[runtime_context role=user name=";
    assert ra == head + a.name + "]" + "\n" + a.content;
    assert rb == head + b.name + "]" + "\n" + b.content;
    if ra == rb {
      var m, n := |head| + |a.name| + 1, |head| + |b.name| + 1;
      assert ra[m] == '\n' && rb[n] == '\n';
      NoBreakBefore(a);
      NoBreakBefore(b);
      assert m == n;
      assert a.name == ra[|head|..m - 1] && b.name == rb[|head|..m - 1];
      assert a.content == ra[m + 1..] && b.content == rb[m + 1..];
    }
  }

  lemma NoBreakBefore(a: ContextBlock)
    requires '\n' !in a.name
    ensures var r := RenderContext(a);
            var n := |"[runtime_context role=user name="| + |a.name| + 1;
            n < |r| && r[n] == '\n' && forall k :: 0 <= k < n ==> r[k] != '\n'
  {
    var head := "[runtime_context role=user name=";
    var line := head + a.name + "]";
    assert RenderContext(a) == line + "\n" + a.content;
    assert forall k :: 0 <= k < |head| ==> head[k] != '\n';
    assert forall k :: 0 <= k < |line| ==> line[k] != '\n';
  }

  lemma HistoryStep(h: History, i: nat)
    requires i < |h|
    ensures HistoryPieces(h[..i + 1]) == HistoryPieces(h[..i]) + ItemPieces(h[i])
  {
    assert h[..i + 1][..i] == h[..i];
  }

  lemma ContextStep(c: seq<ContextBlock>, i: nat)
    requires i < |c|
    ensures ContextPieces(c[..i + 1]) == ContextPieces(c[..i]) + [Said(RenderContext(c[i]))]
  {
    assert c[..i + 1][..i] == c[..i];
  }

  lemma CallStep(calls: seq<Call>, i: nat)
    requires i < |calls|
    ensures CallPieces(calls[..i + 1]) == CallPieces(calls[..i]) + [Called(calls[i])]
  {
    assert calls[..i + 1][..i] == calls[..i];
  }

  // ---------- Responses format ----------

  datatype ResponsesInput = Message(fromUser: bool, content: string) | FunctionCall(call: Call)
    | FunctionOutput(id: string, output: string)

  function ReadInput(x: ResponsesInput): Piece {
    match x
    case Message(user, c) => if user then Said(c) else Wrote(c)
    case FunctionCall(c) => Called(c)
    case FunctionOutput(id, o) => Returned(id, o)
  }

  function ReadResponses(r: seq<ResponsesInput>): seq<Piece> {
    seq(|r|, i requires 0 <= i < |r| => ReadInput(r[i]))
  }

  method BuildResponsesRequest(b: Bundle) returns (r: seq<ResponsesInput>)
    ensures ReadResponses(r) == Script(b)
  {
    r := [];
    for i := 0 to |b.context|
      invariant ReadResponses(r) == ContextPieces(b.context[..i])
    {
      ContextStep(b.context, i);
      ReadResponsesSnoc(r, Message(true, RenderContext(b.context[i])));
      r := r + [Message(true, RenderContext(b.context[i]))];
    }
    assert b.context[..|b.context|] == b.context;
    ghost var start := ContextPieces(b.context);
    assert start + HistoryPieces([]) == start;
    for i := 0 to |b.history|
      invariant ReadResponses(r) == start + HistoryPieces(b.history[..i])
    {
      HistoryStep(b.history, i);
      Assoc(start, HistoryPieces(b.history[..i]), ItemPieces(b.history[i]));
      r := AppendInputs(r, b.history[i]);
    }
    assert b.history[..|b.history|] == b.history;
    if b.task != "" {
      ReadResponsesSnoc(r, Message(true, b.task));
      r := r + [Message(true, b.task)];
    }
  }

  lemma ReadResponsesSnoc(r: seq<ResponsesInput>, x: ResponsesInput)
    ensures ReadResponses(r + [x]) == ReadResponses(r) + [ReadInput(x)]
  {
  }

  /** The body of the encoder's history loop. */
  method AppendInputs(r: seq<ResponsesInput>, it: Item) returns (r': seq<ResponsesInput>)
    ensures ReadResponses(r') == ReadResponses(r) + ItemPieces(it)
  {
    match it
    case User(t) =>
      r' := r + [Message(true, t)];
    case Assistant(t, calls) =>
      r' := r;
      if !Blank(t) { r' := r' + [Message(false, t)]; }
      assert ReadResponses(r') == ReadResponses(r) + TextPieces(t);
      ghost var head := ReadResponses(r');
      assert head + [] == head;
      for k := 0 to |calls|
        invariant ReadResponses(r') == head + CallPieces(calls[..k])
      {
        CallStep(calls, k);
        ReadResponsesSnoc(r', FunctionCall(calls[k]));
        r' := r' + [FunctionCall(calls[k])];
      }
      assert calls[..|calls|] == calls;
      Assoc(ReadResponses(r), TextPieces(t), CallPieces(calls));
    case Tool(id, t) =>
      r' := r + [FunctionOutput(id, t)];
  }

  // ---------- Chat Completions format ----------

  datatype ChatMessage = System(content: string) | FromUser(content: string)
    | FromAssistant(content: string, calls: seq<Call>) | FromTool(id: string, content: string)

  function ReadChatMessage(m: ChatMessage): seq<Piece> {
    match m
    case System(_) => []
    case FromUser(c) => [Said(c)]
    case FromAssistant(c, calls) => TextPieces(c) + CallPieces(calls)
    case FromTool(id, c) => [Returned(id, c)]
  }

  function ReadChat(r: seq<ChatMessage>): seq<Piece> {
    if r == [] then [] else ReadChat(r[..|r| - 1]) + ReadChatMessage(r[|r| - 1])
  }

  method BuildChatCompletionsRequest(b: Bundle) returns (r: seq<ChatMessage>)
    ensures ReadChat(r) == Script(b)
  {
    r := [];
    if b.policy != "" { r := [System(b.policy)]; assert r[..0] == []; }
    for i := 0 to |b.context|
      invariant ReadChat(r) == ContextPieces(b.context[..i])
    {
      ContextStep(b.context, i);
      r := r + [FromUser(RenderContext(b.context[i]))];
    }
    assert b.context[..|b.context|] == b.context;
    ghost var start := ContextPieces(b.context);
    assert start + HistoryPieces([]) == start;
    for i := 0 to |b.history|
      invariant ReadChat(r) == start + HistoryPieces(b.history[..i])
    {
      HistoryStep(b.history, i);
      Assoc(start, HistoryPieces(b.history[..i]), ItemPieces(b.history[i]));
      r := AppendMessage(r, b.history[i]);
    }
    assert b.history[..|b.history|] == b.history;
    if b.task != "" {
      r := r + [FromUser(b.task)];
    }
  }

  /** The body of the encoder's history loop. */
  method AppendMessage(r: seq<ChatMessage>, it: Item) returns (r': seq<ChatMessage>)
    ensures ReadChat(r') == ReadChat(r) + ItemPieces(it)
  {
    match it
    case User(t) =>
      r' := r + [FromUser(t)];
    case Assistant(t, calls) =>
      r' := if !Blank(t) || |calls| > 0 then r + [FromAssistant(t, calls)] else r;
    case Tool(id, t) =>
      r' := r + [FromTool(id, t)];
  }

  // ---------- Anthropic format ----------

  datatype Block = TextBlock(text: string) | ToolUse(call: Call) | ToolResult(id: string, text: string)

  datatype AnthropicMessage = AnthropicMessage(fromUser: bool, content: seq<Block>)

  function ReadBlock(fromUser: bool, x: Block): seq<Piece> {
    match x
    case TextBlock(t) => if fromUser then [Said(t)] else TextPieces(t)
    case ToolUse(c) => [Called(c)]
    case ToolResult(id, t) => [Returned(id, t)]
  }

  function ReadBlocks(fromUser: bool, content: seq<Block>): seq<Piece> {
    if content == [] then [] else
      ReadBlocks(fromUser, content[..|content| - 1]) + ReadBlock(fromUser, content[|content| - 1])
  }

  function ReadAnthropic(r: seq<AnthropicMessage>): seq<Piece> {
    if r == [] then [] else ReadAnthropic(r[..|r| - 1]) + ReadBlocks(r[|r| - 1].fromUser, r[|r| - 1].content)
  }

  lemma ReadBlocksSnoc(fromUser: bool, content: seq<Block>, x: Block)
    ensures ReadBlocks(fromUser, content + [x]) == ReadBlocks(fromUser, content) + ReadBlock(fromUser, x)
  {
    assert (content + [x])[..|content|] == content;
  }

  lemma ReadAnthropicSnoc(r: seq<AnthropicMessage>, m: AnthropicMessage)
    ensures ReadAnthropic(r + [m]) == ReadAnthropic(r) + ReadBlocks(m.fromUser, m.content)
  {
    assert (r + [m])[..|r|] == r;
  }

  function UseBlocks(calls: seq<Call>): seq<Block> {
    seq(|calls|, i requires 0 <= i < |calls| => ToolUse(calls[i]))
  }

  function AssistantBlocks(t: string, calls: seq<Call>): seq<Block> {
    (if t != "" then [TextBlock(t)] else []) + UseBlocks(calls)
  }

  lemma {:induction false} ReadAssistantBlocks(t: string, calls: seq<Call>)
    ensures ReadBlocks(false, AssistantBlocks(t, calls)) == TextPieces(t) + CallPieces(calls)
    decreases |calls|
  {
    if calls == [] {
      assert TextPieces(t) + [] == TextPieces(t);
    } else {
      var n := |calls| - 1;
      ReadAssistantBlocks(t, calls[..n]);
      AssistantBlocksSnoc(t, calls);
      ReadBlocksSnoc(false, AssistantBlocks(t, calls[..n]), ToolUse(calls[n]));
      Assoc(TextPieces(t), CallPieces(calls[..n]), [Called(calls[n])]);
    }
  }

  lemma AssistantBlocksSnoc(t: string, calls: seq<Call>)
    requires calls != []
    ensures var n := |calls| - 1;
            AssistantBlocks(t, calls) == AssistantBlocks(t, calls[..n]) + [ToolUse(calls[n])]
  {
    var n := |calls| - 1;
    assert UseBlocks(calls) == UseBlocks(calls[..n]) + [ToolUse(calls[n])];
    Assoc(if t != "" then [TextBlock(t)] else [], UseBlocks(calls[..n]), [ToolUse(calls[n])]);
  }

  /** The message makes the call with this id. */
  ghost predicate Makes(m: AnthropicMessage, id: string) {
    !m.fromUser && exists c :: ToolUse(c) in m.content && c.id == id
  }

  /** Every result stands in the user message directly after the assistant message that made its call. */
  ghost predicate Placed(r: seq<AnthropicMessage>) {
    forall m, id, t :: 0 <= m < |r| && r[m].fromUser && ToolResult(id, t) in r[m].content
      ==> m > 0 && Makes(r[m - 1], id)
  }

  /** The results waiting in the user buffer belong to the last message written. */
  ghost predicate Pends(r: seq<AnthropicMessage>, user: seq<Block>) {
    forall id, t :: ToolResult(id, t) in user ==> r != [] && Makes(r[|r| - 1], id)
  }

  /** While only results follow a call message, that message is the last one written. */
  ghost predicate CallerIsLast(h: History, i: nat, r: seq<AnthropicMessage>)
    requires i <= |h|
  {
    forall o :: 0 <= o < i && h[o].Caller() && (forall k :: o < k < i ==> h[k].Tool?) ==>
      r != [] && r[|r| - 1] == AnthropicMessage(false, AssistantBlocks(h[o].text, h[o].calls))
  }

  lemma CallIsMade(t: string, calls: seq<Call>, id: string)
    requires HasCall(calls, id)
    ensures Makes(AnthropicMessage(false, AssistantBlocks(t, calls)), id)
  {
    var c :| c in calls && c.id == id;
    var i :| 0 <= i < |calls| && calls[i] == c;
    assert UseBlocks(calls)[i] == ToolUse(c);
    assert ToolUse(c) in AssistantBlocks(t, calls);
  }

  function Flush(r: seq<AnthropicMessage>, user: seq<Block>): seq<AnthropicMessage> {
    if user == [] then r else r + [AnthropicMessage(true, user)]
  }

  lemma PlacedFlush(r: seq<AnthropicMessage>, user: seq<Block>)
    requires Placed(r) && Pends(r, user)
    ensures Placed(r + [AnthropicMessage(true, user)])
  {
    var all := r + [AnthropicMessage(true, user)];
    forall m, id, t | 0 <= m < |all| && all[m].fromUser && ToolResult(id, t) in all[m].content
      ensures m > 0 && Makes(all[m - 1], id)
    {
      if m < |r| { assert all[m] == r[m]; } else { assert all[m - 1] == r[m - 1]; }
    }
  }

  lemma FlushKeeps(r: seq<AnthropicMessage>, user: seq<Block>, placed: bool)
    requires placed ==> Placed(r) && Pends(r, user)
    ensures ReadAnthropic(Flush(r, user)) == ReadAnthropic(r) + ReadBlocks(true, user)
    ensures placed ==> Placed(Flush(r, user))
  {
    if user != [] { ReadAnthropicSnoc(r, AnthropicMessage(true, user)); }
    if user != [] && placed { PlacedFlush(r, user); }
  }

  /** Handles one history item: the buffer and the messages after it. */
  function EncodeItem(r: seq<AnthropicMessage>, user: seq<Block>, it: Item): (seq<AnthropicMessage>, seq<Block>) {
    match it
    case User(t) => (r, user + [TextBlock(t)])
    case Tool(id, t) => (r, user + [ToolResult(id, t)])
    case Assistant(t, calls) =>
      var content := AssistantBlocks(t, calls);
      (if content == [] then Flush(r, user) else Flush(r, user) + [AnthropicMessage(false, content)], [])
  }

  lemma EncodeItemReads(r: seq<AnthropicMessage>, user: seq<Block>, it: Item)
    ensures var (r', user') := EncodeItem(r, user, it);
            ReadAnthropic(r') + ReadBlocks(true, user') == ReadAnthropic(r) + ReadBlocks(true, user) + ItemPieces(it)
  {
    match it
    case User(t) =>
      ReadBlocksSnoc(true, user, TextBlock(t));
      Assoc(ReadAnthropic(r), ReadBlocks(true, user), [Said(t)]);
    case Tool(id, t) =>
      ReadBlocksSnoc(true, user, ToolResult(id, t));
      Assoc(ReadAnthropic(r), ReadBlocks(true, user), [Returned(id, t)]);
    case Assistant(t, calls) =>
      FlushKeeps(r, user, false);
      ReadAssistantBlocks(t, calls);
      ReadAnthropicSnoc(Flush(r, user), AnthropicMessage(false, AssistantBlocks(t, calls)));
  }

  lemma ResultIsPlaced(h: History, i: nat, r: seq<AnthropicMessage>, user: seq<Block>)
    requires i < |h| && h[i].Tool? && OrphanFree(h) && Pends(r, user) && CallerIsLast(h, i, r)
    ensures Pends(r, user + [ToolResult(h[i].callId, h[i].text)])
  {
    var o :| Owns(h, o, i);
    CallIsMade(h[o].text, h[o].calls, h[i].callId);
    assert h[o].Caller();
  }

  lemma AssistantIsPlaced(h: History, i: nat, r: seq<AnthropicMessage>, user: seq<Block>)
    requires i < |h| && h[i].Assistant? && Placed(r) && Pends(r, user)
    ensures var r' := EncodeItem(r, user, h[i]).0;
            Placed(r') && CallerIsLast(h, i + 1, r')
  {
    FlushKeeps(r, user, true);
    AssistantIsLast(h, i, r, user);
  }

  lemma AssistantIsLast(h: History, i: nat, r: seq<AnthropicMessage>, user: seq<Block>)
    requires i < |h| && h[i].Assistant?
    ensures CallerIsLast(h, i + 1, EncodeItem(r, user, h[i]).0)
  {
    var content := AssistantBlocks(h[i].text, h[i].calls);
    var r' := EncodeItem(r, user, h[i]).0;
    forall o | 0 <= o < i + 1 && h[o].Caller() && (forall k :: o < k < i + 1 ==> h[k].Tool?)
      ensures r' != [] && r'[|r'| - 1] == AnthropicMessage(false, AssistantBlocks(h[o].text, h[o].calls))
    {
      assert o == i;
      assert content[|content| - 1] == ToolUse(h[i].calls[|h[i].calls| - 1]);
    }
  }

  lemma EncodeItemPlaces(h: History, i: nat, r: seq<AnthropicMessage>, user: seq<Block>)
    requires i < |h| && OrphanFree(h) && Placed(r) && Pends(r, user) && CallerIsLast(h, i, r)
    ensures var e := EncodeItem(r, user, h[i]);
            Placed(e.0) && Pends(e.0, e.1) && CallerIsLast(h, i + 1, e.0)
  {
    match h[i]
    case User(t) =>
    case Tool(id, t) => ResultIsPlaced(h, i, r, user);
    case Assistant(t, calls) => AssistantIsPlaced(h, i, r, user);
  }

  method BuildAnthropicMessages(b: Bundle) returns (r: seq<AnthropicMessage>)
    ensures ReadAnthropic(r) == Script(b)
    ensures OrphanFree(b.history) ==> Placed(r)
  {
    r := [];
    var user: seq<Block> := [];
    for i := 0 to |b.context|
      invariant r == [] && ReadBlocks(true, user) == ContextPieces(b.context[..i])
      invariant forall id, t :: ToolResult(id, t) !in user
    {
      ContextStep(b.context, i);
      ReadBlocksSnoc(true, user, TextBlock(RenderContext(b.context[i])));
      user := user + [TextBlock(RenderContext(b.context[i]))];
    }
    assert b.context[..|b.context|] == b.context;
    ghost var start := ContextPieces(b.context);
    assert start + HistoryPieces([]) == start && [] + start == start;
    for i := 0 to |b.history|
      invariant ReadAnthropic(r) + ReadBlocks(true, user) == start + HistoryPieces(b.history[..i])
      invariant OrphanFree(b.history) ==> Placed(r) && Pends(r, user) && CallerIsLast(b.history, i, r)
    {
      HistoryStep(b.history, i);
      EncodeItemReads(r, user, b.history[i]);
      Assoc(start, HistoryPieces(b.history[..i]), ItemPieces(b.history[i]));
      if OrphanFree(b.history) { EncodeItemPlaces(b.history, i, r, user); }
      r, user := AppendItem(r, user, b.history[i]);
    }
    assert b.history[..|b.history|] == b.history;
    if b.task != "" {
      ReadBlocksSnoc(true, user, TextBlock(b.task));
      Assoc(ReadAnthropic(r), ReadBlocks(true, user), [Said(b.task)]);
      user := user + [TextBlock(b.task)];
    }
    FlushKeeps(r, user, OrphanFree(b.history));
    r := Flush(r, user);
  }

  /** The body of the encoder's history loop. */
  method AppendItem(r: seq<AnthropicMessage>, user: seq<Block>, it: Item)
    returns (r': seq<AnthropicMessage>, user': seq<Block>)
    ensures r' == EncodeItem(r, user, it).0 && user' == EncodeItem(r, user, it).1
  {
    r', user' := r, user;
    match it
    case User(t) => user' := user' + [TextBlock(t)];
    case Tool(id, t) => user' := user' + [ToolResult(id, t)];
    case Assistant(t, calls) =>
      if |user'| > 0 { r', user' := r' + [AnthropicMessage(true, user')], []; }
      var content: seq<Block> := [];
      if t != "" { content := content + [TextBlock(t)]; }
      ghost var head := content;
      for k := 0 to |calls|
        invariant content == head + UseBlocks(calls[..k])
      {
        content := content + [ToolUse(calls[k])];
      }
      assert calls[..|calls|] == calls;
      assert content == AssistantBlocks(t, calls);
      if |content| > 0 { r' := r' + [AnthropicMessage(false, content)]; }
  }
}
