/** The main loop of server/agent/engine.go and the delegate loop of server/agent/worker.go. */
module Engine {
  import opened Text
  import opened Conversation

  const MAX_ITERATIONS := 50
  const MAX_WORKER_ITERATIONS := 25

  // What the outside world answers; every script of replies and outcomes is allowed.

  datatype Reply = LLMFailed
    | NoChoices(tokens: int, digest: string)
    | Choice(tokens: int, digest: string, content: string, calls: seq<Call>, stop: bool)

  datatype Outcome = Outcome(text: string, argsOk: bool, cancelledDuring: bool, cancelledAfter: bool, finalized: bool) {
    predicate Cancelled() { cancelledDuring || cancelledAfter }
  }

  datatype Summary = SummaryFailed | Summary(text: string, tokens: int, digest: string) {
    predicate Usable() { Summary? && !Blank(text) }
  }

  /** One run's surroundings: cancellation when iteration i starts, the model's replies, the outcomes of tools. */
  datatype Env = Env(cancelled: nat -> bool, llm: nat -> Reply, tool: (nat, nat) -> Outcome, summary: Summary) {
    function Tools(i: nat): nat -> Outcome { (k: nat) => tool(i, k) }
  }

  /** The run's own events; what a tool or a delegate sends under another run's id is not among them. */
  datatype Event = AssistantStatus | ToolCalled(id: string) | ToolReturned(id: string)
    | RunCompleted | RunCancelled | RunError | UserRequestInput
  {
    predicate RunState() { RunCompleted? || RunCancelled? || RunError? || UserRequestInput? }
  }

  predicate Quiet(events: seq<Event>) {
    forall e :: e in events ==> !e.RunState()
  }

  /** Exactly one run-state event, and it is the last event. */
  predicate EndsOnce(events: seq<Event>) {
    events != [] && events[|events| - 1].RunState() && Quiet(events[..|events| - 1])
  }

  function Shown(verdict: Option<Event>): seq<Event> {
    if verdict.Some? then [verdict.value] else []
  }

  // ---------- how far a batch gets ----------

  datatype BatchEnd = AllAnswered | Asked | BadInput | Dropped | FinalizeDone

  /** The call after which the batch does not go on: an input request, a cancelled call, a successful finalize. */
  predicate Ends(call: Call, o: Outcome) {
    call.name == INPUT_TOOL || o.Cancelled() || (call.name == FINALIZE_TOOL && o.finalized)
  }

  /** The first such call, or the number of calls when there is none. */
  function FirstEnd(calls: seq<Call>, tool: nat -> Outcome, from: nat := 0): (k: nat)
    requires from <= |calls|
    ensures from <= k <= |calls| && (k < |calls| ==> Ends(calls[k], tool(k)))
    ensures forall i :: from <= i < k ==> !Ends(calls[i], tool(i))
    decreases |calls| - from
  {
    if from == |calls| || Ends(calls[from], tool(from)) then from else FirstEnd(calls, tool, from + 1)
  }

  function EndOf(calls: seq<Call>, tool: nat -> Outcome): BatchEnd {
    var k := FirstEnd(calls, tool);
    if k == |calls| then AllAnswered
    else if calls[k].name == INPUT_TOOL then if tool(k).argsOk then Asked else BadInput
    else if tool(k).Cancelled() then Dropped
    else FinalizeDone
  }

  /** How many calls of the batch get a result. */
  function Reached(calls: seq<Call>, tool: nat -> Outcome): (n: nat)
    ensures n <= |calls|
  {
    FirstEnd(calls, tool) + if EndOf(calls, tool).FinalizeDone? then 1 else 0
  }

  function ResultsOf(calls: seq<Call>, tool: nat -> Outcome, n: nat): History
    requires n <= |calls|
  {
    seq(n, k requires 0 <= k < n => Tool(calls[k].id, tool(k).text))
  }

  /** The message with its results. */
  function BatchHistory(reply: Reply, tool: nat -> Outcome): History
    requires reply.Choice?
  {
    [Assistant(reply.content, reply.calls)] + ResultsOf(reply.calls, tool, Reached(reply.calls, tool))
  }

  function CallEvents(calls: seq<Call>, n: nat): seq<Event>
    requires n <= |calls|
  {
    if n == 0 then [] else CallEvents(calls, n - 1) + [ToolCalled(calls[n - 1].id), ToolReturned(calls[n - 1].id)]
  }

  /** What a batch tells before its verdict. */
  function BatchEvents(calls: seq<Call>, tool: nat -> Outcome): seq<Event> {
    var k := FirstEnd(calls, tool);
    CallEvents(calls, k)
    + if k == |calls| then []
      else if calls[k].name == INPUT_TOOL || tool(k).cancelledDuring then [ToolCalled(calls[k].id)]
      else [ToolCalled(calls[k].id), ToolReturned(calls[k].id)]
  }

  // ---------- one iteration ----------

  function TurnEvents(reply: Reply, tool: nat -> Outcome): seq<Event> {
    if !reply.Choice? || reply.calls == [] then []
    else (if reply.content != "" then [AssistantStatus] else []) + BatchEvents(reply.calls, tool)
  }

  /** The run-state event of an iteration; none when the run goes on or was cut short. */
  function TurnVerdict(reply: Reply, tool: nat -> Outcome, summary: Summary): Option<Event>
    requires reply.Choice?
  {
    if reply.calls == [] then Some(if reply.content != "" then RunCompleted else RunError)
    else match EndOf(reply.calls, tool)
      case AllAnswered => None
      case Asked => Some(UserRequestInput)
      case BadInput => Some(RunError)
      case Dropped => None
      case FinalizeDone => Some(if summary.Usable() then RunCompleted else RunError)
  }

  /** The closing words, kept when there are any. */
  function Closed(h: History, summary: Summary): History {
    if summary.Usable() then Compact(h + [Assistant(Trim(summary.text), [])], summary.tokens, summary.digest) else h
  }

  function TurnHistory(h: History, reply: Reply, tool: nat -> Outcome, summary: Summary): History
    requires reply.Choice?
  {
    if reply.calls == [] then if reply.content != "" then h + [Assistant(reply.content, [])] else h
    else if EndOf(reply.calls, tool).FinalizeDone? then Closed(h + BatchHistory(reply, tool), summary)
    else h + BatchHistory(reply, tool)
  }

  /** User text once, then compaction. */
  function Absorbed(h: History, task: string, reply: Reply): History
    requires !reply.LLMFailed?
  {
    Compact(if task != "" then h + [User(task)] else h, reply.tokens, reply.digest)
  }

  // ---------- the whole run ----------

  /** Iteration i sends a request. */
  predicate Asks(env: Env, i: nat) {
    !env.cancelled(i) && i <= MAX_ITERATIONS
  }

  /** Iteration i is followed by another one. */
  predicate GoesOn(env: Env, i: nat) {
    Asks(env, i) && env.llm(i).Choice? && env.llm(i).calls != [] && EndOf(env.llm(i).calls, env.Tools(i)).AllAnswered?
  }

  /** The run gets as far as the start of iteration i. */
  predicate GetsTo(env: Env, i: nat) {
    i == 1 || (i > 1 && GoesOn(env, i - 1) && GetsTo(env, i - 1))
  }

  lemma {:induction false} SomeLastTurn(env: Env, i: nat) returns (r: nat)
    requires i <= MAX_ITERATIONS + 1 && GetsTo(env, i)
    ensures r <= MAX_ITERATIONS + 1 && GetsTo(env, r) && !GoesOn(env, r)
    decreases MAX_ITERATIONS + 1 - i
  {
    if GoesOn(env, i) { r := SomeLastTurn(env, i + 1); } else { r := i; }
  }

  lemma {:induction false} GetsToEarlier(env: Env, i: nat, j: nat)
    requires GetsTo(env, i) && 1 <= j <= i
    ensures GetsTo(env, j) && (j < i ==> GoesOn(env, j))
  {
    if j < i { GetsToEarlier(env, i - 1, j); }
  }

  /** The iteration the run gets to and does not go beyond. */
  ghost function LastTurn(env: Env): (r: nat)
    ensures 1 <= r <= MAX_ITERATIONS + 1 && GetsTo(env, r) && !GoesOn(env, r)
  {
    assert exists r: nat :: r <= MAX_ITERATIONS + 1 && GetsTo(env, r) && !GoesOn(env, r) by {
      var r := SomeLastTurn(env, 1);
    }
    var r: nat :| r <= MAX_ITERATIONS + 1 && GetsTo(env, r) && !GoesOn(env, r);
    r
  }

  function Task(input: string, i: nat): string {
    if i == 1 then input else ""
  }

  /** The history after iteration i, when another one follows. */
  function AfterTurn(env: Env, h: History, input: string, i: nat): History {
    if !env.llm(i).Choice? then h
    else Absorbed(h, Task(input, i), env.llm(i)) + BatchHistory(env.llm(i), env.Tools(i))
  }

  /** The history when iteration i starts: what its request carries. */
  function HistoryAt(env: Env, h0: History, input: string, i: nat): History {
    if i <= 1 then h0 else AfterTurn(env, HistoryAt(env, h0, input, i - 1), input, i - 1)
  }

  function EventsAt(env: Env, i: nat): seq<Event> {
    if i <= 1 then [] else EventsAt(env, i - 1) + TurnEvents(env.llm(i - 1), env.Tools(i - 1))
  }

  /** The first n requests of the main loop. */
  function RequestsUpTo(env: Env, h0: History, input: string, n: nat): (s: seq<History>)
    ensures |s| == n
  {
    if n == 0 then [] else RequestsUpTo(env, h0, input, n - 1) + [HistoryAt(env, h0, input, n)]
  }

  ghost function Requests(env: Env, h0: History, input: string): (s: seq<History>)
    ensures |s| <= MAX_ITERATIONS
  {
    var r := LastTurn(env);
    RequestsUpTo(env, h0, input, if Asks(env, r) then r else r - 1)
  }

  /** The history the run leaves behind. */
  ghost function Left(env: Env, h0: History, input: string): History {
    var r := LastTurn(env);
    var h := HistoryAt(env, h0, input, r);
    var reply := env.llm(r);
    if !Asks(env, r) || reply.LLMFailed? then h
    else
      var absorbed := Absorbed(h, Task(input, r), reply);
      if reply.NoChoices? then absorbed else TurnHistory(absorbed, reply, env.Tools(r), env.summary)
  }

  ghost function Verdict(env: Env): Option<Event> {
    var r := LastTurn(env);
    if env.cancelled(r) then Some(RunCancelled)
    else if !Asks(env, r) || !env.llm(r).Choice? then Some(RunError)
    else TurnVerdict(env.llm(r), env.Tools(r), env.summary)
  }

  ghost function Events(env: Env): seq<Event> {
    var r := LastTurn(env);
    EventsAt(env, r) + (if Asks(env, r) then TurnEvents(env.llm(r), env.Tools(r)) else [])
    + Shown(Verdict(env))
  }

  /** The run ended by a successful finalize. */
  ghost predicate Finalizes(env: Env) {
    var r := LastTurn(env);
    Asks(env, r) && env.llm(r).Choice? && EndOf(env.llm(r).calls, env.Tools(r)).FinalizeDone?
  }

  /** The request for the closing words. */
  ghost function ClosingRequest(env: Env, h0: History, input: string): Option<History> {
    if !Finalizes(env) then None else
      var r := LastTurn(env);
      Some(Absorbed(HistoryAt(env, h0, input, r), Task(input, r), env.llm(r)) + BatchHistory(env.llm(r), env.Tools(r)))
  }

  class AgentEngine {
    var history: History

    constructor ()
      ensures history == []
    {
      history := [];
    }

    method CompactMessages(promptTokens: int, digest: string)
      modifies this
      ensures history == Compact(old(history), promptTokens, digest)
      ensures promptTokens <= COMPACT_TRIGGER || |old(history)| <= RECENT_WINDOW || digest == "" ==>
                history == old(history)
    {
      var h := history;
      if |h| <= 1 { return; }
      if promptTokens <= 0 || promptTokens <= COMPACT_TRIGGER { return; }
      var recentStart := |h| - RECENT_WINDOW;
      if recentStart <= 0 { return; }
      recentStart := AdjustCompactionBoundary(h, recentStart);
      if digest == "" { return; }
      CompactCuts(h, promptTokens, digest);
      history := h[recentStart..];
    }

    /** Fills every unanswered input request of the last message that has any. */
    method ProvideAskUserResult(reply: string) returns (ok: bool)
      modifies this
      ensures history == AnswerAll(old(history), PendingIds(old(history)), reply)
      ensures ok <==> history != old(history)
    {
      var pending := FindPending(history);
      if pending == [] { return false; }
      history, ok := FillAnswers(history, pending, reply);
    }

    /** The calls of one message, in order, until one of them ends the run. */
    method RunBatch(calls: seq<Call>, tool: nat -> Outcome, before: seq<Event>)
      returns (end: BatchEnd, events: seq<Event>)
      modifies this
      ensures end == EndOf(calls, tool)
      ensures history == old(history) + ResultsOf(calls, tool, Reached(calls, tool))
      ensures events == before + BatchEvents(calls, tool)
                        + Shown(if end.Asked? then Some(UserRequestInput)
                                else if end.BadInput? then Some(RunError) else None)
    {
      events := before;
      assert before + [] == before && history + [] == history;
      for k := 0 to |calls|
        invariant forall i :: 0 <= i < k ==> !Ends(calls[i], tool(i))
        invariant history == old(history) + ResultsOf(calls, tool, k)
        invariant events == before + CallEvents(calls, k)
      {
        var call := calls[k];
        var o := tool(k);
        Assoc(before, CallEvents(calls, k), [ToolCalled(call.id)]);
        events := events + [ToolCalled(call.id)];
        if call.name == INPUT_TOOL {
          if !o.argsOk { return BadInput, events + [RunError]; }
          return Asked, events + [UserRequestInput];
        }
        if o.cancelledDuring {
          assert events + [] == events;
          return Dropped, events;
        }
        events := events + [ToolReturned(call.id)];
        assert events == before + (CallEvents(calls, k) + [ToolCalled(call.id), ToolReturned(call.id)]);
        assert events + [] == events;
        if o.cancelledAfter { return Dropped, events; }
        assert ResultsOf(calls, tool, k + 1) == ResultsOf(calls, tool, k) + [Tool(call.id, o.text)];
        history := history + [Tool(call.id, o.text)];
        if call.name == FINALIZE_TOOL && o.finalized { return FinalizeDone, events; }
      }
      assert events + [] + [] == events && CallEvents(calls, |calls|) + [] == CallEvents(calls, |calls|);
      return AllAnswered, events;
    }

    method AbsorbTask(task: string, reply: Reply)
      requires !reply.LLMFailed?
      modifies this
      ensures history == Absorbed(old(history), task, reply)
    {
      if task != "" { history := history + [User(task)]; }
      CompactMessages(reply.tokens, reply.digest);
    }

    /** finalResponseAfterFinalize: the closing words, kept in the history when there are any. */
    method FinalResponse(summary: Summary) returns (ok: bool)
      modifies this
      ensures ok <==> summary.Usable()
      ensures history == Closed(old(history), summary)
    {
      if summary.SummaryFailed? || Blank(summary.text) { return false; }
      history := history + [Assistant(Trim(summary.text), [])];
      CompactMessages(summary.tokens, summary.digest);
      return true;
    }

    /** One iteration after the model has replied; `closing` is the request for the closing words. */
    method Turn(reply: Reply, tool: nat -> Outcome, summary: Summary, before: seq<Event>)
      returns (more: bool, events: seq<Event>, closing: Option<History>)
      requires reply.Choice?
      modifies this
      ensures more <==> reply.calls != [] && EndOf(reply.calls, tool).AllAnswered?
      ensures Turned(old(history), reply, tool, summary, before, history, events, closing)
    {
      more, events, closing := false, before, None;
      assert before + [] == before;
      if reply.content != "" {
        if reply.calls == [] {
          history := history + [Assistant(reply.content, [])];
          events := events + [RunCompleted];
          return;
        }
        events := events + [AssistantStatus];
      }
      // With neither text nor calls the run fails, whatever the finish reason says.
      if reply.calls == [] {
        events := events + [RunError];
        return;
      }
      Assoc(history, [Assistant(reply.content, reply.calls)], ResultsOf(reply.calls, tool, Reached(reply.calls, tool)));
      history := history + [Assistant(reply.content, reply.calls)];
      var end;
      end, events := RunBatch(reply.calls, tool, events);
      Assoc(before, if reply.content != "" then [AssistantStatus] else [], BatchEvents(reply.calls, tool));
      if end.FinalizeDone? {
        closing := Some(history);
        var ok := FinalResponse(summary);
        assert events + [] == events;
        events := events + [if ok then RunCompleted else RunError];
      }
      more := end.AllAnswered?;
    }

    /** The main loop. */
    method Run(input: string, env: Env) returns (events: seq<Event>, requests: seq<History>, closing: Option<History>)
      modifies this
      ensures history == Left(env, old(history), input)
      ensures events == Events(env)
      ensures requests == Requests(env, old(history), input)
      ensures closing == ClosingRequest(env, old(history), input)
    {
      events, requests, closing := [], [], None;
      ghost var h0 := history;
      var task := input;
      var i := 1;
      while true
        invariant 1 <= i <= MAX_ITERATIONS + 1 && task == Task(input, i)
        invariant Running(env, h0, input, i, history, events, requests)
        invariant closing == None
        decreases MAX_ITERATIONS + 1 - i
      {
        if env.cancelled(i) {
          StopsUnasked(env, h0, input, i, history, events, requests);
          return events + [RunCancelled], requests, None;
        }
        if i > MAX_ITERATIONS {
          StopsUnasked(env, h0, input, i, history, events, requests);
          return events + [RunError], requests, None;
        }
        ghost var h, asked := history, requests;
        requests := requests + [history];
        var reply := env.llm(i);
        if reply.LLMFailed? {
          StopsUnanswered(env, h0, input, i, h, events, asked);
          return events + [RunError], requests, None;
        }
        AbsorbTask(task, reply);
        task := "";
        if reply.NoChoices? {
          StopsUnanswered(env, h0, input, i, h, events, asked);
          return events + [RunError], requests, None;
        }
        var more;
        ghost var before := events;
        more, events, closing := Turn(reply, env.Tools(i), env.summary, events);
        if !more {
          StopsAfterTurn(env, h0, input, i, h, before, asked, history, events, closing);
          return;
        }
        TurnsOn(env, h0, input, i, h, before, asked, history, events, closing);
        i := i + 1;
      }
    }
  }

  /** The history, the events and the closing request after one iteration. */
  ghost predicate Turned(h: History, reply: Reply, tool: nat -> Outcome, summary: Summary, before: seq<Event>,
                         after: History, events: seq<Event>, closing: Option<History>)
    requires reply.Choice?
  {
    && after == TurnHistory(h, reply, tool, summary)
    && events == before + TurnEvents(reply, tool) + Shown(TurnVerdict(reply, tool, summary))
    && closing == if EndOf(reply.calls, tool).FinalizeDone? then Some(h + BatchHistory(reply, tool)) else None
  }

  /** The run is over with this outcome. */
  ghost predicate Stopped(env: Env, h0: History, input: string, h: History, events: seq<Event>, requests: seq<History>,
                          closing: Option<History>)
  {
    && h == Left(env, h0, input) && events == Events(env)
    && requests == Requests(env, h0, input) && closing == ClosingRequest(env, h0, input)
  }

  /** The state of the loop when iteration i starts. */
  ghost predicate Running(env: Env, h0: History, input: string, i: nat, h: History, events: seq<Event>,
                          requests: seq<History>)
  {
    && GetsTo(env, i) && h == HistoryAt(env, h0, input, i) && events == EventsAt(env, i)
    && 1 <= i && requests == RequestsUpTo(env, h0, input, i - 1)
  }

  lemma StopsUnasked(env: Env, h0: History, input: string, i: nat, h: History, events: seq<Event>,
      requests: seq<History>)
    requires Running(env, h0, input, i, h, events, requests) && !Asks(env, i)
    ensures Stopped(env, h0, input, h, events + [if env.cancelled(i) then RunCancelled else RunError], requests, None)
  {
    LastTurnIs(env, i);
    assert events + [] == events;
  }

  lemma StopsUnanswered(env: Env, h0: History, input: string, i: nat, h: History, events: seq<Event>,
                        requests: seq<History>)
    requires Running(env, h0, input, i, h, events, requests) && Asks(env, i) && !env.llm(i).Choice?
    ensures Stopped(env, h0, input, if env.llm(i).LLMFailed? then h else Absorbed(h, Task(input, i), env.llm(i)),
                    events + [RunError], requests + [h], None)
  {
    LastTurnIs(env, i);
    assert events + [] == events;
  }

  lemma StopsAfterTurn(env: Env, h0: History, input: string, i: nat, h: History, before: seq<Event>,
                       requests: seq<History>, after: History, events: seq<Event>, closing: Option<History>)
    requires Running(env, h0, input, i, h, before, requests) && Asks(env, i) && env.llm(i).Choice?
    requires env.llm(i).calls == [] || !EndOf(env.llm(i).calls, env.Tools(i)).AllAnswered?
    requires Turned(Absorbed(h, Task(input, i), env.llm(i)), env.llm(i), env.Tools(i), env.summary, before,
                    after, events, closing)
    ensures Stopped(env, h0, input, after, events, requests + [h], closing)
  {
    LastTurnIs(env, i);
  }

  lemma TurnsOn(env: Env, h0: History, input: string, i: nat, h: History, before: seq<Event>, requests: seq<History>,
                after: History, events: seq<Event>, closing: Option<History>)
    requires Running(env, h0, input, i, h, before, requests) && GoesOn(env, i)
    requires Turned(Absorbed(h, Task(input, i), env.llm(i)), env.llm(i), env.Tools(i), env.summary, before,
                    after, events, closing)
    ensures Running(env, h0, input, i + 1, after, events, requests + [h]) && closing == None
  {
    var told := before + TurnEvents(env.llm(i), env.Tools(i));
    assert told + [] == told;
  }

  lemma LastTurnIs(env: Env, i: nat)
    requires GetsTo(env, i) && !GoesOn(env, i)
    ensures LastTurn(env) == i
  {
    var r := LastTurn(env);
    if i < r { GetsToEarlier(env, r, i); } else { GetsToEarlier(env, i, r); }
  }

  // ---------- one run-state event ----------

  /** The run gets as far as call k of iteration i. */
  predicate Reaches(env: Env, i: nat, k: nat) {
    && GetsTo(env, i) && Asks(env, i) && env.llm(i).Choice?
    && k < |env.llm(i).calls| && forall m :: 0 <= m < k ==> !Ends(env.llm(i).calls[m], env.tool(i, m))
  }

  /** The run is cancelled while or right after it executes a tool. */
  ghost predicate CutShort(env: Env) {
    exists i: nat, k: nat :: Reaches(env, i, k) && env.llm(i).calls[k].name != INPUT_TOOL && env.tool(i, k).Cancelled()
  }

  lemma VerdictUnlessCutShort(env: Env)
    ensures Verdict(env).None? <==> CutShort(env)
  {
    var r := LastTurn(env);
    if Verdict(env).None? {
      var k := FirstEnd(env.llm(r).calls, env.Tools(r));
      assert EndOf(env.llm(r).calls, env.Tools(r)).Dropped?;
      assert forall m :: 0 <= m < k ==> env.Tools(r)(m) == env.tool(r, m);
      assert Reaches(env, r, k) && env.Tools(r)(k) == env.tool(r, k);
    }
    if CutShort(env) {
      var i: nat, k: nat :|
        Reaches(env, i, k) && env.llm(i).calls[k].name != INPUT_TOOL && env.tool(i, k).Cancelled();
      CutIsLast(env, i, k);
    }
  }

  lemma CutIsLast(env: Env, i: nat, k: nat)
    requires Reaches(env, i, k) && env.llm(i).calls[k].name != INPUT_TOOL && env.tool(i, k).Cancelled()
    ensures LastTurn(env) == i && Verdict(env).None?
  {
    var calls, tool := env.llm(i).calls, env.Tools(i);
    assert forall m :: 0 <= m <= k ==> tool(m) == env.tool(i, m);
    LastTurnIs(env, i);
  }

  lemma {:induction false} CallEventsQuiet(calls: seq<Call>, n: nat)
    requires n <= |calls|
    ensures Quiet(CallEvents(calls, n))
  {
    if n > 0 { CallEventsQuiet(calls, n - 1); }
  }

  lemma TurnEventsQuiet(reply: Reply, tool: nat -> Outcome)
    ensures Quiet(TurnEvents(reply, tool))
  {
    if reply.Choice? { CallEventsQuiet(reply.calls, FirstEnd(reply.calls, tool)); }
  }

  lemma {:induction false} EventsAtQuiet(env: Env, i: nat)
    ensures Quiet(EventsAt(env, i))
  {
    if i > 1 {
      EventsAtQuiet(env, i - 1);
      TurnEventsQuiet(env.llm(i - 1), env.Tools(i - 1));
    }
  }

  lemma QuietThenVerdict(env: Env) returns (told: seq<Event>)
    ensures Quiet(told) && Events(env) == told + Shown(Verdict(env))
            && (Verdict(env).Some? ==> Verdict(env).value.RunState())
  {
    var r := LastTurn(env);
    EventsAtQuiet(env, r);
    TurnEventsQuiet(env.llm(r), env.Tools(r));
    told := EventsAt(env, r) + if Asks(env, r) then TurnEvents(env.llm(r), env.Tools(r)) else [];
  }

  /**
   * Main result: every run tells exactly one run-state event, its verdict, as its last event; none at all if and only
   * if some call it reached, other than an input request, was cancelled.
   */
  lemma OneVerdict(env: Env)
    ensures if CutShort(env) then Quiet(Events(env)) else EndsOnce(Events(env))
  {
    VerdictUnlessCutShort(env);
    var told := QuietThenVerdict(env);
    if CutShort(env) { assert told + [] == told; } else { assert Events(env)[..|told|] == told; }
  }

  /** Runs that are cut short exist: one tool call, cancelled while it executes. */
  lemma SomeRunIsCutShort() returns (env: Env)
    ensures Short(env) && CutShort(env)
  {
    var call := Call("c", "sql", "");
    env := Env((i: nat) => false, (i: nat) => Choice(0, "", "", [call], false),
               (i: nat, k: nat) => Outcome("", true, true, false, false), SummaryFailed);
    assert Reaches(env, 1, 0) && env.llm(1).calls[0] == call && env.tool(1, 0).Cancelled();
  }

  /** And runs that leave a call unanswered: an input request with another call behind it. */
  lemma SomeRunStaysOpen() returns (env: Env)
    ensures Short(env) && Suspends(env) && !Completes(env) && !RoundCloses(env)
  {
    var calls := [Call("c", INPUT_TOOL, ""), Call("d", "sql", "")];
    env := Env((i: nat) => false, (i: nat) => Choice(0, "", "", calls, false),
               (i: nat, k: nat) => Outcome("", true, false, false, false), SummaryFailed);
    assert FirstEnd(calls, env.Tools(1)) == 0;
    LastTurnIs(env, 1);
    assert env.llm(1).calls[1].name != INPUT_TOOL;
  }

  // ---------- pairing over the run ----------

  /** No batch is longer than the look-back of the compaction. */
  ghost predicate Short(env: Env) {
    forall i: nat :: env.llm(i).Choice? ==> |env.llm(i).calls| <= LOOK_BACK
  }

  lemma {:induction false} BatchNear(h: History, text: string, calls: seq<Call>, results: History)
    requires Near(h, LOOK_BACK) && |results| <= |calls| <= LOOK_BACK && Answers(calls[..|results|], results)
    ensures Near(h + [Assistant(text, calls)] + results, LOOK_BACK)
    decreases |results|
  {
    var message := h + [Assistant(text, calls)];
    if results == [] {
      AppendPlain(h, Assistant(text, calls), LOOK_BACK);
      assert message + [] == message;
    } else {
      var n := |results| - 1;
      var shorter := results[..n];
      assert calls[..n] == calls[..|results|][..n];
      BatchNear(h, text, calls, shorter);
      var sofar := message + shorter;
      assert sofar[|h|] == Assistant(text, calls);
      assert forall k :: |h| < k < |sofar| ==> sofar[k] == shorter[k - |h| - 1];
      assert calls[n] in calls && calls[..|results|][n] == calls[n];
      AppendResult(sofar, |h|, calls[n].id, results[n].text, LOOK_BACK);
      assert message + results == sofar + [results[n]];
    }
  }

  lemma AppendItem(h: History, it: Item, answered: bool)
    requires Near(h, LOOK_BACK) && (answered ==> Answered(h)) && it.Plain()
    ensures Near(h + [it], LOOK_BACK) && (answered ==> Answered(h + [it]))
  {
    AppendPlain(h, it, LOOK_BACK);
    if answered {
      AnsweredAppend(h, [it]);
    }
  }

  lemma CompactBoth(h: History, tokens: int, digest: string, answered: bool)
    requires Near(h, LOOK_BACK) && (answered ==> Answered(h))
    ensures Near(Compact(h, tokens, digest), LOOK_BACK) && (answered ==> Answered(Compact(h, tokens, digest)))
  {
    CompactKeepsNear(h, tokens, digest);
    if answered { CompactKeepsAnswered(h, tokens, digest); }
  }

  lemma AbsorbKeeps(h: History, task: string, reply: Reply, answered: bool)
    requires Near(h, LOOK_BACK) && (answered ==> Answered(h)) && !reply.LLMFailed?
    ensures Near(Absorbed(h, task, reply), LOOK_BACK) && (answered ==> Answered(Absorbed(h, task, reply)))
  {
    if task != "" { AppendItem(h, User(task), answered); }
    CompactBoth(if task != "" then h + [User(task)] else h, reply.tokens, reply.digest, answered);
  }

  /** A batch keeps the history paired, and answered exactly when every call was reached. */
  lemma BatchKeeps(h: History, reply: Reply, tool: nat -> Outcome)
    requires Near(h, LOOK_BACK) && reply.Choice? && |reply.calls| <= LOOK_BACK
    ensures Near(h + BatchHistory(reply, tool), LOOK_BACK)
    ensures Answered(h) ==> (Answered(h + BatchHistory(reply, tool)) <==> Reached(reply.calls, tool) == |reply.calls|)
  {
    var results := ResultsOf(reply.calls, tool, Reached(reply.calls, tool));
    Assoc(h, [Assistant(reply.content, reply.calls)], results);
    BatchNear(h, reply.content, reply.calls, results);
    if Answered(h) { BatchAnsweredIffComplete(h, reply.content, reply.calls, results); }
  }

  lemma AfterTurnKeeps(env: Env, h: History, input: string, i: nat, answered: bool)
    requires Near(h, LOOK_BACK) && (answered ==> Answered(h)) && Short(env) && GoesOn(env, i)
    ensures Near(AfterTurn(env, h, input, i), LOOK_BACK) && (answered ==> Answered(AfterTurn(env, h, input, i)))
  {
    AbsorbKeeps(h, Task(input, i), env.llm(i), answered);
    BatchKeeps(Absorbed(h, Task(input, i), env.llm(i)), env.llm(i), env.Tools(i));
  }

  lemma {:induction false} HistoryAtKeeps(env: Env, h0: History, input: string, i: nat, answered: bool)
    requires Near(h0, LOOK_BACK) && (answered ==> Answered(h0)) && Short(env)
    requires GetsTo(env, i)
    ensures Near(HistoryAt(env, h0, input, i), LOOK_BACK) && (answered ==> Answered(HistoryAt(env, h0, input, i)))
  {
    if i > 1 {
      HistoryAtKeeps(env, h0, input, i - 1, answered);
      AfterTurnKeeps(env, HistoryAt(env, h0, input, i - 1), input, i - 1, answered);
    }
  }

  lemma {:induction false} RequestIs(env: Env, h0: History, input: string, m: nat, n: nat)
    requires n < m
    ensures RequestsUpTo(env, h0, input, m)[n] == HistoryAt(env, h0, input, n + 1)
  {
    if n < m - 1 { RequestIs(env, h0, input, m - 1, n); }
  }

  lemma PairedAt(env: Env, h0: History, input: string, i: nat)
    requires Near(h0, LOOK_BACK) && Short(env) && GetsTo(env, i)
    ensures var h := HistoryAt(env, h0, input, i);
            Near(h, LOOK_BACK) && (Answered(h0) ==> Answered(h) && ResultIds(h) == CallIds(h))
  {
    HistoryAtKeeps(env, h0, input, i, Answered(h0));
    if Answered(h0) { AnsweredMatchesIds(HistoryAt(env, h0, input, i)); }
  }

  /** Main result: no request has an orphan, and from an answered start every request has every call answered once. */
  lemma RequestsArePaired(env: Env, h0: History, input: string, n: nat)
    requires Near(h0, LOOK_BACK) && Short(env) && n < |Requests(env, h0, input)|
    ensures var request := Requests(env, h0, input)[n];
            Near(request, LOOK_BACK)
            && (Answered(h0) ==> Answered(request) && ResultIds(request) == CallIds(request))
  {
    RequestIs(env, h0, input, |Requests(env, h0, input)|, n);
    GetsToEarlier(env, LastTurn(env), n + 1);
    PairedAt(env, h0, input, n + 1);
  }

  lemma ClosedKeepsNear(h: History, summary: Summary)
    requires Near(h, LOOK_BACK)
    ensures Near(Closed(h, summary), LOOK_BACK) && (Answered(h) ==> Answered(Closed(h, summary)))
  {
    if summary.Usable() {
      AppendItem(h, Assistant(Trim(summary.text), []), Answered(h));
      CompactBoth(h + [Assistant(Trim(summary.text), [])], summary.tokens, summary.digest, Answered(h));
    }
  }

  /** A cut that keeps at least 12 items and starts outside every batch keeps a short tail whole. */
  lemma CutBeforeTail(h: History, tail: History, r: nat)
    requires |tail| <= RECENT_WINDOW && r <= |h + tail| && (r == 0 || |h + tail| - r >= RECENT_WINDOW)
    ensures r <= |h| && (h + tail)[r..] == h[r..] + tail && (r < |h| ==> (h + tail)[r] == h[r])
  {
  }

  lemma CutLeavesOpen(h: History, text: string, calls: seq<Call>, results: History, last: Item, r: nat)
    requires Answered(h) && last.Plain() && |results| < |calls| <= LOOK_BACK
    requires r <= |h| && (r < |h| ==> r == 0 || !h[r].Tool?)
    ensures !Answered(h[r..] + ([Assistant(text, calls)] + results + [last]))
  {
    if r == 0 { assert h[0..] == h; } else { AnsweredSuffix(h, r); }
    OpenBatchStaysOpen(h[r..], text, calls, results, [last]);
    TailSplits(h[r..], [Assistant(text, calls)], results, [last]);
  }

  /** The closing words do not hide an incomplete batch: even compaction keeps it. */
  lemma OpenBatchSurvives(h: History, text: string, calls: seq<Call>, results: History, last: Item, tokens: int,
                          digest: string)
    requires Near(h, LOOK_BACK) && Answered(h) && last.Plain()
    requires |results| < |calls| <= LOOK_BACK && Answers(calls[..|results|], results)
    ensures !Answered(Compact(h + [Assistant(text, calls)] + results + [last], tokens, digest))
  {
    var batch := h + [Assistant(text, calls)] + results;
    var tail := [Assistant(text, calls)] + results + [last];
    BatchNear(h, text, calls, results);
    AppendPlain(batch, last, LOOK_BACK);
    var r := CompactIsSuffix(batch + [last], tokens, digest);
    TailSplits(h, [Assistant(text, calls)], results, [last]);
    CutBeforeTail(h, tail, r);
    CutLeavesOpen(h, text, calls, results, last, r);
  }

  lemma TailSplits(a: History, b: History, c: History, d: History)
    ensures a + b + c + d == a + (b + c + d)
  {
  }

  lemma ClosedAnsweredIff(h: History, reply: Reply, tool: nat -> Outcome, summary: Summary)
    requires Near(h, LOOK_BACK) && Answered(h) && reply.Choice? && |reply.calls| <= LOOK_BACK
    ensures Answered(Closed(h + BatchHistory(reply, tool), summary)) <==> Reached(reply.calls, tool) == |reply.calls|
  {
    var results := ResultsOf(reply.calls, tool, Reached(reply.calls, tool));
    BatchKeeps(h, reply, tool);
    ClosedKeepsNear(h + BatchHistory(reply, tool), summary);
    if Reached(reply.calls, tool) < |reply.calls| && summary.Usable() {
      Assoc(h, [Assistant(reply.content, reply.calls)], results);
      OpenBatchSurvives(h, reply.content, reply.calls, results, Assistant(Trim(summary.text), []), summary.tokens,
        summary.digest);
    }
  }

  /** Nothing ended the last batch of the run, or a successful finalize did and was its last call. */
  ghost predicate Completes(env: Env) {
    var r := LastTurn(env);
    Asks(env, r) && env.llm(r).Choice? ==>
      var calls, tool := env.llm(r).calls, env.Tools(r);
      EndOf(calls, tool).AllAnswered? || (EndOf(calls, tool).FinalizeDone? && FirstEnd(calls, tool) == |calls| - 1)
  }

  lemma TurnKeeps(h: History, reply: Reply, tool: nat -> Outcome, summary: Summary)
    requires Near(h, LOOK_BACK) && reply.Choice? && |reply.calls| <= LOOK_BACK
    ensures Near(TurnHistory(h, reply, tool, summary), LOOK_BACK)
    ensures Answered(h) ==>
              (Answered(TurnHistory(h, reply, tool, summary)) <==> Reached(reply.calls, tool) == |reply.calls|)
  {
    if reply.calls == [] {
      if reply.content != "" { AppendItem(h, Assistant(reply.content, []), Answered(h)); }
    } else {
      BatchKeeps(h, reply, tool);
      ClosedKeepsNear(h + BatchHistory(reply, tool), summary);
      if Answered(h) { ClosedAnsweredIff(h, reply, tool, summary); }
    }
  }

  /**
   * Main result: a run leaves a paired history, and from an answered start an answered one if and only if it completes.
   */
  lemma LeftIsPaired(env: Env, h0: History, input: string)
    requires Near(h0, LOOK_BACK) && Short(env)
    ensures Near(Left(env, h0, input), LOOK_BACK)
    ensures Answered(h0) ==> (Answered(Left(env, h0, input)) <==> Completes(env))
  {
    var r := LastTurn(env);
    var h, reply := HistoryAt(env, h0, input, r), env.llm(r);
    HistoryAtKeeps(env, h0, input, r, Answered(h0));
    if Asks(env, r) && !reply.LLMFailed? {
      AbsorbKeeps(h, Task(input, r), reply, Answered(h0));
      if reply.Choice? { TurnKeeps(Absorbed(h, Task(input, r), reply), reply, env.Tools(r), env.summary); }
    }
  }

  /** The request for the closing words is answered exactly when the finalize call is the last of its batch. */
  lemma ClosingRequestIsPaired(env: Env, h0: History, input: string)
    requires Near(h0, LOOK_BACK) && Short(env) && Finalizes(env)
    ensures var request := ClosingRequest(env, h0, input).value;
            var r := LastTurn(env);
            Near(request, LOOK_BACK)
            && (Answered(h0) ==>
                  (Answered(request) <==> FirstEnd(env.llm(r).calls, env.Tools(r)) == |env.llm(r).calls| - 1))
  {
    var r := LastTurn(env);
    var h, reply := HistoryAt(env, h0, input, r), env.llm(r);
    HistoryAtKeeps(env, h0, input, r, Answered(h0));
    AbsorbKeeps(h, Task(input, r), reply, Answered(h0));
    BatchKeeps(Absorbed(h, Task(input, r), reply), reply, env.Tools(r));
  }

  // ---------- runs and replies over a session ----------

  /** The run stopped to ask the user. */
  ghost predicate Suspends(env: Env) {
    Verdict(env) == Some(UserRequestInput)
  }

  function Replied(h: History, reply: string): History {
    AnswerAll(h, PendingIds(h), reply)
  }

  /** One run and, when it stopped to ask, the user's reply. */
  datatype Round = Round(env: Env, input: string, reply: string)

  ghost function AfterRound(h: History, round: Round): History {
    var left := Left(round.env, h, round.input);
    if Suspends(round.env) then Replied(left, round.reply) else left
  }

  ghost function AfterRounds(h: History, rounds: seq<Round>): History {
    if rounds == [] then h else AfterRound(AfterRounds(h, rounds[..|rounds| - 1]), rounds[|rounds| - 1])
  }

  /** Where a suspended run stands in its last batch. */
  lemma SuspendedShape(env: Env, h0: History, input: string) returns (before: History, results: History)
    requires Near(h0, LOOK_BACK) && Short(env) && Suspends(env)
    ensures var reply := env.llm(LastTurn(env));
            && reply.Choice? && |reply.calls| <= LOOK_BACK
            && |results| == FirstEnd(reply.calls, env.Tools(LastTurn(env))) < |reply.calls|
            && Answers(reply.calls[..|results|], results) && reply.calls[|results|].name == INPUT_TOOL
            && (forall k :: 0 <= k < |results| ==> reply.calls[k].name != INPUT_TOOL)
            && Left(env, h0, input) == before + [Assistant(reply.content, reply.calls)] + results
            && (Answered(h0) ==> Answered(before))
  {
    var r := LastTurn(env);
    var h, reply, tool := HistoryAt(env, h0, input, r), env.llm(r), env.Tools(r);
    assert Asks(env, r) && reply.Choice? && reply.calls != [] && EndOf(reply.calls, tool).Asked?;
    before, results := Absorbed(h, Task(input, r), reply), ResultsOf(reply.calls, tool, FirstEnd(reply.calls, tool));
    HistoryAtKeeps(env, h0, input, r, Answered(h0));
    AbsorbKeeps(h, Task(input, r), reply, Answered(h0));
    Assoc(before, [Assistant(reply.content, reply.calls)], results);
  }

  /** The calls the suspended run left open have ids of their own. */
  predicate OpenIdsFresh(h: History, calls: seq<Call>, k: nat) {
    && (forall i, j :: k <= i < j < |calls| ==> calls[i].id != calls[j].id)
    && (forall i :: k <= i < |calls| ==> !HasResult(h, calls[i].id))
  }

  ghost predicate RepliesFresh(h: History, round: Round) {
    var r := LastTurn(round.env);
    Suspends(round.env) && round.env.llm(r).Choice? ==>
      OpenIdsFresh(Left(round.env, h, round.input), round.env.llm(r).calls,
                   FirstEnd(round.env.llm(r).calls, round.env.Tools(r)))
  }

  /** The run completes, or it stopped to ask with nothing but input requests left. */
  ghost predicate RoundCloses(env: Env) {
    var r := LastTurn(env);
    if !Suspends(env) || !env.llm(r).Choice? then Completes(env)
    else forall k :: FirstEnd(env.llm(r).calls, env.Tools(r)) <= k < |env.llm(r).calls| ==>
           env.llm(r).calls[k].name == INPUT_TOOL
  }

  /** Main result: a round keeps the history paired, and keeps it answered if and only if it closes. */
  lemma RoundKeeps(h: History, round: Round)
    requires Near(h, LOOK_BACK) && Short(round.env)
    ensures Near(AfterRound(h, round), LOOK_BACK)
    ensures Answered(h) && RepliesFresh(h, round) ==> (Answered(AfterRound(h, round)) <==> RoundCloses(round.env))
  {
    LeftIsPaired(round.env, h, round.input);
    if Suspends(round.env) {
      var reply := round.env.llm(LastTurn(round.env));
      var before, results := SuspendedShape(round.env, h, round.input);
      ReplyKeepsNear(before, reply.content, reply.calls, results, round.reply);
      if Answered(h) && RepliesFresh(h, round) {
        ReplyCompletesIff(before, reply.content, reply.calls, results, round.reply);
      }
    }
  }

  /** Main result: over a whole session of runs and replies no history ever has an orphan. */
  lemma {:induction false} SessionStaysPaired(rounds: seq<Round>)
    requires forall n :: 0 <= n < |rounds| ==> Short(rounds[n].env)
    ensures Near(AfterRounds([], rounds), LOOK_BACK)
  {
    if rounds != [] {
      var n := |rounds| - 1;
      SessionStaysPaired(rounds[..n]);
      RoundKeeps(AfterRounds([], rounds[..n]), rounds[n]);
    }
  }

  /** Every round of the session has short batches, closes, and leaves open calls with ids of their own. */
  ghost predicate AllClose(rounds: seq<Round>) {
    rounds == [] ||
    var n := |rounds| - 1;
    && AllClose(rounds[..n]) && Short(rounds[n].env) && RoundCloses(rounds[n].env)
    && RepliesFresh(AfterRounds([], rounds[..n]), rounds[n])
  }

  /** Main result: while every round closes, every call of the session is answered. */
  lemma {:induction false} SessionStaysAnswered(rounds: seq<Round>)
    requires AllClose(rounds)
    ensures Answered(AfterRounds([], rounds)) && Near(AfterRounds([], rounds), LOOK_BACK)
  {
    if rounds != [] {
      var n := |rounds| - 1;
      SessionStaysAnswered(rounds[..n]);
      RoundKeeps(AfterRounds([], rounds[..n]), rounds[n]);
    }
  }

  /** The backward search for the last message with input requests. */
  method FindPending(h: History) returns (pending: seq<string>)
    ensures pending == PendingIds(h)
  {
    pending := [];
    var i := |h| - 1;
    assert h[..i + 1] == h;
    while i >= 0
      invariant -1 <= i < |h| && pending == [] && PendingIds(h) == PendingIds(h[..i + 1])
    {
      assert h[..i + 1][..i] == h[..i];
      if h[i].Assistant? {
        pending := CollectInputs(h[i].calls);
        if pending != [] { return; }
      }
      i := i - 1;
    }
  }

  /** The loop that answers every pending id that has no result yet. */
  method FillAnswers(h: History, pending: seq<string>, reply: string) returns (r: History, appended: bool)
    ensures r == AnswerAll(h, pending, reply) && (appended <==> r != h)
  {
    r, appended := h, false;
    assert pending[0..] == pending;
    for n := 0 to |pending|
      invariant AnswerAll(h, pending, reply) == AnswerAll(r, pending[n..], reply)
      invariant |h| <= |r| && (appended <==> |r| > |h|) && (!appended ==> r == h)
    {
      var found := FindResult(r, pending[n]);
      assert pending[n..][1..] == pending[n + 1..];
      if !found {
        r := r + [Tool(pending[n], reply)];
        appended := true;
      }
    }
  }

  method CollectInputs(calls: seq<Call>) returns (ids: seq<string>)
    ensures ids == InputIds(calls)
  {
    ids := [];
    assert calls[0..] == calls;
    for n := 0 to |calls|
      invariant InputIds(calls) == ids + InputIds(calls[n..])
    {
      assert calls[n..][1..] == calls[n + 1..];
      if calls[n].name == INPUT_TOOL { ids := ids + [calls[n].id]; }
    }
  }

  method FindResult(h: History, id: string) returns (found: bool)
    ensures found <==> HasResult(h, id)
  {
    var j := |h| - 1;
    while j >= 0
      invariant -1 <= j < |h| && forall k :: j < k < |h| ==> !(h[k].Tool? && h[k].callId == id)
    {
      if h[j].Tool? && h[j].callId == id { return true; }
      j := j - 1;
    }
    return false;
  }

  datatype WorkerOutcome = WorkerOutcome(text: string, failed: bool, failure: string)

  datatype WorkerEnd = WorkerCancelled | WorkerFailed | WorkerDone(result: string) | WorkerExhausted

  /** A delegate's calls are all executed; a failed one returns its failure as the result. */
  function WorkerResults(calls: seq<Call>, tool: nat -> WorkerOutcome): History {
    seq(|calls|, k requires 0 <= k < |calls| =>
      Tool(calls[k].id, if tool(k).failed then tool(k).failure else tool(k).text))
  }

  function WorkerTools(tool: (nat, nat) -> WorkerOutcome, i: nat): nat -> WorkerOutcome {
    (k: nat) => tool(i, k)
  }

  /** The delegate's history after a reply that lets it go on. */
  function AfterWorkerTurn(h: History, task: string, reply: Reply, tool: nat -> WorkerOutcome): History {
    if !reply.Choice? then h
    else if reply.calls == [] then Absorbed(h, task, reply)
    else Absorbed(h, task, reply) + [Assistant(reply.content, reply.calls)] + WorkerResults(reply.calls, tool)
  }

  /** The delegate's history when iteration i starts: its instruction first, then messages with their results. */
  function WorkerHistoryAt(instruction: string, llm: nat -> Reply, tool: (nat, nat) -> WorkerOutcome, i: nat): History {
    if i == 0 then [] else
      AfterWorkerTurn(WorkerHistoryAt(instruction, llm, tool, i - 1), if i == 1 then instruction else "", llm(i - 1),
                      WorkerTools(tool, i - 1))
  }

  /** Iteration i of the delegate is followed by another one. */
  predicate WorkerGoesOn(cancelled: nat -> bool, llm: nat -> Reply, i: nat) {
    i < MAX_WORKER_ITERATIONS && !cancelled(i) && llm(i).Choice? && !(llm(i).stop && llm(i).calls == [])
  }

  predicate WorkerGetsTo(cancelled: nat -> bool, llm: nat -> Reply, i: nat) {
    i == 0 || (WorkerGoesOn(cancelled, llm, i - 1) && WorkerGetsTo(cancelled, llm, i - 1))
  }

  /** The first n requests of the delegate. */
  function WorkerRequests(instruction: string, llm: nat -> Reply, tool: (nat, nat) -> WorkerOutcome, n: nat)
    : (s: seq<History>)
    ensures |s| == n
  {
    if n == 0 then []
    else WorkerRequests(instruction, llm, tool, n - 1) + [WorkerHistoryAt(instruction, llm, tool, n - 1)]
  }

  /** One iteration of a delegate that goes on: instruction or nothing, compaction, then the batch if there is one. */
  lemma WorkerTurn(h: History, task: string, reply: Reply, calls: nat -> WorkerOutcome)
    requires Near(h, LOOK_BACK) && Answered(h) && reply.Choice? && |reply.calls| <= LOOK_BACK
    ensures var absorbed := Absorbed(h, task, reply);
            var after := absorbed + [Assistant(reply.content, reply.calls)] + WorkerResults(reply.calls, calls);
            && Near(absorbed, LOOK_BACK) && Answered(absorbed) && Near(after, LOOK_BACK) && Answered(after)
  {
    var absorbed := Absorbed(h, task, reply);
    var results := WorkerResults(reply.calls, calls);
    AbsorbKeeps(h, task, reply, true);
    assert reply.calls[..|results|] == reply.calls;
    BatchNear(absorbed, reply.content, reply.calls, results);
    BatchAnsweredIffComplete(absorbed, reply.content, reply.calls, results);
  }

  lemma {:induction false} WorkerHistoryKeeps(instruction: string, cancelled: nat -> bool, llm: nat -> Reply,
                                              tool: (nat, nat) -> WorkerOutcome, i: nat)
    requires (forall j :: llm(j).Choice? ==> |llm(j).calls| <= LOOK_BACK) && WorkerGetsTo(cancelled, llm, i)
    ensures Near(WorkerHistoryAt(instruction, llm, tool, i), LOOK_BACK)
    ensures Answered(WorkerHistoryAt(instruction, llm, tool, i))
  {
    if i > 0 {
      WorkerHistoryKeeps(instruction, cancelled, llm, tool, i - 1);
      WorkerTurn(WorkerHistoryAt(instruction, llm, tool, i - 1), if i == 1 then instruction else "", llm(i - 1),
                 WorkerTools(tool, i - 1));
    }
  }

  lemma {:induction false} WorkerRequestsPaired(instruction: string, cancelled: nat -> bool, llm: nat -> Reply,
                                                tool: (nat, nat) -> WorkerOutcome, n: nat)
    requires forall j :: llm(j).Choice? ==> |llm(j).calls| <= LOOK_BACK
    requires n > 0 ==> WorkerGetsTo(cancelled, llm, n - 1)
    ensures forall r :: r in WorkerRequests(instruction, llm, tool, n) ==>
              Near(r, LOOK_BACK) && Answered(r) && ResultIds(r) == CallIds(r)
  {
    if n > 0 {
      WorkerRequestsPaired(instruction, cancelled, llm, tool, n - 1);
      WorkerHistoryKeeps(instruction, cancelled, llm, tool, n - 1);
      AnsweredMatchesIds(WorkerHistoryAt(instruction, llm, tool, n - 1));
    }
  }

  /** How a delegate's run ends: at the first iteration it does not go beyond. */
  ghost function WorkerEndOf(cancelled: nat -> bool, llm: nat -> Reply, last: nat): WorkerEnd {
    if last >= MAX_WORKER_ITERATIONS then WorkerExhausted
    else if cancelled(last) then WorkerCancelled
    else if llm(last).Choice? then WorkerDone(Trim(llm(last).content)) else WorkerFailed
  }

  /**
   * The delegate loop: no call ends a batch early, so every request of every delegate run answers each call of its
   * history exactly once, and there are at most 25 requests. The run stops at the first iteration that is cancelled,
   * fails, or replies without calls and says so, and returns the text of that reply.
   */
  method RunDelegate(instruction: string, cancelled: nat -> bool, llm: nat -> Reply, tool: (nat, nat) -> WorkerOutcome)
    returns (end: WorkerEnd, requests: seq<History>, ghost last: nat)
    requires forall i :: llm(i).Choice? ==> |llm(i).calls| <= LOOK_BACK
    ensures |requests| <= MAX_WORKER_ITERATIONS
    ensures forall r :: r in requests ==> Near(r, LOOK_BACK) && Answered(r) && ResultIds(r) == CallIds(r)
    ensures WorkerGetsTo(cancelled, llm, last) && last <= MAX_WORKER_ITERATIONS && !WorkerGoesOn(cancelled, llm, last)
    ensures requests == WorkerRequests(instruction, llm, tool,
                                       if last == MAX_WORKER_ITERATIONS || cancelled(last) then last else last + 1)
    ensures end == WorkerExhausted <==> last == MAX_WORKER_ITERATIONS
    ensures end == WorkerCancelled <==> last < MAX_WORKER_ITERATIONS && cancelled(last)
    ensures last < MAX_WORKER_ITERATIONS && !cancelled(last) ==>
              end == if llm(last).Choice? then WorkerDone(Trim(llm(last).content)) else WorkerFailed
  {
    end, requests, last := DelegateLoop(instruction, cancelled, llm, tool);
    WorkerRequestsPaired(instruction, cancelled, llm, tool, |requests|);
  }

  /** One iteration of the delegate after the model has replied. */
  method DelegateTurn(history: History, task: string, reply: Reply, tool: nat -> WorkerOutcome)
    returns (stop: bool, r: History)
    requires Near(history, LOOK_BACK) && Answered(history) && !reply.LLMFailed?
    requires reply.Choice? ==> |reply.calls| <= LOOK_BACK
    ensures stop <==> reply.NoChoices? || (reply.stop && reply.calls == [])
    ensures !stop ==> r == AfterWorkerTurn(history, task, reply, tool)
  {
    r := history;
    if task != "" { r := r + [User(task)]; }
    r := CompactWorkerBundle(r, reply.tokens, reply.digest);
    if reply.NoChoices? { return true, r; }
    if reply.stop && reply.calls == [] { return true, r; }
    WorkerTurn(history, task, reply, tool);
    if reply.calls != [] { r := RunWorkerBatch(r, reply.content, reply.calls, tool); }
    return false, r;
  }

  /** The state of the delegate's loop when iteration i starts. */
  ghost predicate WorkerRunning(instruction: string, cancelled: nat -> bool, llm: nat -> Reply,
                                tool: (nat, nat) -> WorkerOutcome, i: nat, history: History, requests: seq<History>)
  {
    && WorkerGetsTo(cancelled, llm, i) && history == WorkerHistoryAt(instruction, llm, tool, i)
    && requests == WorkerRequests(instruction, llm, tool, i)
  }

  /** The delegate's run is over, at iteration `last`. */
  ghost predicate WorkerStopped(instruction: string, cancelled: nat -> bool, llm: nat -> Reply,
                                tool: (nat, nat) -> WorkerOutcome, end: WorkerEnd, requests: seq<History>, last: nat)
  {
    && WorkerGetsTo(cancelled, llm, last) && last <= MAX_WORKER_ITERATIONS && !WorkerGoesOn(cancelled, llm, last)
    && requests == WorkerRequests(instruction, llm, tool,
                                  if last == MAX_WORKER_ITERATIONS || cancelled(last) then last else last + 1)
    && end == WorkerEndOf(cancelled, llm, last)
  }

  lemma WorkerStopsUnasked(instruction: string, cancelled: nat -> bool, llm: nat -> Reply,
                           tool: (nat, nat) -> WorkerOutcome, i: nat, history: History, requests: seq<History>)
    requires WorkerRunning(instruction, cancelled, llm, tool, i, history, requests)
    requires i == MAX_WORKER_ITERATIONS || (i < MAX_WORKER_ITERATIONS && cancelled(i))
    ensures WorkerStopped(instruction, cancelled, llm, tool,
                          if i == MAX_WORKER_ITERATIONS then WorkerExhausted else WorkerCancelled, requests, i)
  {
  }

  lemma WorkerStops(instruction: string, cancelled: nat -> bool, llm: nat -> Reply,
                    tool: (nat, nat) -> WorkerOutcome, i: nat, history: History, requests: seq<History>)
    requires WorkerRunning(instruction, cancelled, llm, tool, i, history, requests)
    requires i < MAX_WORKER_ITERATIONS && !cancelled(i) && !WorkerGoesOn(cancelled, llm, i)
    ensures WorkerStopped(instruction, cancelled, llm, tool,
                          if llm(i).Choice? then WorkerDone(Trim(llm(i).content)) else WorkerFailed,
                          requests + [history], i)
  {
  }

  lemma WorkerTurnsOn(instruction: string, cancelled: nat -> bool, llm: nat -> Reply,
                      tool: (nat, nat) -> WorkerOutcome, i: nat, history: History, requests: seq<History>,
                      next: History)
    requires WorkerRunning(instruction, cancelled, llm, tool, i, history, requests) && WorkerGoesOn(cancelled, llm, i)
    requires next == AfterWorkerTurn(history, if i == 0 then instruction else "", llm(i), WorkerTools(tool, i))
    ensures WorkerRunning(instruction, cancelled, llm, tool, i + 1, next, requests + [history])
  {
  }

  /** The loop of the delegate. */
  method DelegateLoop(instruction: string, cancelled: nat -> bool, llm: nat -> Reply, tool: (nat, nat) -> WorkerOutcome)
    returns (end: WorkerEnd, requests: seq<History>, ghost last: nat)
    requires forall i :: llm(i).Choice? ==> |llm(i).calls| <= LOOK_BACK
    ensures WorkerStopped(instruction, cancelled, llm, tool, end, requests, last)
  {
    var history: History := [];
    var task := instruction;
    requests, last := [], 0;
    for i := 0 to MAX_WORKER_ITERATIONS
      invariant last == i && task == (if i == 0 then instruction else "")
      invariant WorkerRunning(instruction, cancelled, llm, tool, i, history, requests)
    {
      if cancelled(i) {
        WorkerStopsUnasked(instruction, cancelled, llm, tool, i, history, requests);
        return WorkerCancelled, requests, last;
      }
      if !WorkerGoesOn(cancelled, llm, i) { WorkerStops(instruction, cancelled, llm, tool, i, history, requests); }
      ghost var before, asked := history, requests;
      requests := requests + [history];
      var reply := llm(i);
      if reply.LLMFailed? { return WorkerFailed, requests, last; }
      WorkerHistoryKeeps(instruction, cancelled, llm, tool, i);
      var stop;
      stop, history := DelegateTurn(history, task, reply, WorkerTools(tool, i));
      if stop { return if reply.Choice? then WorkerDone(Trim(reply.content)) else WorkerFailed, requests, last; }
      WorkerTurnsOn(instruction, cancelled, llm, tool, i, before, asked, history);
      task, last := "", i + 1;
    }
    WorkerStopsUnasked(instruction, cancelled, llm, tool, last, history, requests);
    return WorkerExhausted, requests, last;
  }

  method CompactWorkerBundle(history: History, promptTokens: int, digest: string) returns (r: History)
    ensures r == Compact(history, promptTokens, digest)
    ensures promptTokens <= COMPACT_TRIGGER || |history| <= RECENT_WINDOW || digest == "" ==> r == history
  {
    if |history| <= 1 { return history; }
    if promptTokens <= 0 || promptTokens <= COMPACT_TRIGGER { return history; }
    var recentStart := |history| - RECENT_WINDOW;
    if recentStart <= 0 { return history; }
    recentStart := AdjustCompactionBoundary(history, recentStart);
    if digest == "" { return history; }
    CompactCuts(history, promptTokens, digest);
    return history[recentStart..];
  }

  method RunWorkerBatch(before: History, text: string, calls: seq<Call>, tool: nat -> WorkerOutcome)
    returns (history: History)
    requires Near(before, LOOK_BACK) && Answered(before) && |calls| <= LOOK_BACK
    ensures Near(history, LOOK_BACK) && Answered(history)
    ensures history == before + [Assistant(text, calls)] + WorkerResults(calls, tool)
  {
    history := before + [Assistant(text, calls)];
    ghost var results: History := [];
    for k := 0 to |calls|
      invariant history == before + [Assistant(text, calls)] + results
      invariant |results| == k && Answers(calls[..k], results) && results == WorkerResults(calls, tool)[..k]
    {
      var o := tool(k);
      var content := if o.failed then o.failure else o.text;
      assert calls[..k + 1] == calls[..k] + [calls[k]];
      Assoc(before + [Assistant(text, calls)], results, [Tool(calls[k].id, content)]);
      history := history + [Tool(calls[k].id, content)];
      results := results + [Tool(calls[k].id, content)];
    }
    BatchNear(before, text, calls, results);
    BatchAnsweredIffComplete(before, text, calls, results);
  }
}
