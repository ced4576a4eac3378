/** What a run of the main loop tells and keeps, stated over its surroundings: server/agent/engine.go. */
module RunOutcome {
  import opened Text
  import opened Conversation
  import opened Engine

  // ---------- the last event ----------

  /** Cancellation is seen at the start of an iteration the run gets to. */
  ghost predicate SeesCancel(env: Env) {
    exists i: nat :: GetsTo(env, i) && env.cancelled(i)
  }

  /** The model replies with text and no calls. */
  ghost predicate RepliesText(env: Env) {
    exists i: nat :: GetsTo(env, i) && TextAt(env, i)
  }

  predicate TextAt(env: Env, i: nat) {
    Asks(env, i) && env.llm(i).Choice? && env.llm(i).calls == [] && env.llm(i).content != ""
  }

  /** A finalize call succeeds, and the closing words are usable. */
  ghost predicate FinalizesWell(env: Env) {
    env.summary.Usable() && exists i: nat, k: nat :: Reaches(env, i, k) && FinalizeAt(env, i, k)
  }

  predicate FinalizeAt(env: Env, i: nat, k: nat)
    requires env.llm(i).Choice? && k < |env.llm(i).calls|
  {
    env.llm(i).calls[k].name == FINALIZE_TOOL && env.tool(i, k).finalized && !env.tool(i, k).Cancelled()
  }

  /** The first call that ends a batch is an input request with readable arguments. */
  ghost predicate AsksUser(env: Env) {
    exists i: nat, k: nat :: Reaches(env, i, k) && env.llm(i).calls[k].name == INPUT_TOOL && env.tool(i, k).argsOk
  }

  lemma LastOnly(env: Env, i: nat)
    requires GetsTo(env, i) && (env.cancelled(i) || (Asks(env, i) && env.llm(i).Choice? && env.llm(i).calls == []))
    ensures LastTurn(env) == i
  {
    LastTurnIs(env, i);
  }

  /** A call that ends its batch ends the run. */
  lemma EndsTheRun(env: Env, i: nat, k: nat)
    requires Reaches(env, i, k) && Ends(env.llm(i).calls[k], env.tool(i, k))
    ensures LastTurn(env) == i && FirstEnd(env.llm(i).calls, env.Tools(i)) == k
  {
    var calls, tool := env.llm(i).calls, env.Tools(i);
    assert forall m :: 0 <= m <= k ==> tool(m) == env.tool(i, m);
    assert FirstEnd(calls, tool) == k;
    LastTurnIs(env, i);
  }

  lemma FinalizeEnds(env: Env, i: nat, k: nat)
    requires Reaches(env, i, k) && FinalizeAt(env, i, k)
    ensures LastTurn(env) == i && FirstEnd(env.llm(i).calls, env.Tools(i)) == k
    ensures EndOf(env.llm(i).calls, env.Tools(i)).FinalizeDone?
  {
    EndsTheRun(env, i, k);
    assert env.Tools(i)(k) == env.tool(i, k) && |INPUT_TOOL| != |FINALIZE_TOOL|;
  }

  lemma CancelIsTold(env: Env)
    requires SeesCancel(env)
    ensures Verdict(env) == Some(RunCancelled)
  {
    var i: nat :| GetsTo(env, i) && env.cancelled(i);
    LastOnly(env, i);
  }

  lemma TextIsTold(env: Env)
    requires RepliesText(env)
    ensures Verdict(env) == Some(RunCompleted)
  {
    var i: nat :| GetsTo(env, i) && TextAt(env, i);
    LastOnly(env, i);
  }

  lemma FinalizeIsTold(env: Env)
    requires FinalizesWell(env)
    ensures Verdict(env) == Some(RunCompleted)
  {
    var i: nat, k: nat :| Reaches(env, i, k) && FinalizeAt(env, i, k);
    FinalizeEnds(env, i, k);
  }

  lemma RequestIsTold(env: Env)
    requires AsksUser(env)
    ensures Verdict(env) == Some(UserRequestInput)
  {
    var i: nat, k: nat :|
      Reaches(env, i, k) && env.llm(i).calls[k].name == INPUT_TOOL && env.tool(i, k).argsOk;
    EndsTheRun(env, i, k);
    assert env.Tools(i)(k) == env.tool(i, k);
  }

  /** The call that ended the last batch is one the run reached. */
  lemma LastCallReached(env: Env, k: nat)
    requires var r := LastTurn(env); Asks(env, r) && env.llm(r).Choice? && k < |env.llm(r).calls|
    requires k == FirstEnd(env.llm(LastTurn(env)).calls, env.Tools(LastTurn(env)))
    ensures Reaches(env, LastTurn(env), k) && env.Tools(LastTurn(env))(k) == env.tool(LastTurn(env), k)
  {
    var r := LastTurn(env);
    assert forall m :: 0 <= m <= k ==> env.Tools(r)(m) == env.tool(r, m);
  }

  lemma CompletedIsExplained(env: Env)
    requires Verdict(env) == Some(RunCompleted)
    ensures RepliesText(env) || FinalizesWell(env)
  {
    var r := LastTurn(env);
    var calls := env.llm(r).calls;
    if calls == [] {
      assert TextAt(env, r);
    } else {
      var k := FirstEnd(calls, env.Tools(r));
      LastCallReached(env, k);
      assert FinalizeAt(env, r, k);
    }
  }

  lemma RequestIsExplained(env: Env)
    requires Verdict(env) == Some(UserRequestInput)
    ensures AsksUser(env)
  {
    var r := LastTurn(env);
    LastCallReached(env, FirstEnd(env.llm(r).calls, env.Tools(r)));
  }

  lemma CancelledIsExplained(env: Env)
    requires Verdict(env) == Some(RunCancelled)
    ensures SeesCancel(env)
  {
    assert env.cancelled(LastTurn(env));
  }

  /**
   * Main result: the last event of a run that is not cut short, in terms of what happened to it. Completed: a text
   * reply without calls, or a successful finalize with closing words. Cancelled: seen at the start of an iteration.
   * Waiting: an input request that can be read. An error in every other run.
   */
  lemma LastEvent(env: Env)
    requires !CutShort(env)
    ensures Events(env) != []
    ensures var e := Events(env)[|Events(env)| - 1];
            && (e == RunCompleted <==> RepliesText(env) || FinalizesWell(env))
            && (e == RunCancelled <==> SeesCancel(env))
            && (e == UserRequestInput <==> AsksUser(env))
            && (e == RunError <==> !RepliesText(env) && !FinalizesWell(env) && !SeesCancel(env) && !AsksUser(env))
  {
    VerdictUnlessCutShort(env);
    var told := QuietThenVerdict(env);
    VerdictIs(env);
  }

  lemma VerdictIs(env: Env)
    requires Verdict(env).Some? && Verdict(env).value.RunState()
    ensures var e := Verdict(env).value;
            && (e == RunCompleted <==> RepliesText(env) || FinalizesWell(env))
            && (e == RunCancelled <==> SeesCancel(env))
            && (e == UserRequestInput <==> AsksUser(env))
            && (e == RunError <==> !RepliesText(env) && !FinalizesWell(env) && !SeesCancel(env) && !AsksUser(env))
  {
    if RepliesText(env) { TextIsTold(env); }
    if FinalizesWell(env) { FinalizeIsTold(env); }
    if SeesCancel(env) { CancelIsTold(env); }
    if AsksUser(env) { RequestIsTold(env); }
    match Verdict(env).value
    case RunCompleted => CompletedIsExplained(env);
    case RunCancelled => CancelledIsExplained(env);
    case UserRequestInput => RequestIsExplained(env);
    case _ =>
  }

  // ---------- calls and results of one message ----------

  /** Call k of the message gets its result into the history. */
  ghost predicate GetsResult(calls: seq<Call>, tool: nat -> Outcome, k: nat) {
    && k < |calls| && (forall m :: 0 <= m < k ==> !Ends(calls[m], tool(m)))
    && calls[k].name != INPUT_TOOL && !tool(k).Cancelled()
  }

  /** The message comes first, then the results of exactly these calls, each with the text its tool returned. */
  lemma BatchTells(reply: Reply, tool: nat -> Outcome, k: nat)
    requires reply.Choice?
    ensures var h := BatchHistory(reply, tool);
            && h[0] == Assistant(reply.content, reply.calls)
            && (k + 1 < |h| <==> GetsResult(reply.calls, tool, k))
            && (k + 1 < |h| ==> h[k + 1] == Tool(reply.calls[k].id, tool(k).text))
  {
    var n := FirstEnd(reply.calls, tool);
    assert |INPUT_TOOL| != |FINALIZE_TOOL|;
    if k + 1 < |BatchHistory(reply, tool)| {
      assert k < n || (k == n && n < |reply.calls|);
    }
  }

  function CalledIds(events: seq<Event>): seq<string> {
    if events == [] then [] else
      var e := events[|events| - 1];
      CalledIds(events[..|events| - 1]) + if e.ToolCalled? then [e.id] else []
  }

  function ReturnedIds(events: seq<Event>): seq<string> {
    if events == [] then [] else
      var e := events[|events| - 1];
      ReturnedIds(events[..|events| - 1]) + if e.ToolReturned? then [e.id] else []
  }

  lemma ToldSnoc(events: seq<Event>, e: Event)
    ensures CalledIds(events + [e]) == CalledIds(events) + if e.ToolCalled? then [e.id] else []
    ensures ReturnedIds(events + [e]) == ReturnedIds(events) + if e.ToolReturned? then [e.id] else []
  {
    assert (events + [e])[..|events|] == events;
  }

  lemma {:induction false} ToldAppend(a: seq<Event>, b: seq<Event>)
    ensures CalledIds(a + b) == CalledIds(a) + CalledIds(b) && ReturnedIds(a + b) == ReturnedIds(a) + ReturnedIds(b)
  {
    if b == [] {
      assert a + b == a;
    } else {
      var n := |b| - 1;
      ToldAppend(a, b[..n]);
      assert b == b[..n] + [b[n]] && a + b == (a + b[..n]) + [b[n]];
      ToldSnoc(a + b[..n], b[n]);
      ToldSnoc(b[..n], b[n]);
    }
  }

  lemma IdsSnoc(calls: seq<Call>, n: nat)
    requires n < |calls|
    ensures IdsOf(calls[..n + 1]) == IdsOf(calls[..n]) + [calls[n].id]
  {
  }

  lemma {:induction false} PairsTold(calls: seq<Call>, n: nat)
    requires n <= |calls|
    ensures CalledIds(CallEvents(calls, n)) == IdsOf(calls[..n]) == ReturnedIds(CallEvents(calls, n))
  {
    if n > 0 {
      var before, id := CallEvents(calls, n - 1), calls[n - 1].id;
      PairsTold(calls, n - 1);
      IdsSnoc(calls, n - 1);
      assert CallEvents(calls, n) == before + [ToolCalled(id)] + [ToolReturned(id)];
      ToldSnoc(before, ToolCalled(id));
      ToldSnoc(before + [ToolCalled(id)], ToolReturned(id));
    }
  }

  /** The calls of a message that the run starts: up to and including the first that ends the batch. */
  ghost predicate IsStarted(calls: seq<Call>, tool: nat -> Outcome, n: nat) {
    && n <= |calls| && (forall m :: 0 <= m < n - 1 ==> !Ends(calls[m], tool(m)))
    && (n == |calls| || (n > 0 && Ends(calls[n - 1], tool(n - 1))))
  }

  /** One iteration announces the calls it starts, in order, and the results of those whose tool came back. */
  lemma CallsAreTold(reply: Reply, tool: nat -> Outcome, n: nat)
    requires reply.Choice? && reply.calls != [] && IsStarted(reply.calls, tool, n)
    ensures CalledIds(TurnEvents(reply, tool)) == IdsOf(reply.calls[..n])
    ensures ReturnedIds(TurnEvents(reply, tool))
         == IdsOf(reply.calls[..if reply.calls[n - 1].name == INPUT_TOOL || tool(n - 1).cancelledDuring then n - 1
                                else n])
  {
    var calls := reply.calls;
    var status := if reply.content != "" then [AssistantStatus] else [];
    StatusTellsNothing(status);
    ToldAppend(status, BatchEvents(calls, tool));
    BatchTold(calls, tool, n);
    assert [] + CalledIds(BatchEvents(calls, tool)) == CalledIds(BatchEvents(calls, tool));
    assert [] + ReturnedIds(BatchEvents(calls, tool)) == ReturnedIds(BatchEvents(calls, tool));
  }

  lemma StatusTellsNothing(status: seq<Event>)
    requires status == [] || status == [AssistantStatus]
    ensures CalledIds(status) == [] && ReturnedIds(status) == []
  {
    if status != [] { ToldSnoc([], AssistantStatus); assert [] + [AssistantStatus] == status; }
  }

  lemma BatchTold(calls: seq<Call>, tool: nat -> Outcome, n: nat)
    requires calls != [] && IsStarted(calls, tool, n)
    ensures n > 0 && CalledIds(BatchEvents(calls, tool)) == IdsOf(calls[..n])
    ensures ReturnedIds(BatchEvents(calls, tool))
         == IdsOf(calls[..if calls[n - 1].name == INPUT_TOOL || tool(n - 1).cancelledDuring then n - 1 else n])
  {
    var k := FirstEnd(calls, tool);
    PairsTold(calls, k);
    if k == |calls| {
      assert n == |calls|;
      assert CallEvents(calls, k) + [] == CallEvents(calls, k);
    } else {
      assert n == k + 1;
      var before, id := CallEvents(calls, k), calls[k].id;
      IdsSnoc(calls, k);
      ToldSnoc(before, ToolCalled(id));
      ToldSnoc(before + [ToolCalled(id)], ToolReturned(id));
      assert before + [ToolCalled(id), ToolReturned(id)] == before + [ToolCalled(id)] + [ToolReturned(id)];
    }
  }

  // ---------- what the run adds to the history ----------

  predicate EndsWith(h: History, it: Item) {
    h != [] && h[|h| - 1] == it
  }

  lemma TailKeepsLast(h: History, r: nat, it: Item)
    requires EndsWith(h, it) && r < |h|
    ensures EndsWith(h[r..], it)
  {
  }

  lemma CompactKeepsLast(h: History, it: Item, tokens: int, digest: string)
    requires EndsWith(h, it)
    ensures EndsWith(Compact(h, tokens, digest), it)
  {
    var r := CompactKeepsTail(h, tokens, digest);
    TailKeepsLast(h, r, it);
  }

  /** Whatever is cut, the user's text is the last item when the first reply is taken up. */
  lemma UserTextIsKept(h: History, task: string, reply: Reply)
    requires task != "" && !reply.LLMFailed?
    ensures EndsWith(Absorbed(h, task, reply), User(task))
  {
    CompactKeepsLast(h + [User(task)], User(task), reply.tokens, reply.digest);
  }

  /** Up to the token limit the history only grows: by the user's text. */
  lemma SmallTurnAddsText(h: History, task: string, reply: Reply)
    requires !reply.LLMFailed? && reply.tokens <= COMPACT_TRIGGER
    ensures Absorbed(h, task, reply) == if task != "" then h + [User(task)] else h
  {
    SmallHistoryIsKept(if task != "" then h + [User(task)] else h, reply.tokens, reply.digest);
  }

  /** No reply of the run exceeds the token limit. */
  ghost predicate Small(env: Env) {
    && (forall i: nat :: !env.llm(i).LLMFailed? ==> env.llm(i).tokens <= COMPACT_TRIGGER)
    && (env.summary.Summary? ==> env.summary.tokens <= COMPACT_TRIGGER)
  }

  /** The history with the user's text. */
  function Begun(h0: History, input: string): History {
    if input != "" then h0 + [User(input)] else h0
  }

  lemma {:induction false} HistoryGrows(env: Env, h0: History, input: string, i: nat)
    requires Small(env) && GetsTo(env, i) && i > 1
    ensures env.llm(1).Choice?
    ensures Begun(h0, input) + [Assistant(env.llm(1).content, env.llm(1).calls)] <= HistoryAt(env, h0, input, i)
  {
    GetsToEarlier(env, i, 1);
    var h, reply := HistoryAt(env, h0, input, i - 1), env.llm(i - 1);
    SmallTurnAddsText(h, Task(input, i - 1), reply);
    if i == 2 {
      Assoc(Begun(h0, input), [Assistant(reply.content, reply.calls)],
            ResultsOf(reply.calls, env.Tools(1), Reached(reply.calls, env.Tools(1))));
    } else {
      HistoryGrows(env, h0, input, i - 1);
    }
  }

  lemma ClosedGrows(h: History, summary: Summary)
    requires summary.Summary? ==> summary.tokens <= COMPACT_TRIGGER
    ensures Closed(h, summary) == if summary.Usable() then h + [Assistant(Trim(summary.text), [])] else h
  {
    if summary.Usable() { SmallHistoryIsKept(h + [Assistant(Trim(summary.text), [])], summary.tokens, summary.digest); }
  }

  lemma TurnGrows(h: History, reply: Reply, tool: nat -> Outcome, summary: Summary)
    requires reply.Choice? && (summary.Summary? ==> summary.tokens <= COMPACT_TRIGGER)
    ensures h <= TurnHistory(h, reply, tool, summary)
  {
    ClosedGrows(h + BatchHistory(reply, tool), summary);
  }

  /** Main result: a run whose first request is answered only adds to the history, if no reply is over the limit. */
  lemma RunOnlyAdds(env: Env, h0: History, input: string)
    requires Small(env) && Asks(env, 1) && !env.llm(1).LLMFailed?
    ensures Begun(h0, input) <= Left(env, h0, input)
  {
    var r := LastTurn(env);
    var h, reply := HistoryAt(env, h0, input, r), env.llm(r);
    if r > 1 { HistoryGrows(env, h0, input, r); }
    if Asks(env, r) && !reply.LLMFailed? {
      SmallTurnAddsText(h, Task(input, r), reply);
      if reply.Choice? {
        TurnGrows(Absorbed(h, Task(input, r), reply), reply, env.Tools(r), env.summary);
      }
    }
  }

  /** The reply that ends the run is the last item it leaves. */
  lemma TextIsLast(env: Env, h0: History, input: string, i: nat)
    requires GetsTo(env, i) && TextAt(env, i)
    ensures EndsWith(Left(env, h0, input), Assistant(env.llm(i).content, []))
  {
    LastOnly(env, i);
  }

  /** So are the closing words after a finalize, also when they trigger a compaction. */
  lemma ClosingWordsAreLast(env: Env, h0: History, input: string)
    requires FinalizesWell(env)
    ensures EndsWith(Left(env, h0, input), Assistant(Trim(env.summary.text), []))
  {
    var i: nat, k: nat :| Reaches(env, i, k) && FinalizeAt(env, i, k);
    FinalizeEnds(env, i, k);
    var reply, summary := env.llm(i), env.summary;
    var h := Absorbed(HistoryAt(env, h0, input, i), Task(input, i), reply) + BatchHistory(reply, env.Tools(i));
    CompactKeepsLast(h + [Assistant(Trim(summary.text), [])], Assistant(Trim(summary.text), []), summary.tokens,
                     summary.digest);
  }

  /** A delegate's instruction stands first in every later request that no compaction has cut. */
  lemma {:induction false} InstructionIsFirst(instruction: string, cancelled: nat -> bool, llm: nat -> Reply,
                                              tool: (nat, nat) -> WorkerOutcome, i: nat)
    requires instruction != "" && WorkerGetsTo(cancelled, llm, i) && i > 0
    requires forall j: nat :: !llm(j).LLMFailed? ==> llm(j).tokens <= COMPACT_TRIGGER
    ensures [User(instruction)] <= WorkerHistoryAt(instruction, llm, tool, i)
  {
    var h, reply := WorkerHistoryAt(instruction, llm, tool, i - 1), llm(i - 1);
    if i == 1 {
      SmallTurnAddsText([], instruction, reply);
      assert [] + [User(instruction)] == [User(instruction)];
    } else {
      InstructionIsFirst(instruction, cancelled, llm, tool, i - 1);
      SmallTurnAddsText(h, "", reply);
    }
  }
}
