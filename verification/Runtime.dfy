/** Engine, dispatcher and session together: what a run's events do to the run slot. */
module Runtime {
  import opened Text
  import E = Engine
  import O = RunOutcome
  import L = RunLifecycle

  /** The hook side of an engine event; a tool result may be that of report_finalize, with its report saved or not. */
  function HookEvent(e: E.Event, finalize: string -> L.Event): L.Event {
    match e
    case UserRequestInput => L.Asked
    case RunCompleted => L.RunCompleted
    case RunCancelled => L.RunCancelled
    case RunError => L.RunError
    case ToolReturned(callId) => finalize(callId)
    case _ => L.OtherEvent
  }

  /** Tool results do nothing to the slot, unless a finalized report could not be saved. */
  ghost predicate ReportsSaved(finalize: string -> L.Event) {
    forall c ::
      finalize(c).OtherEvent? || (finalize(c).FinalizeReturned? && (finalize(c).success ==> finalize(c).saved))
  }

  /** The steps the dispatcher takes for a run's own events, in order. */
  function RunSteps(id: L.RunId, events: seq<E.Event>, finalize: string -> L.Event): seq<L.Step> {
    if events == [] then [] else
      RunSteps(id, events[..|events| - 1], finalize)
      + L.HookSteps(id, true, HookEvent(events[|events| - 1], finalize))
  }

  lemma {:induction false} QuietTakesNoStep(id: L.RunId, events: seq<E.Event>, finalize: string -> L.Event)
    requires E.Quiet(events) && ReportsSaved(finalize)
    ensures RunSteps(id, events, finalize) == []
  {
    if events != [] {
      var n := |events| - 1;
      assert events[n] in events;
      QuietTakesNoStep(id, events[..n], finalize);
    }
  }

  /** What the verdict of a run asks of the session. */
  function VerdictStep(id: L.RunId, verdict: E.Event): L.Step
    requires verdict.RunState()
  {
    match verdict
    case UserRequestInput => L.Suspend(id)
    case RunCompleted => L.Finish(id, L.DbCompleted)
    case RunCancelled => L.Finish(id, L.DbCancelled)
    case RunError => L.Finish(id, L.DbFailed)
  }

  /**
   * Main result: with its reports saved a run takes exactly one step on the slot, its verdict; cut short, it takes
   * none.
   */
  lemma RunTakesItsVerdict(env: E.Env, id: L.RunId, finalize: string -> L.Event)
    requires ReportsSaved(finalize)
    ensures if E.CutShort(env) then RunSteps(id, E.Events(env), finalize) == []
            else E.Verdict(env).Some? && E.Verdict(env).value.RunState()
                 && RunSteps(id, E.Events(env), finalize) == [VerdictStep(id, E.Verdict(env).value)]
  {
    E.VerdictUnlessCutShort(env);
    var told := E.QuietThenVerdict(env);
    QuietTakesNoStep(id, told, finalize);
    if E.Verdict(env).Some? {
      LastEventSteps(id, told, E.Verdict(env).value, finalize);
    } else {
      assert told + [] == told;
    }
  }

  lemma LastEventSteps(id: L.RunId, told: seq<E.Event>, verdict: E.Event, finalize: string -> L.Event)
    requires RunSteps(id, told, finalize) == [] && verdict.RunState()
    ensures RunSteps(id, told + [verdict], finalize) == [VerdictStep(id, verdict)]
  {
    assert (told + [verdict])[..|told|] == told;
  }

  /** Everything the engine's goroutine does to the session: the steps of its hooks, and its silent return. */
  ghost function EngineSteps(env: E.Env, id: L.RunId, finalize: string -> L.Event): seq<L.Step> {
    RunSteps(id, E.Events(env), finalize) + if E.CutShort(env) then [L.Quit(id)] else []
  }

  lemma EngineTakesOneStep(env: E.Env, id: L.RunId, finalize: string -> L.Event)
    requires ReportsSaved(finalize)
    ensures EngineSteps(env, id, finalize) == [if E.CutShort(env) then L.Quit(id) else EngineStep(env, id)]
  {
    RunTakesItsVerdict(env, id, finalize);
  }

  /** The step of a run that is not cut short. */
  ghost function EngineStep(env: E.Env, id: L.RunId): L.Step {
    var verdict := E.Verdict(env);
    if verdict.Some? && verdict.value.RunState() then VerdictStep(id, verdict.value) else L.Quit(id)
  }

  /**
   * Main result: an engine that works for the run in the slot leaves an orphan behind, which keeps the slot for good,
   * if and only if the run is cut short; any other run frees the slot or leaves it waiting for the user.
   */
  lemma OrphanIffCutShort(env: E.Env, id: L.RunId, finalize: string -> L.Event, s: L.System, steps: seq<L.Step>,
                          t: L.System)
    requires ReportsSaved(finalize) && L.SlotInv(s) && L.Holds(s.slot, id) && id in s.engines
    requires L.Reachable(s, EngineSteps(env, id, finalize) + steps, t)
    ensures E.CutShort(env) ==> L.Orphan(t, id) && t.started == s.started
    ensures steps == [] ==> (L.Orphan(t, id) <==> E.CutShort(env))
  {
    EngineTakesOneStep(env, id, finalize);
    E.VerdictUnlessCutShort(env);
    var told := E.QuietThenVerdict(env);
    var x := EngineSteps(env, id, finalize)[0];
    L.ReachHead(s, x, steps, t);
    if E.CutShort(env) { L.OrphanIsStuck(L.Take(s, x), steps, t, id); }
  }

  /** The status a run is to be stored with, by what happened to it. */
  ghost predicate IsToBeStored(env: E.Env, status: L.DbStatus) {
    match status
    case DbCompleted => O.RepliesText(env) || O.FinalizesWell(env)
    case DbCancelled => O.SeesCancel(env)
    case DbWaiting => O.AsksUser(env)
    case DbFailed => !(O.RepliesText(env) || O.FinalizesWell(env) || O.SeesCancel(env) || O.AsksUser(env))
    case DbRunning => false
  }

  /**
   * Main result: a run that holds its slot writes exactly one status, and the one that names what happened to it; a run
   * that is cut short writes none.
   */
  lemma RunIsStoredAs(env: E.Env, id: L.RunId, finalize: string -> L.Event, s: L.System, t: L.System,
                      status: L.DbStatus)
    requires ReportsSaved(finalize) && L.Holds(s.slot, id) && L.Reachable(s, EngineSteps(env, id, finalize), t)
    ensures E.CutShort(env) ==> t.due == s.due
    ensures !E.CutShort(env) && IsToBeStored(env, status) ==> t.due == s.due + multiset{L.Write(id, status)}
  {
    EngineTakesOneStep(env, id, finalize);
    E.VerdictUnlessCutShort(env);
    var x := EngineSteps(env, id, finalize)[0];
    assert [x] + [] == [x];
    L.ReachHead(s, x, [], t);
    if !E.CutShort(env) {
      var told := E.QuietThenVerdict(env);
      O.VerdictIs(env);
    }
  }

  /** A run that stopped to ask and is cancelled before the reply keeps the slot for good. */
  lemma CancelledSuspensionIsStuck(env: E.Env, id: L.RunId, finalize: string -> L.Event, s: L.System,
                                   steps: seq<L.Step>, t: L.System)
    requires E.Suspends(env) && ReportsSaved(finalize) && L.Holds(s.slot, id) && s.slot.value.cancellable
    requires L.Reachable(s, EngineSteps(env, id, finalize) + ([L.Cancel(id)] + steps), t)
    ensures L.Orphan(t, id) && t.slot.value.status == L.Cancelling && t.started == s.started
  {
    EngineTakesOneStep(env, id, finalize);
    E.VerdictUnlessCutShort(env);
    L.CancelledAfterAsking(s, id, steps, t);
  }

  /** Every other run frees the slot it holds, or leaves it waiting for the user. */
  lemma VerdictSettlesSlot(env: E.Env, id: L.RunId, finalize: string -> L.Event, slot: L.Slot)
    requires !E.CutShort(env) && ReportsSaved(finalize) && L.Holds(slot, id)
    ensures var after := L.SlotAfter(slot, RunSteps(id, E.Events(env), finalize));
            if E.Suspends(env) then L.Holds(after, id) && L.Waiting(after) else after == None
  {
    RunTakesItsVerdict(env, id, finalize);
    var x := VerdictStep(id, E.Verdict(env).value);
    assert [x][..0] == [];
    assert L.SlotAfter(slot, [x]) == L.SlotStep(slot, x);
  }
}
