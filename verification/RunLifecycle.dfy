/**
 * The run slot of a session (server/session/types.go) and the event hooks that drive it
 * (server/handler/runtime_hooks.go).
 */
module RunLifecycle {
  import opened Text

  type RunId = string

  datatype RunStatus = Running | WaitingInput | Cancelling

  datatype Run = Run(id: RunId, status: RunStatus, cancellable: bool)

  /** The run slot: at most one run. */
  type Slot = Option<Run>

  predicate Holds(s: Slot, id: RunId) {
    s.Some? && s.value.id == id
  }

  // ---------- session operations, one lock acquisition each ----------

  function Started(s: Slot, id: RunId): Slot {
    if s.None? then Some(Run(id, Running, true)) else s
  }

  function Finished(s: Slot, id: RunId): Slot {
    if Holds(s, id) then None else s
  }

  function Suspended(s: Slot, id: RunId): Slot {
    if Holds(s, id) then Some(s.value.(status := WaitingInput)) else s
  }

  predicate Waiting(s: Slot) {
    s.Some? && s.value.status == WaitingInput
  }

  function Consumed(s: Slot): Slot {
    if Waiting(s) then Some(s.value.(status := Running)) else s
  }

  function WithCancel(s: Slot, id: RunId): Slot {
    if Holds(s, id) then Some(s.value.(cancellable := true)) else s
  }

  /** A blank id means whichever run is active. */
  predicate CancelHits(s: Slot, id: RunId) {
    s.Some? && (id == "" || s.value.id == id)
  }

  function Cancelled(s: Slot, id: RunId): Slot {
    if CancelHits(s, id) && s.value.cancellable then Some(s.value.(status := Cancelling)) else s
  }

  class Session {
    var slot: Slot
    var editActive: bool

    constructor ()
      ensures slot == None && !editActive
    {
      slot, editActive := None, false;
    }

    /** The id comes from a random UUID. */
    method StartRun(id: RunId) returns (ok: bool)
      modifies this`slot
      ensures slot == Started(old(slot), id) && (ok <==> old(slot).None?)
      ensures slot == if ok then Some(Run(id, Running, true)) else old(slot)
    {
      if slot.Some? { return false; }
      slot := Some(Run(id, Running, true));
      return true;
    }

    method FinishRun(id: RunId) returns (finished: bool)
      modifies this
      ensures slot == Finished(old(slot), id) && (finished <==> Holds(old(slot), id))
      ensures finished <==> old(slot).Some? && old(slot).value.id == id
      ensures slot == if finished then None else old(slot)
      ensures editActive == (old(editActive) && !finished)
    {
      finished := false;
      if slot.Some? && slot.value.id == id {
        slot, editActive, finished := None, false, true;
      }
    }

    method SuspendRun(id: RunId) returns (ok: bool)
      modifies this`slot
      ensures slot == Suspended(old(slot), id) && (ok <==> Holds(old(slot), id))
      ensures ok <==> old(slot).Some? && old(slot).value.id == id
      ensures slot == if ok then Some(Run(id, WaitingInput, old(slot).value.cancellable)) else old(slot)
    {
      if slot.Some? && slot.value.id == id {
        slot := Some(slot.value.(status := WaitingInput));
        return true;
      }
      return false;
    }

    method ConsumeWaitingRun() returns (id: Option<RunId>)
      modifies this`slot
      ensures slot == Consumed(old(slot)) && id == if Waiting(old(slot)) then Some(old(slot).value.id) else None
      ensures id.Some? <==> old(slot).Some? && old(slot).value.status == WaitingInput
      ensures slot == if id.Some? then Some(Run(id.value, Running, old(slot).value.cancellable)) else old(slot)
    {
      if slot.None? || slot.value.status != WaitingInput { return None; }
      id := Some(slot.value.id);
      slot := Some(slot.value.(status := Running));
    }

    method UpdateCancelFunc(id: RunId) returns (ok: bool)
      modifies this`slot
      ensures slot == WithCancel(old(slot), id) && (ok <==> Holds(old(slot), id))
      ensures ok <==> old(slot).Some? && old(slot).value.id == id
      ensures slot == if ok then Some(Run(id, old(slot).value.status, true)) else old(slot)
    {
      if slot.Some? && slot.value.id == id {
        slot := Some(slot.value.(cancellable := true));
        return true;
      }
      return false;
    }

    method CancelRun(id: RunId) returns (ok: bool)
      modifies this`slot
      ensures slot == Cancelled(old(slot), id) && (ok <==> CancelHits(old(slot), id))
      ensures ok <==> old(slot).Some? && (id == "" || old(slot).value.id == id)
      ensures slot == if ok && old(slot).value.cancellable then Some(Run(old(slot).value.id, Cancelling, true))
                      else old(slot)
    {
      if slot.None? { return false; }
      if id != "" && slot.value.id != id { return false; }
      if slot.value.cancellable { slot := Some(slot.value.(status := Cancelling)); }
      return true;
    }
  }

  // ---------- every interleaving of lock acquisitions and status writes ----------

  datatype DbStatus = DbRunning | DbWaiting | DbCompleted | DbCancelled | DbFailed {
    predicate Terminal() { DbCompleted? || DbCancelled? || DbFailed? }
  }

  datatype Write = Write(id: RunId, status: DbStatus)

  /**
   * Runs started, finished and given up so far, the runs some goroutine still works for, writes still due by some
   * goroutine, writes done in order, and the suspensions and replies.
   */
  datatype System = System(slot: Slot, started: set<RunId>, finished: set<RunId>, abandoned: set<RunId>,
                           engines: set<RunId>, due: multiset<Write>, db: seq<Write>,
                           suspensions: multiset<RunId>, replies: multiset<RunId>)

  const IDLE := System(None, {}, {}, {}, {}, multiset{}, [], multiset{}, multiset{})

  /**
   * Finish and Suspend are hooks of a working engine, Quit is an engine that returns without a run-state event. The
   * handler drops a run whose record cannot be created, abandons one whose input cannot be built, and drops a reply
   * that the engine does not take.
   */
  datatype Step = Start(id: RunId) | Finish(id: RunId, status: DbStatus) | Suspend(id: RunId) | Quit(id: RunId) | Reply
    | DropReply | Drop(id: RunId) | Abandon(id: RunId) | UpdateCancel(id: RunId) | Cancel(id: RunId)
    | Persist(write: Write)

  predicate Enabled(s: System, x: Step) {
    match x
    case Start(id) => id !in s.started && id != ""
    case Finish(id, status) => status.Terminal() && id in s.engines
    case Suspend(id) => id in s.engines
    case Quit(id) => id in s.engines
    case Drop(id) => id in s.engines && Holds(s.slot, id)
    case Abandon(id) => id in s.engines && Holds(s.slot, id)
    case Persist(w) => w in s.due
    case _ => true
  }

  function Take(s: System, x: Step): System
    requires Enabled(s, x)
  {
    match x
    case Start(id) =>
      if s.slot.None? then
        s.(slot := Started(s.slot, id), started := s.started + {id}, engines := s.engines + {id})
      else s
    case Finish(id, status) =>
      if Holds(s.slot, id) then
        s.(slot := Finished(s.slot, id), finished := s.finished + {id}, due := s.due + multiset{Write(id, status)})
      else s
    case Suspend(id) =>
      if Holds(s.slot, id) then
        s.(slot := Suspended(s.slot, id), engines := s.engines - {id}, due := s.due + multiset{Write(id, DbWaiting)},
           suspensions := s.suspensions + multiset{id})
      else s.(engines := s.engines - {id})
    case Quit(id) => s.(engines := s.engines - {id})
    case Reply =>
      if Waiting(s.slot) then
        s.(slot := Consumed(s.slot), engines := s.engines + {s.slot.value.id},
           due := s.due + multiset{Write(s.slot.value.id, DbRunning)},
           replies := s.replies + multiset{s.slot.value.id})
      else s
    case DropReply =>
      if Waiting(s.slot) then s.(slot := Consumed(s.slot), replies := s.replies + multiset{s.slot.value.id}) else s
    case Drop(id) => s.(slot := Cancelled(s.slot, id), engines := s.engines - {id})
    case Abandon(id) =>
      s.(slot := Cancelled(s.slot, id), engines := s.engines - {id}, abandoned := s.abandoned + {id},
         due := s.due + multiset{Write(id, DbFailed)})
    case UpdateCancel(id) => s.(slot := WithCancel(s.slot, id))
    case Cancel(id) => s.(slot := Cancelled(s.slot, id))
    case Persist(w) => s.(due := s.due - multiset{w}, db := s.db + [w])
  }

  ghost predicate Reachable(s: System, steps: seq<Step>, t: System)
    decreases |steps|
  {
    if steps == [] then s == t else Enabled(s, steps[0]) && Reachable(Take(s, steps[0]), steps[1..], t)
  }

  function TerminalIn(writes: seq<Write>, id: RunId): nat {
    if writes == [] then 0 else
      var w := writes[|writes| - 1];
      TerminalIn(writes[..|writes| - 1], id) + if w.id == id && w.status.Terminal() then 1 else 0
  }

  function TerminalDue(due: multiset<Write>, id: RunId): nat {
    due[Write(id, DbCompleted)] + due[Write(id, DbCancelled)] + due[Write(id, DbFailed)]
  }

  /** The run holds the slot, does not wait for a reply, and nobody works for it any more. */
  predicate Orphan(s: System, id: RunId) {
    Holds(s.slot, id) && !Waiting(s.slot) && id !in s.engines
  }

  /** The runs started and not finished are exactly the run in the slot, and a run given up is an orphan. */
  ghost predicate SlotInv(s: System) {
    && s.finished <= s.started && "" !in s.started && s.engines <= s.started
    && (forall id :: id in s.started <==> id in s.finished || Holds(s.slot, id))
    && (forall id :: Holds(s.slot, id) ==> id !in s.finished)
    && (Waiting(s.slot) ==> s.slot.value.id !in s.engines)
    && (forall id :: id in s.abandoned ==> Orphan(s, id))
  }

  /** A finished or abandoned run has one terminal write, due or done; any other run has none. */
  ghost predicate WriteInv(s: System) {
    forall id :: TerminalDue(s.due, id) + TerminalIn(s.db, id) == Settled(s, id)
  }

  function Settled(s: System, id: RunId): nat {
    if id in s.finished || id in s.abandoned then 1 else 0
  }

  ghost predicate ReplyInv(s: System) {
    forall id :: s.replies[id] + (if Waiting(s.slot) && Holds(s.slot, id) then 1 else 0) <= s.suspensions[id]
  }

  ghost predicate Inv(s: System) {
    SlotInv(s) && WriteInv(s) && ReplyInv(s)
  }

  lemma TerminalSnoc(db: seq<Write>, w: Write, id: RunId)
    ensures TerminalIn(db + [w], id) == TerminalIn(db, id) + if w.id == id && w.status.Terminal() then 1 else 0
  {
    assert (db + [w])[..|db|] == db;
  }

  lemma OwnerStepKeeps(s: System, x: Step)
    requires SlotInv(s) && Enabled(s, x) && (x.Start? || x.Finish?)
    ensures SlotInv(Take(s, x))
  {
  }

  lemma EngineStepKeeps(s: System, x: Step)
    requires SlotInv(s) && Enabled(s, x) && (x.Suspend? || x.Quit? || x.Drop? || x.Abandon?)
    ensures SlotInv(Take(s, x))
  {
  }

  lemma OtherStepKeeps(s: System, x: Step)
    requires SlotInv(s) && Enabled(s, x)
    requires x.Reply? || x.DropReply? || x.UpdateCancel? || x.Cancel? || x.Persist?
    ensures SlotInv(Take(s, x))
  {
  }

  lemma StepKeepsSlotInv(s: System, x: Step)
    requires SlotInv(s) && Enabled(s, x)
    ensures SlotInv(Take(s, x))
  {
    if x.Start? || x.Finish? {
      OwnerStepKeeps(s, x);
    } else if x.Suspend? || x.Quit? || x.Drop? || x.Abandon? {
      EngineStepKeeps(s, x);
    } else {
      OtherStepKeeps(s, x);
    }
  }

  lemma StepKeepsReplyInv(s: System, x: Step)
    requires ReplyInv(s) && Enabled(s, x)
    ensures ReplyInv(Take(s, x))
  {
    var t := Take(s, x);
    forall id ensures t.replies[id] + (if Waiting(t.slot) && Holds(t.slot, id) then 1 else 0) <= t.suspensions[id] {
      assert s.replies[id] + (if Waiting(s.slot) && Holds(s.slot, id) then 1 else 0) <= s.suspensions[id];
    }
  }

  lemma StepKeepsWriteInv(s: System, x: Step)
    requires SlotInv(s) && WriteInv(s) && Enabled(s, x)
    ensures WriteInv(Take(s, x))
  {
    var t := Take(s, x);
    forall id ensures TerminalDue(t.due, id) + TerminalIn(t.db, id) == Settled(t, id) {
      StepMovesTerminal(s, x, id);
    }
  }

  /** One step, one run: a terminal write becomes due only when the run finishes, and is stored only when it is due. */
  lemma StepMovesTerminal(s: System, x: Step, id: RunId)
    requires SlotInv(s) && Enabled(s, x)
    requires TerminalDue(s.due, id) + TerminalIn(s.db, id) == Settled(s, id)
    ensures var t := Take(s, x);
            TerminalDue(t.due, id) + TerminalIn(t.db, id) == Settled(t, id)
  {
    match x
    case Persist(w) =>
      TerminalSnoc(s.db, w, id);
      PersistMovesTerminal(s.due, w, id);
    case Finish(other, status) => DueTerminal(s.due, Write(other, status), id);
    case Suspend(other) => DueTerminal(s.due, Write(other, DbWaiting), id);
    case Abandon(other) => DueTerminal(s.due, Write(other, DbFailed), id);
    case Reply => if s.slot.Some? { DueTerminal(s.due, Write(s.slot.value.id, DbRunning), id); }
    case _ =>
  }

  lemma DueTerminal(due: multiset<Write>, w: Write, id: RunId)
    ensures TerminalDue(due + multiset{w}, id) == TerminalDue(due, id)
            + if w.id == id && w.status.Terminal() then 1 else 0
  {
  }

  lemma PersistMovesTerminal(due: multiset<Write>, w: Write, id: RunId)
    requires w in due
    ensures TerminalDue(due - multiset{w}, id) == TerminalDue(due, id)
            - if w.id == id && w.status.Terminal() then 1 else 0
  {
  }

  lemma StepKeepsInv(s: System, x: Step)
    requires Inv(s) && Enabled(s, x)
    ensures Inv(Take(s, x))
  {
    StepKeepsSlotInv(s, x);
    StepKeepsWriteInv(s, x);
    StepKeepsReplyInv(s, x);
  }

  lemma {:induction false} RunKeepsInv(s: System, steps: seq<Step>, t: System)
    requires Inv(s) && Reachable(s, steps, t)
    ensures Inv(t)
    decreases |steps|
  {
    if steps != [] {
      StepKeepsInv(s, steps[0]);
      RunKeepsInv(Take(s, steps[0]), steps[1..], t);
    }
  }

  /**
   * Main result: in every interleaving one run is active at most, no run gets two terminal statuses, replies never
   * outnumber suspensions, and a run given up by the handler keeps the slot.
   */
  lemma EveryInterleaving(steps: seq<Step>, t: System)
    requires Reachable(IDLE, steps, t)
    ensures |t.started - t.finished| <= 1
    ensures forall id :: TerminalIn(t.db, id) <= 1
    ensures forall id :: TerminalIn(t.db, id) == 1 ==> id in t.finished || id in t.abandoned
    ensures forall id :: t.replies[id] <= t.suspensions[id]
    ensures forall id :: id in t.abandoned ==> Holds(t.slot, id)
  {
    RunKeepsInv(IDLE, steps, t);
    var active := t.started - t.finished;
    if t.slot.Some? {
      assert active == {t.slot.value.id};
    } else {
      assert active == {};
    }
  }

  // ---------- what frees the slot ----------

  predicate Finishes(steps: seq<Step>, id: RunId) {
    exists i :: 0 <= i < |steps| && steps[i].Finish? && steps[i].id == id
  }

  lemma FinishesFirst(steps: seq<Step>, id: RunId)
    requires steps != []
    ensures Finishes(steps, id) <==> (steps[0].Finish? && steps[0].id == id) || Finishes(steps[1..], id)
  {
    assert forall i :: 0 <= i < |steps[1..]| ==> steps[1..][i] == steps[i + 1];
    if Finishes(steps, id) && !(steps[0].Finish? && steps[0].id == id) {
      var i :| 0 <= i < |steps| && steps[i].Finish? && steps[i].id == id;
      assert steps[1..][i - 1] == steps[i];
    }
  }

  /** A finished run is never active again. */
  lemma {:induction false} FinishedStaysOut(s: System, steps: seq<Step>, t: System, id: RunId)
    requires SlotInv(s) && Reachable(s, steps, t) && id in s.finished
    ensures id in t.finished && !Holds(t.slot, id)
    decreases |steps|
  {
    if steps != [] {
      StepKeepsSlotInv(s, steps[0]);
      FinishedStaysOut(Take(s, steps[0]), steps[1..], t, id);
    }
  }

  /** Main result: a run holds its slot until FinishRun is called for it, and no longer; until then no run starts. */
  lemma {:induction false} HeldUntilFinished(s: System, steps: seq<Step>, t: System, id: RunId)
    requires SlotInv(s) && Reachable(s, steps, t) && Holds(s.slot, id)
    ensures Holds(t.slot, id) <==> !Finishes(steps, id)
    ensures Holds(t.slot, id) ==> t.started == s.started
    decreases |steps|
  {
    if steps != [] {
      var next := Take(s, steps[0]);
      StepKeepsSlotInv(s, steps[0]);
      FinishesFirst(steps, id);
      if steps[0].Finish? && steps[0].id == id {
        FinishedStaysOut(next, steps[1..], t, id);
      } else {
        HeldUntilFinished(next, steps[1..], t, id);
      }
    }
  }

  /** An orphan keeps the slot in every interleaving, and blocks every new run and reply. */
  lemma {:induction false} OrphanIsStuck(s: System, steps: seq<Step>, t: System, id: RunId)
    requires Orphan(s, id) && Reachable(s, steps, t)
    ensures Orphan(t, id) && t.started == s.started && t.replies == s.replies
    ensures s.slot.value.status == Cancelling ==> t.slot.value.status == Cancelling
    decreases |steps|
  {
    if steps != [] { OrphanIsStuck(Take(s, steps[0]), steps[1..], t, id); }
  }

  /** The slot can become free again. */
  ghost predicate CanBeFreed(s: System) {
    exists steps, t :: Reachable(s, steps, t) && t.slot.None?
  }

  /** Main result: a taken slot can become free again if and only if its run is worked for or waits for a reply. */
  lemma FreedUnlessOrphan(s: System, id: RunId)
    requires Holds(s.slot, id)
    ensures CanBeFreed(s) <==> !Orphan(s, id)
  {
    if Orphan(s, id) {
      forall steps, t | Reachable(s, steps, t) ensures t.slot.Some? { OrphanIsStuck(s, steps, t, id); }
    } else {
      var steps, t := [], s;
      if id !in s.engines { steps, t := Extend(s, steps, t, Reply); }
      steps, t := Extend(s, steps, t, Finish(id, DbCompleted));
      assert Reachable(s, steps, t) && t.slot.None?;
    }
  }

  /** A run cancelled while it waits for input is an orphan: it is cancelling for good. */
  lemma CancelledWaitIsStuck(id: RunId, steps: seq<Step>, t: System)
    requires id != "" && Reachable(IDLE, [Start(id), Suspend(id), Cancel(id)] + steps, t)
    ensures Orphan(t, id) && t.slot.value.status == Cancelling
    ensures t.started == {id} && |t.replies| == 0
  {
    var c := AfterThree(IDLE, Start(id), Suspend(id), Cancel(id), steps, t);
    OrphanIsStuck(c, steps, t, id);
  }

  /** The same from any state in which the run's engine stops to ask. */
  lemma CancelledAfterAsking(s: System, id: RunId, steps: seq<Step>, t: System)
    requires Holds(s.slot, id) && s.slot.value.cancellable
    requires Reachable(s, [Suspend(id)] + ([Cancel(id)] + steps), t)
    ensures Orphan(t, id) && t.slot.value.status == Cancelling && t.started == s.started
  {
    ReachHead(s, Suspend(id), [Cancel(id)] + steps, t);
    ReachHead(Take(s, Suspend(id)), Cancel(id), steps, t);
    OrphanIsStuck(Take(Take(s, Suspend(id)), Cancel(id)), steps, t, id);
  }

  /** So is a run without a record, and a run whose input cannot be built; the latter is stored as failed. */
  lemma GivenUpIsStuck(id: RunId, x: Step, steps: seq<Step>, t: System)
    requires id != "" && (x == Drop(id) || x == Abandon(id)) && Reachable(IDLE, [Start(id), x] + steps, t)
    ensures Orphan(t, id) && t.slot.value.status == Cancelling && t.started == {id}
  {
    assert [Start(id), x] + steps == [Start(id)] + ([x] + steps);
    ReachHead(IDLE, Start(id), [x] + steps, t);
    ReachHead(Take(IDLE, Start(id)), x, steps, t);
    OrphanIsStuck(Take(Take(IDLE, Start(id)), x), steps, t, id);
  }

  /** And a run whose reply the engine does not take. */
  lemma DroppedReplyIsStuck(id: RunId, steps: seq<Step>, t: System)
    requires id != "" && Reachable(IDLE, [Start(id), Suspend(id), DropReply] + steps, t)
    ensures Orphan(t, id) && t.started == {id}
  {
    var c := AfterThree(IDLE, Start(id), Suspend(id), DropReply, steps, t);
    OrphanIsStuck(c, steps, t, id);
  }

  lemma AfterThree(s: System, x: Step, y: Step, z: Step, steps: seq<Step>, t: System) returns (c: System)
    requires Reachable(s, [x, y, z] + steps, t)
    ensures Enabled(s, x) && Enabled(Take(s, x), y) && Enabled(Take(Take(s, x), y), z)
    ensures c == Take(Take(Take(s, x), y), z) && Reachable(c, steps, t)
  {
    assert [x, y, z] + steps == [x] + ([y] + ([z] + steps));
    ReachHead(s, x, [y] + ([z] + steps), t);
    ReachHead(Take(s, x), y, [z] + steps, t);
    ReachHead(Take(Take(s, x), y), z, steps, t);
    c := Take(Take(Take(s, x), y), z);
  }

  lemma ReachHead(s: System, x: Step, rest: seq<Step>, t: System)
    requires Reachable(s, [x] + rest, t)
    ensures Enabled(s, x) && Reachable(Take(s, x), rest, t)
  {
    assert ([x] + rest)[0] == x && ([x] + rest)[1..] == rest;
  }

  // ---------- the stored status ----------

  /** The dispatcher's "waiting" write is not under the session lock: it can land after the run's terminal write. */
  lemma StaleWaitingWrite(id: RunId) returns (steps: seq<Step>, t: System)
    requires id != ""
    ensures Reachable(IDLE, steps, t) && t.due == multiset{} && TerminalIn(t.db, id) == 1
    ensures t.db != [] && t.db[|t.db| - 1] == Write(id, DbWaiting)
  {
    steps, t := SuspendedAndAnswered(id);
    steps, t := WaitingWrittenLast(id, steps, t);
  }

  lemma SuspendedAndAnswered(id: RunId) returns (steps: seq<Step>, t: System)
    requires id != ""
    ensures Reachable(IDLE, steps, t) && Holds(t.slot, id) && id in t.engines && t.db == []
    ensures t.due == multiset{Write(id, DbWaiting)} + multiset{Write(id, DbRunning)}
  {
    var w, r := Write(id, DbWaiting), Write(id, DbRunning);
    steps, t := Extend(IDLE, [], IDLE, Start(id));
    assert t.slot == Some(Run(id, Running, true)) && t.engines == {id} && t.due == multiset{} && t.db == [];
    steps, t := Extend(IDLE, steps, t, Suspend(id));
    assert t.slot == Some(Run(id, WaitingInput, true)) && t.due == multiset{w} && t.db == [];
    steps, t := Extend(IDLE, steps, t, Reply);
    assert t.slot == Some(Run(id, Running, true)) && t.due == multiset{w} + multiset{r} && t.db == [];
  }

  lemma WaitingWrittenLast(id: RunId, before: seq<Step>, m: System) returns (steps: seq<Step>, t: System)
    requires Reachable(IDLE, before, m) && Holds(m.slot, id) && id in m.engines && m.db == []
    requires m.due == multiset{Write(id, DbWaiting)} + multiset{Write(id, DbRunning)}
    ensures Reachable(IDLE, steps, t) && t.due == multiset{} && TerminalIn(t.db, id) == 1
    ensures t.db != [] && t.db[|t.db| - 1] == Write(id, DbWaiting)
  {
    var w, d, r := Write(id, DbWaiting), Write(id, DbCompleted), Write(id, DbRunning);
    steps, t := ExtendWrite(IDLE, before, m, r, multiset{w});
    steps, t := Extend(IDLE, steps, t, Finish(id, DbCompleted));
    assert t.due == multiset{w} + multiset{d} && t.db == [] + [r];
    steps, t := ExtendWrite(IDLE, steps, t, d, multiset{w});
    steps, t := ExtendWrite(IDLE, steps, t, w, multiset{});
    TerminalSnoc([], r, id);
    TerminalSnoc([] + [r], d, id);
    TerminalSnoc([] + [r] + [d], w, id);
  }

  lemma Extend(s: System, steps: seq<Step>, m: System, x: Step) returns (more: seq<Step>, t: System)
    requires Reachable(s, steps, m) && Enabled(m, x)
    ensures Reachable(s, more, t) && t == Take(m, x)
  {
    t := Take(m, x);
    ReachBack(m, x, [], t);
    more := steps + ([x] + []);
    ReachJoin(s, steps, m, [x] + [], t);
  }

  lemma ExtendWrite(s: System, steps: seq<Step>, m: System, w: Write, rest: multiset<Write>)
    returns (more: seq<Step>, t: System)
    requires Reachable(s, steps, m) && m.due == rest + multiset{w}
    ensures Reachable(s, more, t) && t == m.(due := rest, db := m.db + [w])
  {
    assert m.due - multiset{w} == rest;
    more, t := Extend(s, steps, m, Persist(w));
  }

  lemma {:induction false} ReachJoin(s: System, a: seq<Step>, m: System, b: seq<Step>, t: System)
    requires Reachable(s, a, m) && Reachable(m, b, t)
    ensures Reachable(s, a + b, t)
    decreases |a|
  {
    if a == [] {
      assert a + b == b;
    } else {
      assert (a + b)[1..] == a[1..] + b;
      ReachJoin(Take(s, a[0]), a[1..], m, b, t);
    }
  }

  lemma ReachBack(s: System, x: Step, rest: seq<Step>, t: System)
    requires Enabled(s, x) && Reachable(Take(s, x), rest, t)
    ensures Reachable(s, [x] + rest, t)
  {
    assert ([x] + rest)[1..] == rest;
  }

  function WritesOf(db: seq<Write>, id: RunId): seq<Write> {
    if db == [] then [] else
      WritesOf(db[..|db| - 1], id) + if db[|db| - 1].id == id then [db[|db| - 1]] else []
  }

  ghost predicate NothingDue(s: System, id: RunId) {
    forall st :: Write(id, st) !in s.due
  }

  lemma WritesSnoc(db: seq<Write>, w: Write, id: RunId)
    ensures WritesOf(db + [w], id) == WritesOf(db, id) + if w.id == id then [w] else []
  {
    assert (db + [w])[..|db|] == db;
  }

  /** A finished run whose only write is this one: still due, or stored after everything else. */
  ghost predicate OnlyWriteLeft(s: System, id: RunId, before: seq<Write>, w: Write) {
    && id in s.finished
    && (forall v :: v in s.due && v.id == id ==> v == w && s.due[w] == 1)
    && WritesOf(s.db, id) == if w in s.due then before else before + [w]
  }

  lemma PersistKeepsOnlyWrite(s: System, v: Write, id: RunId, before: seq<Write>, w: Write)
    requires v in s.due && w.id == id && OnlyWriteLeft(s, id, before, w)
    ensures OnlyWriteLeft(Take(s, Persist(v)), id, before, w)
  {
    WritesSnoc(s.db, v, id);
  }

  lemma StepKeepsOnlyWrite(s: System, x: Step, id: RunId, before: seq<Write>, w: Write)
    requires SlotInv(s) && Enabled(s, x) && w.id == id && OnlyWriteLeft(s, id, before, w)
    ensures OnlyWriteLeft(Take(s, x), id, before, w)
  {
    if x.Persist? {
      PersistKeepsOnlyWrite(s, x.write, id, before, w);
    } else {
      assert !Holds(s.slot, id) && Take(s, x).db == s.db && s.finished <= Take(s, x).finished;
      assert forall v: Write :: v.id == id ==> Take(s, x).due[v] == s.due[v];
    }
  }

  lemma {:induction false} RunKeepsOnlyWrite(s: System, steps: seq<Step>, t: System, id: RunId, before: seq<Write>,
      w: Write)
    requires SlotInv(s) && Reachable(s, steps, t) && w.id == id && OnlyWriteLeft(s, id, before, w)
    ensures OnlyWriteLeft(t, id, before, w)
    decreases |steps|
  {
    if steps != [] {
      StepKeepsSlotInv(s, steps[0]);
      StepKeepsOnlyWrite(s, steps[0], id, before, w);
      RunKeepsOnlyWrite(Take(s, steps[0]), steps[1..], t, id, before, w);
    }
  }

  /** With no write of the run due when it finishes, its terminal status is the last one ever stored for it. */
  lemma FinishIsLast(s: System, id: RunId, status: DbStatus, steps: seq<Step>, t: System)
    requires SlotInv(s) && Holds(s.slot, id) && Enabled(s, Finish(id, status)) && NothingDue(s, id)
    requires Reachable(Take(s, Finish(id, status)), steps, t) && NothingDue(t, id)
    ensures WritesOf(t.db, id) == WritesOf(s.db, id) + [Write(id, status)]
  {
    var after := Take(s, Finish(id, status));
    StepKeepsSlotInv(s, Finish(id, status));
    forall v | v in after.due && v.id == id ensures v == Write(id, status) && after.due[v] == 1 {
      assert v == Write(v.id, v.status);
    }
    RunKeepsOnlyWrite(after, steps, t, id, WritesOf(s.db, id), Write(id, status));
  }

  /** Everything that is due can be stored, in any order: here one chosen write comes last. */
  lemma {:induction false} DrainBut(s: System, w: Write) returns (steps: seq<Step>, t: System)
    requires w in s.due
    ensures Reachable(s, steps, t) && t.due == multiset{w}
    decreases |s.due|
  {
    var rest := s.due - multiset{w};
    if |rest| == 0 {
      assert s.due == multiset{w};
      steps, t := [], s;
    } else {
      var v :| v in rest;
      assert w in s.due - multiset{v} && |s.due - multiset{v}| < |s.due|;
      steps, t := DrainBut(Take(s, Persist(v)), w);
      ReachBack(s, Persist(v), steps, t);
      steps := [Persist(v)] + steps;
    }
  }

  lemma DrainToLast(s: System, w: Write) returns (steps: seq<Step>, t: System)
    requires w in s.due
    ensures Reachable(s, steps, t) && t.due == multiset{}
    ensures WritesOf(t.db, w.id) != [] && WritesOf(t.db, w.id)[|WritesOf(t.db, w.id)| - 1] == w
  {
    var m;
    steps, m := DrainBut(s, w);
    assert m.due - multiset{w} == multiset{};
    WritesSnoc(m.db, w, w.id);
    steps, t := Extend(s, steps, m, Persist(w));
  }

  /** The last status stored for the run is a terminal one. */
  predicate StoredTerminal(db: seq<Write>, id: RunId) {
    var writes := WritesOf(db, id);
    writes != [] && writes[|writes| - 1].status.Terminal()
  }

  /** However the writes of the run are stored from here, its last stored status is terminal. */
  ghost predicate EndsTerminal(s: System, id: RunId) {
    forall steps, t :: Reachable(s, steps, t) && NothingDue(t, id) ==> StoredTerminal(t.db, id)
  }

  lemma DueIsNotTerminal(s: System, w: Write)
    requires Inv(s) && w in s.due && w.id !in s.finished && w.id !in s.abandoned
    ensures !w.status.Terminal()
  {
    assert TerminalDue(s.due, w.id) == 0;
    assert w == Write(w.id, w.status);
  }

  /**
   * Main result, the exact condition for a sound stored status: whatever is interleaved, a run that finishes ends up
   * with a terminal status if and only if none of its earlier writes is still due at that moment.
   */
  lemma TerminalStatusIffNothingDue(s: System, id: RunId, status: DbStatus)
    requires Inv(s) && Holds(s.slot, id) && Enabled(s, Finish(id, status))
    ensures EndsTerminal(Take(s, Finish(id, status)), id) <==> NothingDue(s, id)
  {
    var after := Take(s, Finish(id, status));
    if NothingDue(s, id) {
      forall steps, t | Reachable(after, steps, t) && NothingDue(t, id) ensures StoredTerminal(t.db, id) {
        FinishIsLast(s, id, status, steps, t);
      }
    } else {
      var st :| Write(id, st) in s.due;
      DueIsNotTerminal(s, Write(id, st));
      var steps, t := DrainToLast(after, Write(id, st));
      assert Reachable(after, steps, t) && NothingDue(t, id) && !StoredTerminal(t.db, id);
    }
  }

  // ---------- the dispatcher ----------

  datatype Event = Asked | RunCompleted | RunCancelled | RunError | FinalizeReturned(success: bool, saved: bool)
    | OtherEvent

  /** The lock-level steps of the hooks for an event of the dispatcher's own run; events of child runs have none. */
  function HookSteps(id: RunId, ownRun: bool, ev: Event): seq<Step> {
    if !ownRun then [] else
      match ev
      case Asked => [Suspend(id)]
      case RunCompleted => [Finish(id, DbCompleted)]
      case RunCancelled => [Finish(id, DbCancelled)]
      case RunError => [Finish(id, DbFailed)]
      case FinalizeReturned(success, saved) => if success && !saved then [Cancel(id), Finish(id, DbFailed)] else []
      case OtherEvent => []
  }

  /** What a step does to the slot. */
  function SlotStep(s: Slot, x: Step): Slot {
    match x
    case Start(id) => Started(s, id)
    case Finish(id, _) => Finished(s, id)
    case Suspend(id) => Suspended(s, id)
    case Quit(_) => s
    case Reply => Consumed(s)
    case DropReply => Consumed(s)
    case Drop(id) => Cancelled(s, id)
    case Abandon(id) => Cancelled(s, id)
    case UpdateCancel(id) => WithCancel(s, id)
    case Cancel(id) => Cancelled(s, id)
    case Persist(_) => s
  }

  function SlotAfter(s: Slot, steps: seq<Step>): Slot {
    if steps == [] then s else SlotStep(SlotAfter(s, steps[..|steps| - 1]), steps[|steps| - 1])
  }

  function StatusOf(ev: Event): DbStatus {
    match ev
    case Asked => DbWaiting
    case RunCompleted => DbCompleted
    case RunCancelled => DbCancelled
    case _ => DbFailed
  }

  /** The hooks of an event suspend the run, finish it, or leave the slot alone. */
  lemma HooksActAs(s: Slot, id: RunId, ownRun: bool, ev: Event)
    requires id != ""
    ensures SlotAfter(s, HookSteps(id, ownRun, ev))
         == if HookSteps(id, ownRun, ev) == [] then s else if ev.Asked? then Suspended(s, id) else Finished(s, id)
  {
    var steps := HookSteps(id, ownRun, ev);
    if |steps| == 2 {
      assert steps[..1] == [Cancel(id)] && steps[..1][..0] == [];
      assert SlotAfter(s, [Cancel(id)]) == SlotStep(SlotAfter(s, []), Cancel(id));
    } else if |steps| == 1 {
      assert steps[..0] == [];
    }
  }

  /** Taking the steps of an event's hooks makes one status write due when the run holds the slot, and no other. */
  lemma HooksWrite(s: System, id: RunId, ownRun: bool, ev: Event, t: System)
    requires id != "" && Reachable(s, HookSteps(id, ownRun, ev), t)
    ensures t.due == s.due + multiset(WrittenNow(s.slot, id, ownRun, ev))
    ensures t.slot == SlotAfter(s.slot, HookSteps(id, ownRun, ev))
  {
    var steps := HookSteps(id, ownRun, ev);
    HooksActAs(s.slot, id, ownRun, ev);
    if |steps| == 2 {
      assert steps == [Cancel(id)] + [Finish(id, DbFailed)];
      ReachHead(s, Cancel(id), [Finish(id, DbFailed)], t);
      ReachHead(Take(s, Cancel(id)), Finish(id, DbFailed), [], t);
    } else if |steps| == 1 {
      assert steps == [steps[0]] + [];
      ReachHead(s, steps[0], [], t);
    }
  }

  /** Wherever the run holds this slot: the hooks' steps lead to that slot and make exactly these writes due. */
  ghost predicate WritesAsHooks(before: Slot, id: RunId, ownRun: bool, ev: Event, after: Slot, added: seq<Write>) {
    forall s: System, t: System :: s.slot == before && Reachable(s, HookSteps(id, ownRun, ev), t) ==>
      t.due == s.due + multiset(added) && t.slot == after
  }

  lemma HooksWriteAll(before: Slot, id: RunId, ownRun: bool, ev: Event)
    requires id != ""
    ensures WritesAsHooks(before, id, ownRun, ev, SlotAfter(before, HookSteps(id, ownRun, ev)),
                          WrittenNow(before, id, ownRun, ev))
  {
    forall s: System, t: System | s.slot == before && Reachable(s, HookSteps(id, ownRun, ev), t)
      ensures t.due == s.due + multiset(WrittenNow(before, id, ownRun, ev))
           && t.slot == SlotAfter(before, HookSteps(id, ownRun, ev))
    {
      HooksWrite(s, id, ownRun, ev, t);
    }
  }

  function WrittenNow(s: Slot, id: RunId, ownRun: bool, ev: Event): seq<Write> {
    if HookSteps(id, ownRun, ev) != [] && Holds(s, id) then [Write(id, StatusOf(ev))] else []
  }

  /** One dispatcher, for one run of a session. */
  class Dispatcher {
    const session: Session
    const id: RunId
    var writes: seq<Write>

    constructor (session: Session, id: RunId)
      ensures this.session == session && this.id == id && writes == []
    {
      this.session, this.id, writes := session, id, [];
    }

    /**
     * Delivery, then the report hook, then the run hook: a status is written exactly when the session operation took
     * effect.
     */
    method Emit(ownRun: bool, ev: Event)
      requires id != ""
      modifies this`writes, session
      ensures session.slot == SlotAfter(old(session.slot), HookSteps(id, ownRun, ev))
      ensures old(writes) <= writes
      ensures WritesAsHooks(old(session.slot), id, ownRun, ev, session.slot, writes[|old(writes)|..])
      ensures writes == old(writes) + WrittenNow(old(session.slot), id, ownRun, ev)
    {
      HooksActAs(session.slot, id, ownRun, ev);
      HooksWriteAll(session.slot, id, ownRun, ev);
      ghost var before := writes;
      assert before + [] == before;
      if !ownRun { return; }
      if ev.FinalizeReturned? && ev.success && !ev.saved {
        var _ := session.CancelRun(id);
        var finished := session.FinishRun(id);
        if finished { writes := writes + [Write(id, DbFailed)]; }
      }
      match ev
      case Asked =>
        var ok := session.SuspendRun(id);
        if ok { writes := writes + [Write(id, DbWaiting)]; }
      case RunCompleted =>
        var ok := session.FinishRun(id);
        if ok { writes := writes + [Write(id, DbCompleted)]; }
      case RunCancelled =>
        var ok := session.FinishRun(id);
        if ok { writes := writes + [Write(id, DbCancelled)]; }
      case RunError =>
        var ok := session.FinishRun(id);
        if ok { writes := writes + [Write(id, DbFailed)]; }
      case FinalizeReturned(_, _) =>
      case OtherEvent =>
    }
  }
}
