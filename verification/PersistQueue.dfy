/** The asynchronous event store of server/handler/ws.go: one worker, a bounded queue, and overflow writers. */
module PersistQueue {

  type Job = nat

  const CAPACITY := 4096
  const MAX_OVERFLOW := 8

  datatype Worker = Ready | Busy(job: Job) | Exited

  /**
   * Senders hold a job (`holding`), have found the queue full (`overflowing`) or are about to drop it (`rejecting`).
   * Overflow writers are saving a job (`saving`) or have saved it and not yet left (`leaving`).
   */
  datatype State = State(
    open: bool, stopping: bool, queue: seq<Job>, worker: Worker, counter: int,
    holding: set<Job>, overflowing: set<Job>, rejecting: set<Job>, saving: set<Job>, leaving: set<Job>,
    accepted: set<Job>, enqueued: seq<Job>, workerSaved: seq<Job>, overflowSaved: set<Job>, dropped: set<Job>,
    enqueuedAtExit: nat)

  const INITIAL := State(true, false, [], Ready, 0, {}, {}, {}, {}, {}, {}, [], [], {}, {}, 0)

  datatype Step = Accept(job: Job) | Enqueue(job: Job) | FindFull(job: Job) | CountUp(job: Job) | Reject(job: Job)
    | WriterSaves(job: Job) | WriterLeaves(job: Job) | WorkerTakes | WorkerSaves | CloseQueue | StopWorker | WorkerExits

  predicate Enabled(s: State, x: Step) {
    match x
    case Accept(j) => s.open && j !in s.accepted
    case Enqueue(j) => j in s.holding && |s.queue| < CAPACITY
    case FindFull(j) => j in s.holding && |s.queue| >= CAPACITY
    case CountUp(j) => j in s.overflowing
    case Reject(j) => j in s.rejecting
    case WriterSaves(j) => j in s.saving
    case WriterLeaves(j) => j in s.leaving
    case WorkerTakes => s.worker.Ready? && s.queue != []
    case WorkerSaves => s.worker.Busy?
    case CloseQueue => s.open
    case StopWorker => !s.open
    case WorkerExits => s.worker.Ready? && s.stopping && s.queue == []
  }

  function Take(s: State, x: Step): State
    requires Enabled(s, x)
  {
    match x
    case Accept(j) => s.(holding := s.holding + {j}, accepted := s.accepted + {j})
    case Enqueue(j) => s.(holding := s.holding - {j}, queue := s.queue + [j], enqueued := s.enqueued + [j])
    case FindFull(j) => s.(holding := s.holding - {j}, overflowing := s.overflowing + {j})
    case CountUp(j) =>
      if s.counter + 1 <= MAX_OVERFLOW
      then s.(counter := s.counter + 1, overflowing := s.overflowing - {j}, saving := s.saving + {j})
      else s.(counter := s.counter + 1, overflowing := s.overflowing - {j}, rejecting := s.rejecting + {j})
    case Reject(j) => s.(counter := s.counter - 1, rejecting := s.rejecting - {j}, dropped := s.dropped + {j})
    case WriterSaves(j) =>
      s.(saving := s.saving - {j}, leaving := s.leaving + {j}, overflowSaved := s.overflowSaved + {j})
    case WriterLeaves(j) => s.(leaving := s.leaving - {j}, counter := s.counter - 1)
    case WorkerTakes => s.(queue := s.queue[1..], worker := Busy(s.queue[0]))
    case WorkerSaves => s.(worker := Ready, workerSaved := s.workerSaved + [s.worker.job])
    case CloseQueue => s.(open := false)
    case StopWorker => s.(stopping := true)
    case WorkerExits => s.(worker := Exited, enqueuedAtExit := |s.enqueued|)
  }

  ghost predicate Reachable(s: State, steps: seq<Step>, t: State)
    decreases |steps|
  {
    if steps == [] then s == t else Enabled(s, steps[0]) && Reachable(Take(s, steps[0]), steps[1..], t)
  }

  function InHand(w: Worker): seq<Job> {
    if w.Busy? then [w.job] else []
  }

  function One(b: bool): nat { if b then 1 else 0 }

  /** How often a job is found anywhere. */
  function Tally(s: State, j: Job): nat {
    One(j in s.holding) + One(j in s.overflowing) + One(j in s.rejecting) + One(j in s.saving)
    + One(j in s.overflowSaved) + One(j in s.dropped) + multiset(s.enqueued)[j]
  }

  /** Every accepted job is in exactly one place, and no other job anywhere. */
  ghost predicate Conserved(s: State) {
    forall j :: Tally(s, j) == One(j in s.accepted)
  }

  /** What the worker saved, holds and has still queued is what was queued, in order. */
  ghost predicate InOrder(s: State) {
    s.enqueued == s.workerSaved + InHand(s.worker) + s.queue
  }

  /** The counter counts the overflow writers and the senders that are about to take their increment back. */
  ghost predicate Counted(s: State) {
    && s.leaving <= s.overflowSaved
    && s.counter == |s.saving| + |s.leaving| + |s.rejecting| && |s.saving| + |s.leaving| <= MAX_OVERFLOW
  }

  ghost predicate ExitedClean(s: State) {
    s.worker.Exited? ==> s.enqueuedAtExit <= |s.enqueued| && s.workerSaved == s.enqueued[..s.enqueuedAtExit]
                         && s.queue == s.enqueued[s.enqueuedAtExit..]
  }

  ghost predicate Inv(s: State) {
    Conserved(s) && InOrder(s) && Counted(s) && ExitedClean(s)
  }

  lemma StepConserves(s: State, x: Step)
    requires Conserved(s) && Enabled(s, x)
    ensures Conserved(Take(s, x))
  {
    forall j ensures Tally(Take(s, x), j) == One(j in Take(s, x).accepted) {
      assert Tally(s, j) == One(j in s.accepted);
      if x.Accept? || x.Enqueue? || x.FindFull? || x.CountUp? {
        SenderConserves(s, x, j);
      } else {
        RestConserves(s, x, j);
      }
    }
  }

  lemma SenderConserves(s: State, x: Step, j: Job)
    requires Enabled(s, x) && (x.Accept? || x.Enqueue? || x.FindFull? || x.CountUp?)
             && Tally(s, j) == One(j in s.accepted)
    requires Tally(s, x.job) == One(x.job in s.accepted)
    ensures Tally(Take(s, x), j) == One(j in Take(s, x).accepted)
  {
    if x.Enqueue? { assert multiset(s.enqueued + [x.job])[j] == multiset(s.enqueued)[j] + One(j == x.job); }
  }

  lemma RestConserves(s: State, x: Step, j: Job)
    requires Enabled(s, x) && !(x.Accept? || x.Enqueue? || x.FindFull? || x.CountUp?)
             && Tally(s, j) == One(j in s.accepted)
    ensures Tally(Take(s, x), j) == One(j in Take(s, x).accepted)
  {
  }

  lemma StepCounts(s: State, x: Step)
    requires Conserved(s) && Counted(s) && Enabled(s, x)
    ensures Counted(Take(s, x))
  {
    if x.CountUp? || x.WriterSaves? { assert Tally(s, x.job) <= 1; }
  }

  lemma StepKeepsOrder(s: State, x: Step)
    requires InOrder(s) && ExitedClean(s) && Enabled(s, x)
    ensures InOrder(Take(s, x)) && ExitedClean(Take(s, x))
  {
    var t := Take(s, x);
    if x.Enqueue? {
      assert t.enqueued == s.workerSaved + InHand(s.worker) + t.queue;
    } else if x.WorkerTakes? {
      assert s.queue == [s.queue[0]] + t.queue;
    } else if x.WorkerExits? {
      assert s.enqueued == s.workerSaved;
    }
  }

  lemma {:induction false} RunKeepsInv(s: State, steps: seq<Step>, t: State)
    requires Inv(s) && Reachable(s, steps, t)
    ensures Inv(t)
    decreases |steps|
  {
    if steps != [] {
      StepConserves(s, steps[0]);
      StepCounts(s, steps[0]);
      StepKeepsOrder(s, steps[0]);
      RunKeepsInv(Take(s, steps[0]), steps[1..], t);
    }
  }

  /** How often a job is found in the places a reader would look. */
  function Places(s: State, j: Job): nat {
    multiset(s.queue)[j] + (multiset(InHand(s.worker))[j] + One(j in s.saving))
    + (multiset(s.workerSaved)[j] + One(j in s.overflowSaved)) + One(j in s.dropped)
  }

  /**
   * Main result: in every interleaving of any number of senders, jobs are conserved, saved in order, and written by
   * few.
   */
  lemma EveryInterleaving(steps: seq<Step>, t: State)
    requires Reachable(INITIAL, steps, t)
    ensures |t.saving| + |t.leaving| <= MAX_OVERFLOW
    ensures forall j :: j in t.accepted && j !in t.holding + t.overflowing + t.rejecting ==> Places(t, j) == 1
    ensures forall j :: j in t.holding + t.overflowing + t.rejecting || j !in t.accepted ==> Places(t, j) == 0
    ensures t.workerSaved <= t.enqueued
    ensures t.worker.Exited? ==>
              && t.enqueuedAtExit <= |t.enqueued|
              && t.workerSaved == t.enqueued[..t.enqueuedAtExit] && t.queue == t.enqueued[t.enqueuedAtExit..]
  {
    RunKeepsInv(INITIAL, steps, t);
    forall j
      ensures One(j in t.holding) + One(j in t.overflowing) + One(j in t.rejecting) + Places(t, j)
              == One(j in t.accepted)
    {
      assert Tally(t, j) == One(j in t.accepted);
      assert multiset(t.enqueued) == multiset(t.workerSaved) + multiset(InHand(t.worker)) + multiset(t.queue);
    }
  }

  /** A job still held by a sender when the worker leaves may be queued and never saved. */
  lemma LateJobIsStranded(j: Job) returns (t: State)
    ensures Reachable(INITIAL, [Accept(j), CloseQueue, StopWorker, WorkerExits, Enqueue(j)], t)
    ensures t.worker.Exited? && t.queue == [j] && t.workerSaved == []
  {
    var a := Take(INITIAL, Accept(j));
    var b := Take(a, CloseQueue);
    var c := Take(b, StopWorker);
    var d := Take(c, WorkerExits);
    t := Take(d, Enqueue(j));
    assert Reachable(d, [Enqueue(j)], t) by { assert [Enqueue(j)][1..] == []; }
    assert Reachable(c, [WorkerExits, Enqueue(j)], t) by { assert [WorkerExits, Enqueue(j)][1..] == [Enqueue(j)]; }
    assert Reachable(b, [StopWorker, WorkerExits, Enqueue(j)], t) by {
      assert [StopWorker, WorkerExits, Enqueue(j)][1..] == [WorkerExits, Enqueue(j)];
    }
    assert Reachable(a, [CloseQueue, StopWorker, WorkerExits, Enqueue(j)], t) by {
      assert [CloseQueue, StopWorker, WorkerExits, Enqueue(j)][1..] == [StopWorker, WorkerExits, Enqueue(j)];
    }
    assert [Accept(j), CloseQueue, StopWorker, WorkerExits, Enqueue(j)][1..]
           == [CloseQueue, StopWorker, WorkerExits, Enqueue(j)];
  }

  // ---------- which jobs are dropped, and what can still be saved ----------

  /** The k-th step of the run is x, taken in the state u. */
  ghost predicate Takes(s: State, steps: seq<Step>, t: State, k: nat, u: State, x: Step) {
    k < |steps| && steps[k] == x && Reachable(s, steps[..k], u) && Enabled(u, x)
    && Reachable(Take(u, x), steps[k + 1..], t)
  }

  lemma TakesLater(s: State, steps: seq<Step>, t: State, k: nat, u: State, x: Step)
    requires steps != [] && Enabled(s, steps[0]) && Takes(Take(s, steps[0]), steps[1..], t, k, u, x)
    ensures Takes(s, steps, t, k + 1, u, x)
  {
    assert steps[..k + 1][1..] == steps[1..][..k] && steps[1..][k + 1..] == steps[k + 2..];
  }

  /** A property that the run gains is gained at some step. */
  lemma {:induction false} Turns(s: State, steps: seq<Step>, t: State, p: State -> bool) returns (k: nat, u: State)
    requires Reachable(s, steps, t) && !p(s) && p(t)
    ensures k < |steps| && Takes(s, steps, t, k, u, steps[k]) && !p(u) && p(Take(u, steps[k]))
    decreases |steps|
  {
    var v := Take(s, steps[0]);
    if p(v) {
      k, u := 0, s;
      assert steps[..0] == [];
    } else {
      k, u := Turns(v, steps[1..], t, p);
      TakesLater(s, steps, t, k, u, steps[1..][k]);
      k := k + 1;
    }
  }

  predicate Refused(s: State, j: Job) {
    j in s.rejecting || j in s.dropped
  }

  predicate Written(s: State, j: Job) {
    j in s.saving || j in s.overflowSaved
  }

  predicate Decided(s: State, j: Job) {
    Refused(s, j) || Written(s, j)
  }

  predicate Overflown(s: State, j: Job) {
    j in s.overflowing || Decided(s, j)
  }

  lemma OnlyCountUpDecides(s: State, x: Step, j: Job)
    requires Enabled(s, x) && !Decided(s, j) && Decided(Take(s, x), j)
    ensures x == CountUp(j)
  {
  }

  lemma OnlyFindFullOverflows(s: State, x: Step, j: Job)
    requires Enabled(s, x) && !Overflown(s, j) && Overflown(Take(s, x), j)
    ensures x == FindFull(j)
  {
  }

  lemma {:induction false} FateStands(s: State, steps: seq<Step>, t: State, j: Job)
    requires Reachable(s, steps, t)
    ensures Refused(s, j) ==> Refused(t, j)
    ensures Written(s, j) ==> Written(t, j)
    decreases |steps|
  {
    if steps != [] { FateStands(Take(s, steps[0]), steps[1..], t, j); }
  }

  /** A sender that found the queue full counts up while so many increments stand. */
  ghost predicate CountsUp(steps: seq<Step>, t: State, j: Job, standing: nat) {
    exists k: nat, u: State :: Takes(INITIAL, steps, t, k, u, CountUp(j))
      && |u.saving| + |u.leaving| + |u.rejecting| == standing
  }

  lemma CountDecides(steps: seq<Step>, t: State, k: nat, u: State, j: Job)
    requires Takes(INITIAL, steps, t, k, u, CountUp(j))
    ensures if |u.saving| + |u.leaving| + |u.rejecting| < MAX_OVERFLOW then Written(t, j) else Refused(t, j)
  {
    RunKeepsInv(INITIAL, steps[..k], u);
    FateStands(Take(u, CountUp(j)), steps[k + 1..], t, j);
  }

  lemma FateIsCounted(steps: seq<Step>, t: State, j: Job) returns (standing: nat)
    requires Reachable(INITIAL, steps, t) && Decided(t, j)
    ensures CountsUp(steps, t, j, standing)
    ensures if standing < MAX_OVERFLOW then Written(t, j) else Refused(t, j)
  {
    var k, u := Turns(INITIAL, steps, t, s => Decided(s, j));
    OnlyCountUpDecides(u, steps[k], j);
    standing := |u.saving| + |u.leaving| + |u.rejecting|;
    CountDecides(steps, t, k, u, j);
  }

  /** Main result: a job is refused exactly when eight increments stand as its sender counts up, written if fewer do. */
  lemma DroppedIffCrowded(steps: seq<Step>, t: State, j: Job)
    requires Reachable(INITIAL, steps, t)
    ensures Refused(t, j) <==> exists n: nat :: n >= MAX_OVERFLOW && CountsUp(steps, t, j, n)
    ensures Written(t, j) <==> exists n: nat :: n < MAX_OVERFLOW && CountsUp(steps, t, j, n)
  {
    RunKeepsInv(INITIAL, steps, t);
    assert Tally(t, j) == One(j in t.accepted);
    forall n: nat | CountsUp(steps, t, j, n) ensures if n < MAX_OVERFLOW then Written(t, j) else Refused(t, j) {
      var k: nat, u: State :| Takes(INITIAL, steps, t, k, u, CountUp(j))
        && |u.saving| + |u.leaving| + |u.rejecting| == n;
      CountDecides(steps, t, k, u, j);
    }
    if Decided(t, j) { var n := FateIsCounted(steps, t, j); }
  }

  /** A job leaves the path through the queue only where its sender finds the queue full. */
  lemma OverflowMeansFull(steps: seq<Step>, t: State, j: Job) returns (k: nat, u: State)
    requires Reachable(INITIAL, steps, t) && Overflown(t, j)
    ensures Takes(INITIAL, steps, t, k, u, FindFull(j)) && |u.queue| >= CAPACITY
  {
    k, u := Turns(INITIAL, steps, t, s => Overflown(s, j));
    OnlyFindFullOverflows(u, steps[k], j);
  }

  function Load(s: State): nat {
    2 * |s.queue| + One(s.worker.Busy?) + 4 * |s.holding| + 4 * |s.overflowing| + 3 * |s.saving| + 2 * |s.leaving|
    + |s.rejecting|
  }

  predicate Settled(s: State) {
    s.queue == [] && s.worker.Ready? && s.holding == s.overflowing == s.saving == s.leaving == s.rejecting == {}
  }

  /** A step that goes on without a new refusal: overflow writers leave before another sender counts up. */
  ghost predicate Onward(s: State, x: Step) {
    && Enabled(s, x) && !Take(s, x).worker.Exited? && Load(Take(s, x)) < Load(s)
    && Take(s, x).accepted == s.accepted
    && Take(s, x).dropped + Take(s, x).rejecting == s.dropped + s.rejecting
  }

  lemma WorkerGoesOn(s: State) returns (x: Step)
    requires s.worker.Busy? || (s.worker.Ready? && s.queue != [])
    ensures Onward(s, x)
  {
    x := if s.worker.Busy? then WorkerSaves else WorkerTakes;
  }

  lemma RejectGoesOn(s: State, j: Job)
    requires !s.worker.Exited? && j in s.rejecting
    ensures Onward(s, Reject(j))
  {
    assert (s.dropped + {j}) + (s.rejecting - {j}) == s.dropped + s.rejecting;
  }

  lemma SavingGoesOn(s: State, j: Job)
    requires !s.worker.Exited? && j in s.saving
    ensures Onward(s, WriterSaves(j))
  {
    var t := Take(s, WriterSaves(j));
    assert |t.saving| == |s.saving| - 1 && |t.leaving| <= |s.leaving| + 1;
  }

  lemma LeavingGoesOn(s: State, j: Job)
    requires !s.worker.Exited? && j in s.leaving
    ensures Onward(s, WriterLeaves(j))
  {
  }

  lemma WriterGoesOn(s: State) returns (x: Step)
    requires !s.worker.Exited? && !(s.rejecting == s.saving == s.leaving == {})
    ensures Onward(s, x)
  {
    if s.rejecting != {} {
      var j :| j in s.rejecting;
      x := Reject(j);
      RejectGoesOn(s, j);
    } else if s.saving != {} {
      var j :| j in s.saving;
      x := WriterSaves(j);
      SavingGoesOn(s, j);
    } else {
      var j :| j in s.leaving;
      x := WriterLeaves(j);
      LeavingGoesOn(s, j);
    }
  }

  lemma SenderGoesOn(s: State) returns (x: Step)
    requires !s.worker.Exited? && s.queue == [] && s.counter == 0 && !(s.holding == s.overflowing == {})
    ensures Onward(s, x)
  {
    if s.overflowing != {} {
      var j :| j in s.overflowing;
      x := CountUp(j);
    } else {
      var j :| j in s.holding;
      x := Enqueue(j);
    }
  }

  lemma {:induction false} CanSettle(s: State) returns (steps: seq<Step>, t: State)
    requires Inv(s) && !s.worker.Exited?
    ensures Reachable(s, steps, t) && Settled(t)
    ensures t.accepted == s.accepted && t.dropped == s.dropped + s.rejecting
    decreases Load(s)
  {
    if Settled(s) {
      steps, t := [], s;
    } else {
      var x;
      if s.worker.Busy? || s.queue != [] {
        x := WorkerGoesOn(s);
      } else if !(s.rejecting == s.saving == s.leaving == {}) {
        x := WriterGoesOn(s);
      } else {
        x := SenderGoesOn(s);
      }
      RunKeepsInv(s, [x], Take(s, x));
      var rest;
      rest, t := CanSettle(Take(s, x));
      steps := [x] + rest;
      assert steps[1..] == rest;
    }
  }

  /**
   * Main result: until the worker has left, every accepted job that is not refused can still be saved, once, whatever
   * happened so far.
   */
  lemma AllCanBeSaved(before: seq<Step>, s: State) returns (steps: seq<Step>, t: State)
    requires Reachable(INITIAL, before, s) && !s.worker.Exited?
    ensures Reachable(s, steps, t)
    ensures t.accepted == s.accepted
    ensures forall j :: j in s.accepted ==>
              multiset(t.workerSaved)[j] + One(j in t.overflowSaved) == One(!Refused(s, j))
  {
    RunKeepsInv(INITIAL, before, s);
    steps, t := CanSettle(s);
    RunKeepsInv(s, steps, t);
    assert t.enqueued == t.workerSaved;
    forall j | j in s.accepted
      ensures multiset(t.workerSaved)[j] + One(j in t.overflowSaved) == One(!Refused(s, j))
    {
      assert Tally(t, j) == 1;
    }
  }
}
