/**
 * Rebuilding working memory and goals from persisted events: server/handler/runtime_state.go against the live tools,
 * over any number of tool executions, delegations, session resets and server restarts.
 */
module Replay {
  import opened Text
  import opened Goals

  const MAX_FACTS := 50
  const MAX_FACT := 2000

  /** Facts by key; a fact is cut at a byte, so it may end in a torn rune. */
  type Memory = map<string, Cut>

  /** The tool arguments the replay looks at. */
  datatype Args = SaveArgs(key: string, fact: string) | AddArgs(description: string, parent: string)
    | CloseArgs(goalId: string, status: Status, result: string) | OtherArgs

  datatype ToolName = SaveTool | GoalTool | OtherTool

  /** Persisted events that matter to the replay; callId is blank when the event has none. */
  datatype Event = MemoryUpdated(facts: Memory) | GoalsUpdated(goals: seq<Goal>)
    | ToolCalled(callId: string, args: Args)
    | ToolReturned(callId: string, tool: ToolName, success: bool, goalId: string)

  // ---------- the live side ----------

  datatype Live = Live(memory: Memory, goals: seq<Goal>)

  /** Who ran the tool: the main loop, the main loop cancelled meanwhile (it drops the result), or a delegate's loop. */
  datatype Via = MainLoop | Cancelled | DelegateLoop

  /** What happens to a session. */
  datatype Op = SaveFact(callId: string, key: string, fact: string, via: Via)
    | AddGoal(callId: string, newId: string, description: string, parent: string, blocking: bool, via: Via)
    | CloseGoal(callId: string, goalId: string, status: Status, result: string, via: Via)
    | Unrun(callId: string, tool: ToolName, args: Args, via: Via)
    | OtherCall(callId: string)
    | OtherReturn(callId: string, success: bool)
    | DelegateStatus(goalId: string, status: Status, result: string, always: bool)
    | Reset
    | Restart

  function Clip(fact: string): Cut {
    Truncate(fact, MAX_FACT)
  }

  /** A snapshot as it is stored and read back: torn runes have become replacement characters. */
  function Stored(m: Memory): Memory {
    map k | k in m :: Cut(m[k].Shown(), 0)
  }

  /** Some fact ends in a torn rune. */
  predicate Torn(m: Memory) {
    exists k :: k in m && m[k].torn > 0
  }

  /** memory_save_fact takes effect. */
  predicate Saves(l: Live, op: Op) {
    op.SaveFact? && op.key != "" && op.fact != "" && (|l.memory| < MAX_FACTS || op.key in l.memory)
  }

  /** memory_save_fact finds the memory full and says so without an error. */
  predicate Refuses(l: Live, op: Op) {
    op.SaveFact? && op.key != "" && op.fact != "" && |l.memory| >= MAX_FACTS && op.key !in l.memory
  }

  predicate Adds(l: Live, op: Op) {
    op.AddGoal? && op.description != "" && |l.goals| < MAX_GOALS
  }

  predicate Closes(l: Live, op: Op) {
    op.CloseGoal? && op.goalId != "" && Known(l.goals, op.goalId)
  }

  /** A delegation changes the status of its goal, and stores a snapshot. */
  predicate Delegates(l: Live, op: Op) {
    op.DelegateStatus? && op.goalId != "" && (op.always || Known(l.goals, op.goalId))
  }

  function LiveNext(l: Live, op: Op): Live {
    if Saves(l, op) then l.(memory := l.memory[op.key := Clip(op.fact)])
    else if Adds(l, op) then l.(goals := Added(l.goals, op.newId, op.description, op.parent, op.blocking))
    else if Closes(l, op) || Delegates(l, op) then l.(goals := SetStatus(l.goals, op.goalId, op.status, op.result))
    else if op.Reset? then Live(map[], [])
    else l
  }

  /** The stored result: none after a cancellation; a delegate's loop calls everything but an error a success. */
  function Result(c: string, tool: ToolName, via: Via, ok: bool, error: bool, goalId: string): seq<Event> {
    match via
    case Cancelled => []
    case MainLoop => [ToolReturned(c, tool, ok, goalId)]
    case DelegateLoop => [ToolReturned(c, tool, !error, goalId)]
  }

  /** What is persisted while the tool runs: the call, a snapshot of the state it changed, the result. */
  function Emitted(l: Live, op: Op): seq<Event> {
    var after := LiveNext(l, op);
    match op
    case SaveFact(c, key, fact, via) =>
      [ToolCalled(c, SaveArgs(key, fact))] + (if Saves(l, op) then [MemoryUpdated(Stored(after.memory))] else [])
      + Result(c, SaveTool, via, Saves(l, op), key == "" || fact == "", "")
    case AddGoal(c, newId, d, p, _, via) =>
      [ToolCalled(c, AddArgs(d, p))] + (if Adds(l, op) then [GoalsUpdated(after.goals)] else [])
      + Result(c, GoalTool, via, Adds(l, op), d == "", if Adds(l, op) then newId else "")
    case CloseGoal(c, g, st, r, via) =>
      [ToolCalled(c, CloseArgs(g, st, r))] + (if Closes(l, op) then [GoalsUpdated(after.goals)] else [])
      + Result(c, GoalTool, via, Closes(l, op), !Closes(l, op), g)
    case Unrun(c, tool, args, via) => [ToolCalled(c, args)] + [] + Result(c, tool, via, false, true, "")
    case OtherCall(c) => [ToolCalled(c, OtherArgs)]
    case OtherReturn(c, ok) => [ToolReturned(c, OtherTool, ok, "")]
    case DelegateStatus(_, _, _, _) => if Delegates(l, op) then [GoalsUpdated(after.goals)] else []
    case Reset => []
    case Restart => []
  }

  /** The facts of a session. */
  class WorkingMemory {
    var facts: Memory

    constructor ()
      ensures facts == map[]
    {
      facts := map[];
    }

    /** Fails only for a new key in a full memory; keeps the first 2000 bytes of the fact. */
    method SaveFact(key: string, fact: string) returns (ok: bool)
      modifies this
      ensures ok <==> |old(facts)| < MAX_FACTS || key in old(facts)
      ensures facts == if ok then old(facts)[key := Truncate(fact, MAX_FACT)] else old(facts)
      ensures |old(facts)| <= MAX_FACTS ==> |facts| <= MAX_FACTS
    {
      if |facts| >= MAX_FACTS {
        if key !in facts { return false; }
      }
      facts := facts[key := Truncate(fact, MAX_FACT)];
      return true;
    }
  }

  // ---------- the replay ----------

  datatype Rebuilt = Rebuilt(memory: Memory, goals: seq<Goal>, pending: map<string, Args>)

  const FRESH := Rebuilt(map[], [], map[])

  /** Unlike the live update, the replay changes every goal with the id. */
  function CloseAll(goals: seq<Goal>, id: string, status: Status, result: string): seq<Goal> {
    seq(|goals|, i requires 0 <= i < |goals| =>
      if goals[i].id == id then goals[i].(status := status, result := result) else goals[i])
  }

  /** A successful result is applied by the tool named in it; arguments of another tool read as blank ones. */
  function ReplayResult(r: Rebuilt, tool: ToolName, args: Args, goalId: string): Rebuilt {
    match args
    case SaveArgs(key, fact) => if tool == SaveTool && key != "" then r.(memory := r.memory[key := Cut(fact, 0)]) else r
    case AddArgs(d, p) =>
      if tool == GoalTool && goalId != "" then r.(goals := r.goals + [Goal(goalId, p, d, Pending, false, "")]) else r
    case CloseArgs(g, st, res) => if tool == GoalTool then r.(goals := CloseAll(r.goals, g, st, res)) else r
    case OtherArgs => r
  }

  function ReplayEvent(r: Rebuilt, e: Event): Rebuilt {
    match e
    case MemoryUpdated(facts) => r.(memory := facts)
    case GoalsUpdated(goals) => r.(goals := goals)
    case ToolCalled(c, args) => if c != "" then r.(pending := r.pending[c := args]) else r
    case ToolReturned(c, tool, ok, g) =>
      if c == "" || c !in r.pending then r
      else
        var rest := r.(pending := r.pending - {c});
        if ok then ReplayResult(rest, tool, r.pending[c], g) else rest
  }

  function ReplayAll(r: Rebuilt, events: seq<Event>): Rebuilt
    decreases |events|
  {
    if events == [] then r else ReplayAll(ReplayEvent(r, events[0]), events[1..])
  }

  /** deriveRuntimeStateFromMessages, on memory and goals. */
  method DeriveRuntimeState(events: seq<Event>) returns (memory: Memory, goals: seq<Goal>)
    ensures memory == ReplayAll(FRESH, events).memory && goals == ReplayAll(FRESH, events).goals
  {
    var r := FRESH;
    assert events[0..] == events;
    for i := 0 to |events|
      invariant ReplayAll(r, events[i..]) == ReplayAll(FRESH, events)
    {
      assert events[i..][1..] == events[i + 1..];
      match events[i]
      case MemoryUpdated(facts) => r := r.(memory := facts);
      case GoalsUpdated(gs) => r := r.(goals := gs);
      case ToolCalled(c, args) => if c != "" { r := r.(pending := r.pending[c := args]); }
      case ToolReturned(c, tool, ok, g) =>
        if c != "" && c in r.pending {
          var args := r.pending[c];
          r := r.(pending := r.pending - {c});
          if ok { r := ApplyResult(r, tool, args, g); }
        }
    }
    memory, goals := r.memory, r.goals;
  }

  method ApplyResult(r: Rebuilt, tool: ToolName, args: Args, goalId: string) returns (s: Rebuilt)
    ensures s == ReplayResult(r, tool, args, goalId)
  {
    s := r;
    match tool
    case SaveTool =>
      if args.SaveArgs? && args.key != "" { s := s.(memory := s.memory[args.key := Cut(args.fact, 0)]); }
    case GoalTool =>
      if args.AddArgs? && goalId != "" {
        s := s.(goals := s.goals + [Goal(goalId, args.parent, args.description, Pending, false, "")]);
      } else if args.CloseArgs? {
        var goals := r.goals;
        for i := 0 to |goals|
          invariant |goals| == |r.goals|
          invariant forall k :: 0 <= k < |goals| ==>
            goals[k] == if k < i then CloseAll(r.goals, args.goalId, args.status, args.result)[k] else r.goals[k]
        {
          if goals[i].id == args.goalId {
            goals := goals[i := goals[i].(status := args.status, result := args.result)];
          }
        }
        s := s.(goals := goals);
      }
    case OtherTool =>
  }

  // ---------- replay against live ----------

  datatype Both = Both(live: Live, rebuilt: Rebuilt)

  const START := Both(Live(map[], []), FRESH)

  /** A restarted server loads what the replay rebuilds; the stored events stay. */
  function Advance(b: Both, op: Op): Both {
    if op.Restart? then Both(Live(b.rebuilt.memory, b.rebuilt.goals), b.rebuilt)
    else Both(LiveNext(b.live, op), ReplayAll(b.rebuilt, Emitted(b.live, op)))
  }

  function AdvanceAll(b: Both, ops: seq<Op>): Both {
    if ops == [] then b else Advance(AdvanceAll(b, ops[..|ops| - 1]), ops[|ops| - 1])
  }

  /** The live state in which the i-th operation of the session starts. */
  function Before(ops: seq<Op>, i: nat): Live
    requires i <= |ops|
  {
    AdvanceAll(START, ops[..i]).live
  }

  /** All events of the session, in the order they are persisted. */
  function History(b: Both, ops: seq<Op>): seq<Event> {
    if ops == [] then [] else
      var n := |ops| - 1;
      History(b, ops[..n]) + Emitted(AdvanceAll(b, ops[..n]).live, ops[n])
  }

  lemma {:induction false} ReplayAppend(r: Rebuilt, a: seq<Event>, b: seq<Event>)
    ensures ReplayAll(r, a + b) == ReplayAll(ReplayAll(r, a), b)
    decreases |a|
  {
    if a == [] {
      assert a + b == b;
    } else {
      assert (a + b)[1..] == a[1..] + b;
      ReplayAppend(ReplayEvent(r, a[0]), a[1..], b);
    }
  }

  /** Advancing step by step is replaying the whole persisted history. */
  lemma {:induction false} AdvanceIsReplay(b: Both, ops: seq<Op>)
    ensures AdvanceAll(b, ops).rebuilt == ReplayAll(b.rebuilt, History(b, ops))
  {
    if ops != [] {
      var n := |ops| - 1;
      AdvanceIsReplay(b, ops[..n]);
      ReplayAppend(b.rebuilt, History(b, ops[..n]), Emitted(AdvanceAll(b, ops[..n]).live, ops[n]));
    }
  }

  lemma ReplayOne(r: Rebuilt, a: Event)
    ensures ReplayAll(r, [a]) == ReplayEvent(r, a)
  {
    assert [a][1..] == [];
  }

  lemma ReplayParts(r: Rebuilt, a: Event, b: seq<Event>, c: seq<Event>)
    ensures ReplayAll(r, [a] + b + c) == ReplayAll(ReplayAll(ReplayEvent(r, a), b), c)
  {
    ReplayOne(r, a);
    ReplayAppend(r, [a], b);
    ReplayAppend(r, [a] + b, c);
  }

  /** The result is stored under an id, so the replay finds its call. */
  predicate Told(op: Op)
    requires op.SaveFact? || op.AddGoal? || op.CloseGoal? || op.Unrun?
  {
    op.callId != "" && !op.via.Cancelled?
  }

  /** The replay of a stored result, right after its call and the snapshot. */
  lemma ReplayResultEvent(r: Rebuilt, c: string, args: Args, tool: ToolName, via: Via, ok: bool, error: bool, g: string)
    requires c != "" ==> c in r.pending && r.pending[c] == args
    ensures var s := ReplayAll(r, Result(c, tool, via, ok, error, g));
            var success := if via.DelegateLoop? then !error else ok;
            if c == "" || via.Cancelled? || !success then s.memory == r.memory && s.goals == r.goals
            else s == ReplayResult(r.(pending := r.pending - {c}), tool, args, g)
  {
    if !via.Cancelled? { ReplayOne(r, Result(c, tool, via, ok, error, g)[0]); }
  }

  /** The replayed memory after a save: the snapshot and, when the result is stored, the whole fact. */
  function AfterSave(m: Memory, key: string, fact: string, told: bool): Memory {
    if told then Stored(m)[key := Cut(fact, 0)] else Stored(m)
  }

  /** How one save acts on the rebuilt memory. */
  lemma SaveReplayed(b: Both, op: Op)
    requires op.SaveFact?
    ensures var r := Advance(b, op).rebuilt;
            && r.goals == b.rebuilt.goals
            && (Saves(b.live, op) ==> r.memory == AfterSave(Advance(b, op).live.memory, op.key, op.fact, Told(op)))
            && (!Saves(b.live, op) ==> r.memory == if Refuses(b.live, op) && Told(op) && op.via.DelegateLoop?
                                                   then b.rebuilt.memory[op.key := Cut(op.fact, 0)]
                                                   else b.rebuilt.memory)
  {
    var c, args, saves := op.callId, SaveArgs(op.key, op.fact), Saves(b.live, op);
    var error := op.key == "" || op.fact == "";
    var snapshot := if saves then [MemoryUpdated(Stored(LiveNext(b.live, op).memory))] else [];
    var called := ReplayEvent(b.rebuilt, ToolCalled(c, args));
    ReplayParts(b.rebuilt, ToolCalled(c, args), snapshot, Result(c, SaveTool, op.via, saves, error, ""));
    if saves { ReplayOne(called, snapshot[0]); }
    ReplayResultEvent(ReplayAll(called, snapshot), c, args, SaveTool, op.via, saves, error, "");
  }

  lemma AddReplayed(b: Both, op: Op)
    requires op.AddGoal?
    ensures var r := Advance(b, op).rebuilt;
            var goals := Advance(b, op).live.goals;
            && r.memory == b.rebuilt.memory
            && r.goals == if !Adds(b.live, op) then b.rebuilt.goals
                          else if Told(op) && op.newId != "" then
                            goals + [Goal(op.newId, op.parent, op.description, Pending, false, "")]
                          else goals
  {
    var c, args, adds := op.callId, AddArgs(op.description, op.parent), Adds(b.live, op);
    var id := if adds then op.newId else "";
    var snapshot := if adds then [GoalsUpdated(LiveNext(b.live, op).goals)] else [];
    var called := ReplayEvent(b.rebuilt, ToolCalled(c, args));
    ReplayParts(b.rebuilt, ToolCalled(c, args), snapshot, Result(c, GoalTool, op.via, adds, op.description == "", id));
    if adds { ReplayOne(called, snapshot[0]); }
    ReplayResultEvent(ReplayAll(called, snapshot), c, args, GoalTool, op.via, adds, op.description == "", id);
  }

  lemma CloseReplayed(b: Both, op: Op)
    requires op.CloseGoal?
    ensures var r := Advance(b, op).rebuilt;
            var goals := Advance(b, op).live.goals;
            && r.memory == b.rebuilt.memory
            && r.goals == if !Closes(b.live, op) then b.rebuilt.goals
                          else if Told(op) then CloseAll(goals, op.goalId, op.status, op.result) else goals
  {
    var c, args, closes := op.callId, CloseArgs(op.goalId, op.status, op.result), Closes(b.live, op);
    var snapshot := if closes then [GoalsUpdated(LiveNext(b.live, op).goals)] else [];
    var called := ReplayEvent(b.rebuilt, ToolCalled(c, args));
    ReplayParts(b.rebuilt, ToolCalled(c, args), snapshot, Result(c, GoalTool, op.via, closes, !closes, op.goalId));
    if closes { ReplayOne(called, snapshot[0]); }
    ReplayResultEvent(ReplayAll(called, snapshot), c, args, GoalTool, op.via, closes, !closes, op.goalId);
  }

  /**
   * Main result: a goal closed by a call that is told is rebuilt as it is exactly when a result is given or it had
   * none: the live goal keeps an earlier result that the replay blanks.
   */
  lemma CloseIsRebuiltIff(b: Both, op: Op, i: nat)
    requires op.CloseGoal? && Told(op) && DistinctIds(b.live.goals)
    requires i < |b.live.goals| && b.live.goals[i].id == op.goalId != ""
    ensures Advance(b, op).rebuilt.goals == Advance(b, op).live.goals <==>
              op.result != "" || b.live.goals[i].result == ""
    ensures |Advance(b, op).rebuilt.goals| == |b.live.goals|
            && Advance(b, op).rebuilt.goals[i] == b.live.goals[i].(status := op.status, result := op.result)
  {
    CloseReplayed(b, op);
    FirstChanges(b.live.goals, i, op.goalId, op.status, op.result);
    var live := Advance(b, op).live.goals;
    var rebuilt := CloseAll(live, op.goalId, op.status, op.result);
    assert forall k :: 0 <= k < |live| && k != i ==> rebuilt[k] == live[k] == b.live.goals[k];
  }

  lemma OtherReplayed(b: Both, op: Op)
    requires !op.SaveFact? && !op.AddGoal? && !op.CloseGoal?
    ensures var r := Advance(b, op).rebuilt;
            && r.memory == b.rebuilt.memory
            && r.goals == if Delegates(b.live, op) then Advance(b, op).live.goals else b.rebuilt.goals
  {
    match op
    case Unrun(c, tool, args, via) =>
      var called := ReplayEvent(b.rebuilt, ToolCalled(c, args));
      ReplayParts(b.rebuilt, ToolCalled(c, args), [], Result(c, tool, via, false, true, ""));
      ReplayResultEvent(called, c, args, tool, via, false, true, "");
    case OtherCall(c) => ReplayOne(b.rebuilt, ToolCalled(c, OtherArgs));
    case OtherReturn(c, ok) => ReplayOne(b.rebuilt, ToolReturned(c, OtherTool, ok, ""));
    case DelegateStatus(_, _, _, _) => ReplayOne(b.rebuilt, GoalsUpdated(LiveNext(b.live, op).goals));
    case _ =>
  }

  // ---------- when the two sides part ----------

  /**
   * A save that the replay repeats at full length, though the live memory clipped or refused it, or whose snapshot
   * replaces a torn rune.
   */
  predicate SpoilsMemory(l: Live, op: Op) {
    op.SaveFact? &&
    (|| (Saves(l, op) && ((Told(op) && Bytes(op.fact) > MAX_FACT) || Torn(LiveNext(l, op).memory)))
     || (Refuses(l, op) && Told(op) && op.via.DelegateLoop?))
  }

  /** A goal with the id behind the first one has another status. */
  predicate Straggles(goals: seq<Goal>, id: string, status: Status) {
    exists k :: 0 <= k < |goals| && goals[k].id == id && Known(goals[..k], id) && goals[k].status != status
  }

  /** A status change that the replay applies to every copy of the goal, the live list to the first one only. */
  predicate SpoilsStatuses(l: Live, op: Op) {
    op.CloseGoal? && Closes(l, op) && Told(op) && Straggles(l.goals, op.goalId, op.status)
  }

  /** The operation stores a snapshot of the goals. */
  predicate Snaps(l: Live, op: Op) {
    Adds(l, op) || Closes(l, op) || Delegates(l, op)
  }

  /** Some save took effect in the session so far. */
  predicate EverSaved(ops: seq<Op>) {
    ops != [] && (Saves(Before(ops, |ops| - 1), ops[|ops| - 1]) || EverSaved(ops[..|ops| - 1]))
  }

  /** The last stored snapshot of the goals is not empty. */
  predicate GoalsStored(ops: seq<Op>) {
    if ops == [] then false else
      var l, op := Before(ops, |ops| - 1), ops[|ops| - 1];
      if Snaps(l, op) then LiveNext(l, op).goals != [] else GoalsStored(ops[..|ops| - 1])
  }

  datatype Half = Facts | Statuses

  /** Operation i leaves the live and the rebuilt half different, whatever they were before. */
  predicate Parts(half: Half, ops: seq<Op>, i: nat)
    requires i < |ops|
  {
    match half
    case Facts => SpoilsMemory(Before(ops, i), ops[i]) || (ops[i].Reset? && EverSaved(ops[..i]))
    case Statuses => SpoilsStatuses(Before(ops, i), ops[i]) || (ops[i].Reset? && GoalsStored(ops[..i]))
  }

  /** Operation j makes them equal, unless it parts them. */
  predicate Joins(half: Half, ops: seq<Op>, j: nat)
    requires j < |ops|
  {
    ops[j].Restart? || if half.Facts? then Saves(Before(ops, j), ops[j]) else Snaps(Before(ops, j), ops[j])
  }

  /** Some index below n meets p, and no later one meets q. */
  predicate LastWins(n: nat, p: nat -> bool, q: nat -> bool) {
    exists i: nat :: i < n && p(i) && forall j: nat :: i < j < n ==> !q(j)
  }

  function Parting(half: Half, ops: seq<Op>): nat -> bool {
    (i: nat) => i < |ops| && Parts(half, ops, i)
  }

  function Joining(half: Half, ops: seq<Op>): nat -> bool {
    (j: nat) => j < |ops| && Joins(half, ops, j)
  }

  /** Some operation parts the two sides and none after it joins them. */
  predicate Parted(half: Half, ops: seq<Op>) {
    LastWins(|ops|, Parting(half, ops), Joining(half, ops))
  }

  lemma BeforePrefix(ops: seq<Op>, n: nat, i: nat)
    requires i <= n <= |ops|
    ensures Before(ops[..n], i) == Before(ops, i) && ops[..n][..i] == ops[..i]
  {
    assert ops[..n][..i] == ops[..i];
  }

  lemma PartsPrefix(half: Half, ops: seq<Op>, n: nat, i: nat)
    requires i < n <= |ops|
    ensures Parts(half, ops[..n], i) == Parts(half, ops, i) && Joins(half, ops[..n], i) == Joins(half, ops, i)
  {
    BeforePrefix(ops, n, i);
    assert ops[..n][i] == ops[i];
  }

  lemma LastWinsSnoc(n: nat, p: nat -> bool, q: nat -> bool, p': nat -> bool, q': nat -> bool)
    requires forall i: nat :: i < n ==> p(i) == p'(i) && q(i) == q'(i)
    ensures LastWins(n + 1, p, q) <==> p(n) || (LastWins(n, p', q') && !q(n))
  {
    if LastWins(n, p', q') && !q(n) {
      var i: nat :| i < n && p'(i) && forall j: nat :: i < j < n ==> !q'(j);
      assert p(i);
    }
  }

  lemma PartedSnoc(half: Half, ops: seq<Op>)
    requires ops != []
    ensures var n := |ops| - 1;
            Parted(half, ops) <==> Parts(half, ops, n) || (Parted(half, ops[..n]) && !Joins(half, ops, n))
  {
    var n := |ops| - 1;
    forall i: nat | i < n
      ensures Parts(half, ops[..n], i) == Parts(half, ops, i) && Joins(half, ops[..n], i) == Joins(half, ops, i)
    {
      PartsPrefix(half, ops, n, i);
    }
    LastWinsSnoc(n, Parting(half, ops), Joining(half, ops), Parting(half, ops[..n]), Joining(half, ops[..n]));
  }

  // ---------- memory ----------

  /** The replayed memory is empty exactly while no save ever took effect. */
  lemma {:induction false} StoredMemory(ops: seq<Op>)
    ensures AdvanceAll(START, ops).rebuilt.memory != map[] <==> EverSaved(ops)
    ensures AdvanceAll(START, ops).live.memory != map[] ==> EverSaved(ops)
  {
    if ops != [] {
      var n := |ops| - 1;
      StoredMemory(ops[..n]);
      var b, op := AdvanceAll(START, ops[..n]), ops[n];
      if op.SaveFact? { SaveReplayed(b, op); SaveFills(b, op); } else { NonSaveReplayed(b, op); }
    }
  }

  lemma NonSaveReplayed(b: Both, op: Op)
    requires !op.SaveFact?
    ensures Advance(b, op).rebuilt.memory == b.rebuilt.memory
    ensures Advance(b, op).live.memory == if op.Restart? then b.rebuilt.memory
                                          else if op.Reset? then map[] else b.live.memory
  {
    match op
    case AddGoal(_, _, _, _, _, _) => AddReplayed(b, op);
    case CloseGoal(_, _, _, _, _) => CloseReplayed(b, op);
    case _ => OtherReplayed(b, op);
  }

  lemma SaveFills(b: Both, op: Op)
    requires op.SaveFact? && (b.live.memory != map[] ==> b.rebuilt.memory != map[])
    ensures Advance(b, op).rebuilt.memory != map[] <==> b.rebuilt.memory != map[] || Saves(b.live, op)
    ensures Advance(b, op).live.memory != map[] ==> Advance(b, op).rebuilt.memory != map[]
  {
    SaveReplayed(b, op);
    if Saves(b.live, op) { assert op.key in Advance(b, op).live.memory && op.key in Advance(b, op).rebuilt.memory; }
    if Refuses(b.live, op) { assert b.live.memory != map[]; }
  }

  /** One operation keeps, makes or ends a difference between the two memories. */
  lemma MemoryStep(b: Both, op: Op)
    ensures var after := Advance(b, op);
            after.rebuilt.memory != after.live.memory <==>
              || SpoilsMemory(b.live, op)
              || (op.Reset? && b.rebuilt.memory != map[])
              || (b.rebuilt.memory != b.live.memory && !op.Reset? && !op.Restart? && !Saves(b.live, op))
  {
    if op.SaveFact? {
      SaveReplayed(b, op);
      if Saves(b.live, op) {
        ClippedDiffers(LiveNext(b.live, op).memory, op.key, op.fact, Told(op));
      } else if Refuses(b.live, op) {
        assert op.key !in b.live.memory;
      }
    } else {
      NonSaveReplayed(b, op);
    }
  }

  lemma StoredDiffers(m: Memory)
    ensures Stored(m) != m <==> Torn(m)
  {
    if Torn(m) {
      var k :| k in m && m[k].torn > 0;
      assert Stored(m)[k].torn == 0;
    } else {
      forall k | k in m ensures Stored(m)[k] == m[k] { assert m[k].Shown() == m[k].text; }
    }
  }

  lemma ClippedDiffers(m: Memory, key: string, fact: string, told: bool)
    requires key in m && m[key] == Clip(fact)
    ensures AfterSave(m, key, fact, told) != m <==> (told && Bytes(fact) > MAX_FACT) || Torn(m)
  {
    TruncateKeepsBytes(fact, MAX_FACT);
    StoredDiffers(m);
    if told && Bytes(fact) > MAX_FACT {
      assert AfterSave(m, key, fact, told)[key] == Cut(fact, 0);
    } else if told {
      assert Cut(fact, 0).Shown() == fact;
      assert Stored(m)[key := Cut(fact, 0)] == Stored(m);
    }
  }

  /**
   * Main result: over every session, with restarts, the replayed memory equals the live one exactly when no save
   * that clips a fact or finds a torn one, refused save of a delegate, or reset of a used memory came after the last
   * effective save and restart.
   */
  lemma {:induction false} ReplayRebuildsMemory(ops: seq<Op>)
    ensures AdvanceAll(START, ops).rebuilt.memory == AdvanceAll(START, ops).live.memory <==> !Parted(Facts, ops)
  {
    if ops != [] {
      var n := |ops| - 1;
      ReplayRebuildsMemory(ops[..n]);
      StoredMemory(ops[..n]);
      PartedSnoc(Facts, ops);
      MemoryStep(AdvanceAll(START, ops[..n]), ops[n]);
      if ops[n].Reset? && !EverSaved(ops[..n]) { assert !Parted(Facts, ops[..n]); }
    }
  }

  /** A long fact of runes of three bytes is torn, and no replay gives it back, whatever becomes of the result. */
  lemma WideFactIsNotRebuilt(b: Both, callId: string, key: string, c: char, n: nat, via: Via)
    requires key != "" && RuneBytes(c) == 3 && n > 666 && (|b.live.memory| < MAX_FACTS || key in b.live.memory)
    ensures var after := Advance(b, SaveFact(callId, key, Run(c, n), via));
            && key in after.live.memory && after.live.memory[key].torn == 2
            && after.rebuilt.memory != after.live.memory
  {
    var op := SaveFact(callId, key, Run(c, n), via);
    TruncateRun(c, n, MAX_FACT);
    assert Saves(b.live, op) && LiveNext(b.live, op).memory[key] == Clip(Run(c, n));
    MemoryStep(b, op);
  }

  /** A delegate's save into a full memory is refused, and replayed all the same. */
  lemma RefusedSaveIsReplayed(b: Both, c: string, key: string, fact: string)
    requires |b.live.memory| >= MAX_FACTS && key !in b.live.memory && c != "" && key != "" && fact != ""
    ensures var after := Advance(b, SaveFact(c, key, fact, DelegateLoop));
            && after.live == b.live && after.rebuilt.memory == b.rebuilt.memory[key := Cut(fact, 0)]
            && after.rebuilt.memory != after.live.memory
  {
    SaveReplayed(b, SaveFact(c, key, fact, DelegateLoop));
    assert key in Advance(b, SaveFact(c, key, fact, DelegateLoop)).rebuilt.memory;
  }

  // ---------- goals ----------

  /** The goal ids with their statuses. */
  function StatusSet(goals: seq<Goal>): set<(string, Status)> {
    set i | 0 <= i < |goals| :: (goals[i].id, goals[i].status)
  }

  lemma StatusIn(goals: seq<Goal>, i: nat)
    requires i < |goals|
    ensures (goals[i].id, goals[i].status) in StatusSet(goals)
  {
  }

  /** An added goal and its copy have one status. */
  lemma CopyAddsNoStatus(goals: seq<Goal>, g: Goal)
    requires goals != [] && goals[|goals| - 1].id == g.id && goals[|goals| - 1].status == g.status
    ensures StatusSet(goals + [g]) == StatusSet(goals)
  {
    var more := goals + [g];
    forall i | 0 <= i < |goals| ensures (goals[i].id, goals[i].status) in StatusSet(more) { StatusIn(more, i); }
    forall i | 0 <= i < |more| ensures (more[i].id, more[i].status) in StatusSet(goals) {
      StatusIn(goals, if i < |goals| then i else |goals| - 1);
    }
  }

  lemma StragglerShows(goals: seq<Goal>, id: string, status: Status, result: string, k: nat)
    requires k < |goals| && goals[k].id == id && Known(goals[..k], id) && goals[k].status != status
    ensures var s := SetStatus(goals, id, status, result);
            StatusSet(CloseAll(s, id, status, result)) != StatusSet(s)
  {
    var s := SetStatus(goals, id, status, result);
    var c := CloseAll(s, id, status, result);
    StatusIn(s, k);
    assert forall i :: 0 <= i < |c| ==> c[i].id == id ==> c[i].status == status;
    assert (id, goals[k].status) !in StatusSet(c);
  }

  lemma NoStraggler(goals: seq<Goal>, id: string, status: Status, result: string)
    requires !Straggles(goals, id, status)
    ensures var s := SetStatus(goals, id, status, result);
            StatusSet(CloseAll(s, id, status, result)) == StatusSet(s)
  {
    var s := SetStatus(goals, id, status, result);
    var c := CloseAll(s, id, status, result);
    forall i | 0 <= i < |s| ensures c[i].id == s[i].id && c[i].status == s[i].status {
      if goals[i].id == id && Known(goals[..i], id) { assert goals[i].status == status; }
    }
  }

  /** Closing every copy after the first gives the same statuses exactly when no copy straggles. */
  lemma CloseAllAgain(goals: seq<Goal>, id: string, status: Status, result: string)
    ensures var s := SetStatus(goals, id, status, result);
            StatusSet(CloseAll(s, id, status, result)) == StatusSet(s) <==> !Straggles(goals, id, status)
  {
    if Straggles(goals, id, status) {
      var k :| 0 <= k < |goals| && goals[k].id == id && Known(goals[..k], id) && goals[k].status != status;
      StragglerShows(goals, id, status, result, k);
    } else {
      NoStraggler(goals, id, status, result);
    }
  }

  lemma StatusStep(b: Both, op: Op)
    ensures var after := Advance(b, op);
            StatusSet(after.rebuilt.goals) != StatusSet(after.live.goals) <==>
              || SpoilsStatuses(b.live, op)
              || (op.Reset? && b.rebuilt.goals != [])
              || (StatusSet(b.rebuilt.goals) != StatusSet(b.live.goals)
                  && !op.Reset? && !op.Restart? && !Snaps(b.live, op))
  {
    match op
    case SaveFact(_, _, _, _) => SaveReplayed(b, op);
    case AddGoal(_, _, _, _, _, _) =>
      AddReplayed(b, op);
      if Adds(b.live, op) {
        CopyAddsNoStatus(LiveNext(b.live, op).goals, Goal(op.newId, op.parent, op.description, Pending, false, ""));
      }
    case CloseGoal(_, _, _, _, _) =>
      CloseReplayed(b, op);
      if Closes(b.live, op) { CloseAllAgain(b.live.goals, op.goalId, op.status, op.result); }
    case _ =>
      OtherReplayed(b, op);
      if b.rebuilt.goals != [] { StatusIn(b.rebuilt.goals, 0); }
  }

  /** The replayed list is empty exactly when the last stored snapshot is. */
  lemma {:induction false} StoredGoals(ops: seq<Op>)
    ensures AdvanceAll(START, ops).rebuilt.goals != [] <==> GoalsStored(ops)
  {
    if ops != [] {
      var n := |ops| - 1;
      StoredGoals(ops[..n]);
      RebuiltGoals(AdvanceAll(START, ops[..n]), ops[n]);
    }
  }

  lemma RebuiltGoals(b: Both, op: Op)
    ensures if Snaps(b.live, op) then Advance(b, op).rebuilt.goals != [] <==> LiveNext(b.live, op).goals != []
            else Advance(b, op).rebuilt.goals == b.rebuilt.goals
  {
    match op
    case SaveFact(_, _, _, _) => SaveReplayed(b, op);
    case AddGoal(_, _, _, _, _, _) => AddReplayed(b, op);
    case CloseGoal(_, _, _, _, _) => CloseReplayed(b, op);
    case _ => OtherReplayed(b, op);
  }

  /** Reset finds the two lists equal when nothing is stored. */
  lemma {:induction false} UnstoredIsEmpty(ops: seq<Op>)
    requires !GoalsStored(ops)
    ensures AdvanceAll(START, ops).live.goals == []
  {
    if ops != [] {
      var n := |ops| - 1;
      var l, op := Before(ops, n), ops[n];
      if Snaps(l, op) {
        assert AdvanceAll(START, ops).live == LiveNext(l, op);
      } else {
        UnstoredIsEmpty(ops[..n]);
        StoredGoals(ops[..n]);
      }
    }
  }

  /**
   * Main result: over every session, with restarts, the replay has every goal id with its live status exactly when no
   * status change of a goal with a straggling copy, and no reset of stored goals, came after the last goal snapshot and
   * restart.
   */
  lemma {:induction false} ReplayRebuildsStatuses(ops: seq<Op>)
    ensures var b := AdvanceAll(START, ops);
            StatusSet(b.rebuilt.goals) == StatusSet(b.live.goals) <==> !Parted(Statuses, ops)
  {
    if ops != [] {
      var n := |ops| - 1;
      ReplayRebuildsStatuses(ops[..n]);
      StoredGoals(ops[..n]);
      PartedSnoc(Statuses, ops);
      StatusStep(AdvanceAll(START, ops[..n]), ops[n]);
      if !GoalsStored(ops[..n]) { UnstoredIsEmpty(ops[..n]); }
    }
  }

  /** New goals get unused ids. */
  predicate FreshIds(ops: seq<Op>) {
    forall i :: 0 <= i < |ops| && ops[i].AddGoal? ==> !Known(Before(ops, i).goals, ops[i].newId)
  }

  lemma FreshPrefix(ops: seq<Op>, n: nat)
    requires FreshIds(ops) && n <= |ops|
    ensures FreshIds(ops[..n])
  {
    forall i | 0 <= i < n && ops[..n][i].AddGoal? ensures !Known(Before(ops[..n], i).goals, ops[..n][i].newId) {
      BeforePrefix(ops, n, i);
    }
  }

  lemma LiveKeepsIds(l: Live, op: Op)
    requires op.AddGoal? ==> !Known(l.goals, op.newId)
    ensures DistinctIds(l.goals) ==> DistinctIds(LiveNext(l, op).goals)
    ensures OneParent(l.goals) ==> OneParent(LiveNext(l, op).goals)
  {
    if Closes(l, op) || Delegates(l, op) { SetStatusKeeps(l.goals, op.goalId, op.status, op.result); }
  }

  /** In one server lifetime goal ids stay distinct. */
  lemma {:induction false} LifetimeKeepsDistinct(ops: seq<Op>)
    requires FreshIds(ops) && forall i :: 0 <= i < |ops| ==> !ops[i].Restart?
    ensures DistinctIds(AdvanceAll(START, ops).live.goals)
  {
    if ops != [] {
      var n := |ops| - 1;
      FreshPrefix(ops, n);
      LifetimeKeepsDistinct(ops[..n]);
      LiveKeepsIds(Before(ops, n), ops[n]);
    }
  }

  lemma LifetimeNeverParts(ops: seq<Op>, i: nat)
    requires FreshIds(ops) && forall i :: 0 <= i < |ops| ==> !ops[i].Restart? && !ops[i].Reset?
    requires i < |ops|
    ensures !Parts(Statuses, ops, i)
  {
    FreshPrefix(ops, i);
    LifetimeKeepsDistinct(ops[..i]);
  }

  /** Main result: in a session that was never reset or restarted, every goal status is rebuilt. */
  lemma LifetimeRebuildsStatuses(ops: seq<Op>)
    requires FreshIds(ops) && forall i :: 0 <= i < |ops| ==> !ops[i].Restart? && !ops[i].Reset?
    ensures StatusSet(AdvanceAll(START, ops).rebuilt.goals) == StatusSet(AdvanceAll(START, ops).live.goals)
  {
    ReplayRebuildsStatuses(ops);
    if Parted(Statuses, ops) {
      var i: nat :| i < |ops| && Parting(Statuses, ops)(i);
      LifetimeNeverParts(ops, i);
    }
  }

  /** The replayed list repeats an added goal: the snapshot already holds what the result appends. */
  lemma AddedGoalIsRepeated(b: Both, op: Op)
    requires Adds(b.live, op) && Told(op) && op.newId != ""
    ensures var goals := Advance(b, op).live.goals;
            goals != [] && goals[|goals| - 1].id == op.newId
            && Advance(b, op).rebuilt.goals == goals + [Goal(op.newId, op.parent, op.description, Pending, false, "")]
  {
    AddReplayed(b, op);
  }

  lemma FirstCopyCompletes(b: Both, c: string, g: Goal, copy: Goal)
    requires c != "" && g.id != "" && b.live.goals == [g, copy] && g.id == copy.id && copy.status == Pending
    ensures var after := Advance(b, CloseGoal(c, g.id, Complete, "", MainLoop));
            && StatusSet(after.live.goals) == {(g.id, Complete), (g.id, Pending)}
            && StatusSet(after.rebuilt.goals) == {(g.id, Complete)}
  {
    var close := CloseGoal(c, g.id, Complete, "", MainLoop);
    assert b.live.goals[0].id == g.id;
    CloseReplayed(b, close);
    FirstChanges(b.live.goals, 0, g.id, Complete, "");
    StatusPair(Advance(b, close).live.goals);
    StatusPair(Advance(b, close).rebuilt.goals);
  }

  lemma StatusPair(goals: seq<Goal>)
    requires |goals| == 2
    ensures StatusSet(goals) == {(goals[0].id, goals[0].status), (goals[1].id, goals[1].status)}
  {
    StatusIn(goals, 0);
    StatusIn(goals, 1);
  }

  /**
   * So a goal added before a restart and completed after it is complete in the replay and still pending in a live copy.
   */
  lemma RestartedGoalStaysPending(c: string, id: string, d: string)
    requires c != "" && id != "" && d != ""
    ensures var add, close := AddGoal(c, id, d, "", true, MainLoop), CloseGoal(c, id, Complete, "", MainLoop);
            var b := AdvanceAll(START, [add, Restart, close]);
            StatusSet(b.live.goals) == {(id, Complete), (id, Pending)} && StatusSet(b.rebuilt.goals) == {(id, Complete)}
  {
    var add, close := AddGoal(c, id, d, "", true, MainLoop), CloseGoal(c, id, Complete, "", MainLoop);
    var b := Advance(Advance(START, add), Restart);
    AddedGoalIsRepeated(START, add);
    FirstCopyCompletes(b, c, b.live.goals[0], b.live.goals[1]);
    AdvanceThree(START, add, Restart, close);
  }

  lemma AdvanceThree(b: Both, x: Op, y: Op, z: Op)
    ensures AdvanceAll(b, [x, y, z]) == Advance(Advance(Advance(b, x), y), z)
  {
    assert [x, y, z][..2] == [x, y] && [x, y][..1] == [x] && [x][..0] == [];
    assert AdvanceAll(b, [x]) == Advance(b, x);
    assert AdvanceAll(b, [x, y]) == Advance(Advance(b, x), y);
  }

  lemma CopyHasParent(goals: seq<Goal>, g: Goal)
    requires OneParent(goals) && goals != [] && goals[|goals| - 1].id == g.id
    requires Trim(goals[|goals| - 1].parent) == Trim(g.parent)
    ensures OneParent(goals + [g])
  {
    var n := |goals| - 1;
    forall i | 0 <= i < |goals| && goals[i].id == g.id ensures Trim(goals[i].parent) == Trim(g.parent) {
      assert i < n ==> Trim(goals[i].parent) == Trim(goals[n].parent);
    }
  }

  lemma CloseAllKeepsParents(goals: seq<Goal>, id: string, status: Status, result: string)
    requires OneParent(goals)
    ensures OneParent(CloseAll(goals, id, status, result))
  {
    var c := CloseAll(goals, id, status, result);
    assert forall i :: 0 <= i < |c| ==> c[i].id == goals[i].id && c[i].parent == goals[i].parent;
  }

  lemma AdvanceKeepsParents(b: Both, op: Op)
    requires OneParent(b.live.goals) && OneParent(b.rebuilt.goals)
    requires op.AddGoal? ==> !Known(b.live.goals, op.newId)
    ensures OneParent(Advance(b, op).live.goals) && OneParent(Advance(b, op).rebuilt.goals)
  {
    LiveKeepsIds(b.live, op);
    match op
    case SaveFact(_, _, _, _) => SaveReplayed(b, op);
    case AddGoal(_, _, _, _, _, _) =>
      AddReplayed(b, op);
      TrimIdempotent(op.parent);
      if Adds(b.live, op) {
        CopyHasParent(LiveNext(b.live, op).goals, Goal(op.newId, op.parent, op.description, Pending, false, ""));
      }
    case CloseGoal(_, _, _, _, _) =>
      CloseReplayed(b, op);
      CloseAllKeepsParents(LiveNext(b.live, op).goals, op.goalId, op.status, op.result);
    case _ => OtherReplayed(b, op);
  }

  lemma {:induction false} SessionKeepsParents(ops: seq<Op>)
    requires FreshIds(ops)
    ensures OneParent(AdvanceAll(START, ops).live.goals) && OneParent(AdvanceAll(START, ops).rebuilt.goals)
  {
    if ops != [] {
      var n := |ops| - 1;
      FreshPrefix(ops, n);
      SessionKeepsParents(ops[..n]);
      AdvanceKeepsParents(AdvanceAll(START, ops[..n]), ops[n]);
    }
  }

  /** Main result: in every session, restored ones with repeated goals included, the search behind CanFinalize ends. */
  lemma SessionGoalsSettle(ops: seq<Op>)
    requires FreshIds(ops)
    ensures Settles(AdvanceAll(START, ops).live.goals) && Settles(AdvanceAll(START, ops).rebuilt.goals)
  {
    SessionKeepsParents(ops);
    OneParentSettles(AdvanceAll(START, ops).live.goals);
    OneParentSettles(AdvanceAll(START, ops).rebuilt.goals);
  }
}
