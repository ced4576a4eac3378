/** The edit guard while messages arrive: ConfigureEditState runs before StartRun may refuse (server/handler/ws.go). */
module EditRuns {
  import opened Text
  import opened Projection
  import opened ReportBlocks
  import D = ReportDelivery
  import L = RunLifecycle

  const NO_SCOPE := Scope("", "", "", Selection("", 0, 0, false), false, {}, "", "", "", "", [])

  /** The run slot, the edit scope and the blocks of a session. */
  datatype Session = Session(slot: L.Slot, scope: Scope, blocks: seq<Block>)

  /** Preparing a user message may load a stored report and sets the scope; then the run is started or refused. */
  datatype Step = Prepare(stored: Option<seq<Block>>, edit: Option<Scope>) | Begin(id: L.RunId) | Edit(params: Params)
    | End(id: L.RunId)

  /** ConfigureEditState: a message without an edit context lifts the guard. */
  function Configured(edit: Option<Scope>, blocks: seq<Block>): Scope {
    if edit.None? then NO_SCOPE else
      Refreshed(Trimmed(edit.value), blocks, D.EditableCharts(Trimmed(edit.value), blocks))
  }

  function Trimmed(e: Scope): Scope {
    e.(mode := Trim(e.mode), blockId := Trim(e.blockId), targetChart := Trim(e.targetChart),
       selection := e.selection.(text := Trim(e.selection.text)))
  }

  /**
   * Main result: a message that selects text to regenerate or revise guards the session exactly if it asks to preserve
   * the other blocks, and remembers the target block as the report holds it.
   */
  lemma SelectionIsGuarded(u: Decoder, s: Session, stored: Option<seq<Block>>, e: Scope)
    requires Blank(e.targetChart) && !Blank(e.selection.text)
    requires ToLower(Trim(e.mode)) in {"regenerate_selection", "revise_selection"}
    ensures var t := Take(u, s, Prepare(stored, Some(e)));
            && (GuardsSelection(t.scope) <==> e.preserve)
            && t.blocks == (if stored.Some? then stored.value else s.blocks) && t.slot == s.slot
            && t.scope.blockId == Trim(e.blockId)
            && t.scope.selection == e.selection.(text := Trim(e.selection.text))
            && forall i :: 0 <= i < |t.blocks| && DistinctIds(t.blocks) && t.blocks[i].id == Trim(e.blockId) != "" ==>
                 && t.scope.content == t.blocks[i].content && t.scope.kind == t.blocks[i].kind
                 && t.scope.title == t.blocks[i].title && t.scope.chartId == t.blocks[i].chartId
                 && t.scope.sources == t.blocks[i].sources
  {
    var t := Take(u, s, Prepare(stored, Some(e)));
    var s0 := Trimmed(e);
    ScopeGuards(e, t.blocks, D.EditableCharts(s0, t.blocks));
    TrimIdempotent(e.blockId);
    forall i | 0 <= i < |t.blocks| && DistinctIds(t.blocks) && t.blocks[i].id == Trim(e.blockId) != ""
      ensures t.scope.content == t.blocks[i].content && t.scope.kind == t.blocks[i].kind
              && t.scope.title == t.blocks[i].title && t.scope.chartId == t.blocks[i].chartId
              && t.scope.sources == t.blocks[i].sources
    {
      CapturedAt(s0, t.blocks, D.EditableCharts(s0, t.blocks), i);
    }
  }

  lemma ScopeGuards(e: Scope, blocks: seq<Block>, allowed: set<string>)
    requires Blank(e.targetChart) && !Blank(e.selection.text)
    requires ToLower(Trim(e.mode)) in {"regenerate_selection", "revise_selection"}
    ensures GuardsSelection(Refreshed(Trimmed(e), blocks, allowed)) <==> e.preserve
  {
    TrimIdempotent(e.mode);
    TrimIdempotent(e.targetChart);
    TrimIdempotent(e.selection.text);
    ModeIsWord(e.mode);
  }

  /** The modes of a selection are neither blank nor those of the layout. */
  lemma ModeIsWord(mode: string)
    requires ToLower(Trim(mode)) in {"regenerate_selection", "revise_selection"}
    ensures Trim(mode) != "" && ToLower(Trim(mode)) != "configure_layout" && ToLower(Trim(mode)) != "revise_layout"
  {
    assert |ToLower(Trim(mode))| == |Trim(mode)|;
    assert "regenerate_selection"[1] == 'e' && "configure_layout"[1] == 'o';
    assert "revise_selection"[7] == 's' && "revise_layout"[7] == 'l';
    assert "regenerate_selection"[2] == 'g' && "revise_layout"[2] == 'v';
    assert "revise_selection"[0] == 'r' && "configure_layout"[0] == 'c';
  }

  function Take(u: Decoder, s: Session, x: Step): Session {
    match x
    case Prepare(stored, edit) =>
      var blocks := if stored.Some? then stored.value else s.blocks;
      s.(scope := Configured(edit, blocks), blocks := blocks)
    case Begin(id) => s.(slot := L.Started(s.slot, id))
    case Edit(p) => if s.slot.Some? then s.(blocks := Apply(u, s.scope, s.blocks, p).blocks) else s
    case End(id) => if L.Holds(s.slot, id) then s.(slot := None, scope := NO_SCOPE) else s
  }

  /** The end of the run in the slot frees the session and lifts its guard; any other end changes nothing. */
  lemma EndFreesSession(u: Decoder, s: Session, id: L.RunId)
    ensures var t := Take(u, s, End(id));
            && t.blocks == s.blocks
            && (L.Holds(s.slot, id) ==> t.slot == None && !Active(t.scope) && !GuardsSelection(t.scope))
            && (!L.Holds(s.slot, id) ==> t == s)
  {
    assert Blank("");
  }

  function TakeAll(u: Decoder, s: Session, steps: seq<Step>): Session
    decreases |steps|
  {
    if steps == [] then s else TakeAll(u, Take(u, s, steps[0]), steps[1..])
  }

  function EditsOf(steps: seq<Step>): seq<Params> {
    if steps == [] then [] else (if steps[0].Edit? then [steps[0].params] else []) + EditsOf(steps[1..])
  }

  /** The steps while one run holds the slot; user messages only where they are admitted. */
  predicate During(steps: seq<Step>, id: L.RunId, messages: bool) {
    forall i :: 0 <= i < |steps| ==> !(steps[i].End? && steps[i].id == id) && (steps[i].Prepare? ==> messages)
  }

  lemma DuringTail(steps: seq<Step>, id: L.RunId, messages: bool)
    requires During(steps, id, messages) && steps != []
    ensures During(steps[1..], id, messages)
    ensures !(steps[0].End? && steps[0].id == id) && (steps[0].Prepare? ==> messages)
  {
    assert forall i :: 0 <= i < |steps[1..]| ==> steps[1..][i] == steps[i + 1];
  }

  /** Without a message the scope stays, and the blocks are those of the run's edits under that scope. */
  lemma {:induction false} RunKeepsScope(u: Decoder, s: Session, steps: seq<Step>, id: L.RunId)
    requires L.Holds(s.slot, id) && During(steps, id, false)
    ensures var t := TakeAll(u, s, steps);
            t.slot == s.slot && t.scope == s.scope && t.blocks == ApplyAll(u, s.scope, s.blocks, EditsOf(steps))
    decreases |steps|
  {
    if steps != [] {
      DuringTail(steps, id, false);
      RunKeepsScope(u, Take(u, s, steps[0]), steps[1..], id);
      EditFirst(u, s.scope, s.blocks, steps);
    }
  }

  lemma EditFirst(u: Decoder, scope: Scope, blocks: seq<Block>, steps: seq<Step>)
    requires steps != []
    ensures ApplyAll(u, scope, blocks, EditsOf(steps))
         == ApplyAll(u, scope, if steps[0].Edit? then Apply(u, scope, blocks, steps[0].params).blocks else blocks,
                     EditsOf(steps[1..]))
  {
    if steps[0].Edit? {
      assert EditsOf(steps)[0] == steps[0].params && EditsOf(steps)[1..] == EditsOf(steps[1..]);
    } else {
      assert EditsOf(steps) == EditsOf(steps[1..]);
    }
  }

  predicate IsOther(s: Session, b: Block) {
    b in s.blocks && b.id != Trim(s.scope.blockId) && b.id != "" && Trim(b.id) == b.id
  }

  /** Removing a block of another id loses it. */
  lemma RemovalIsSeen(blocks: seq<Block>, i: nat, id: string)
    requires i < |blocks| && blocks[i].id != id
    ensures Others(RemoveAt(blocks, i), id) != Others(blocks, id)
  {
    var front, back := blocks[..i], blocks[i + 1..];
    assert blocks == front + ([blocks[i]] + back);
    OthersAppend(front, [blocks[i]] + back, id);
    OthersAppend(front, back, id);
    assert ([blocks[i]] + back)[1..] == back;
    assert |Others(blocks, id)| == |Others(front, id)| + 1 + |Others(back, id)|;
  }

  function Removal(b: Block): Params {
    Params("remove", b.id, "", "", "", "", "", "", [])
  }

  /** Without a scope every block may be removed. */
  lemma UnguardedRemoval(u: Decoder, blocks: seq<Block>, b: Block)
    requires b in blocks && b.id != "" && Trim(b.id) == b.id
    ensures IndexOf(blocks, b.id) >= 0
    ensures Apply(u, NO_SCOPE, blocks, Removal(b)).blocks == RemoveAt(blocks, IndexOf(blocks, b.id))
  {
    assert Trim("remove") == "remove" && !Blank("remove") && Blank("");
    assert Cleaned(Removal(b)) == Removal(b);
    assert Decide(u, NO_SCOPE, blocks, Removal(b)) == Drop(b.id);
  }

  /** A message without an edit context, sent while the run works, lets the run remove a block it was guarded from. */
  lemma MessageLiftsGuard(u: Decoder, s: Session, id: L.RunId, b: Block)
    requires L.Holds(s.slot, id) && IsOther(s, b)
    ensures var t := TakeAll(u, s, [Prepare(None, None), Edit(Removal(b))]);
            t.slot == s.slot && Others(t.blocks, Trim(s.scope.blockId)) != Others(s.blocks, Trim(s.scope.blockId))
  {
    var steps := [Prepare(None, None), Edit(Removal(b))];
    var lifted := Take(u, s, steps[0]);
    var t := Take(u, lifted, steps[1]);
    assert steps[1..] == [Edit(Removal(b))] && steps[1..][1..] == [];
    assert TakeAll(u, lifted, steps[1..]) == t;
    UnguardedRemoval(u, s.blocks, b);
    RemovalIsSeen(s.blocks, IndexOf(s.blocks, b.id), Trim(s.scope.blockId));
  }

  /**
   * Main result: a guarded run leaves the blocks outside its target alone, whatever edits it tries, if and only if no
   * user message is prepared while it holds the slot.
   */
  lemma GuardHoldsIffNoMessage(u: Decoder, s: Session, id: L.RunId, b: Block, messages: bool)
    requires L.Holds(s.slot, id) && GuardsSelection(s.scope) && IsOther(s, b)
    ensures (forall steps :: During(steps, id, messages) ==>
               Others(TakeAll(u, s, steps).blocks, Trim(s.scope.blockId)) == Others(s.blocks, Trim(s.scope.blockId)))
            <==> !messages
  {
    if messages {
      var steps := [Prepare(None, None), Edit(Removal(b))];
      MessageLiftsGuard(u, s, id, b);
      assert During(steps, id, true);
    } else {
      forall steps | During(steps, id, false)
        ensures Others(TakeAll(u, s, steps).blocks, Trim(s.scope.blockId)) == Others(s.blocks, Trim(s.scope.blockId))
      {
        RunKeepsScope(u, s, steps, id);
        EditRunIsGuarded(u, s.scope, s.blocks, EditsOf(steps));
      }
    }
  }
}
