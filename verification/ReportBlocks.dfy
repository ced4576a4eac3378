/** The report's ordered block list and the edit-scope guard: server/tools/report_blocks.go and report_guardrails.go. */
module ReportBlocks {
  import opened Text
  import opened Projection

  datatype Evidence = Evidence(kind: string, toolName: string, sql: string, tableName: string, chartId: string,
    summary: string)

  datatype Block = Block(id: string, kind: string, title: string, content: string, chartId: string,
    sources: seq<Evidence>)

  datatype Params = Params(action: string, blockId: string, kind: string, title: string, content: string,
                           chartId: string, before: string, after: string, sources: seq<Evidence>)

  datatype Outcome = Done | MissingBlockId | UnknownAction | BadBlock | OutOfScope | NotFound | BadAnchor

  /** ReportEditState: what the user opened for editing, and the target block as it was then. */
  datatype Scope = Scope(mode: string, blockId: string, targetChart: string, selection: Selection, preserve: bool,
                         allowedCharts: set<string>, content: string, kind: string, title: string, chartId: string,
                         sources: seq<Evidence>)

  // ---------- operations on the list ----------

  predicate DistinctIds(blocks: seq<Block>) {
    forall i, j :: 0 <= i < j < |blocks| ==> blocks[i].id != blocks[j].id
  }

  function IndexOf(blocks: seq<Block>, id: string): (r: int)
    ensures -1 <= r < |blocks| && (r >= 0 ==> blocks[r].id == id)
    ensures forall k :: 0 <= k < |blocks| && (r < 0 || k < r) ==> blocks[k].id != id
  {
    if blocks == [] then -1
    else if blocks[0].id == id then 0
    else
      var k := IndexOf(blocks[1..], id);
      assert forall j :: 0 < j < |blocks| ==> blocks[j] == blocks[1..][j - 1];
      if k < 0 then -1 else k + 1
  }

  function RemoveAt(blocks: seq<Block>, i: nat): seq<Block>
    requires i < |blocks|
  {
    blocks[..i] + blocks[i + 1..]
  }

  function InsertAt(blocks: seq<Block>, b: Block, i: nat): seq<Block>
    requires i <= |blocks|
  {
    blocks[..i] + [b] + blocks[i..]
  }

  /** Where a block goes: next to the one anchor given, or last. None: two anchors, or one that is not there. */
  function InsertIndex(blocks: seq<Block>, before: string, after: string): (r: Option<nat>)
    ensures r.Some? ==> r.value <= |blocks|
  {
    if before != "" && after != "" then None
    else if before != "" then (if IndexOf(blocks, before) < 0 then None else Some(IndexOf(blocks, before)))
    else if after != "" then (if IndexOf(blocks, after) < 0 then None else Some(IndexOf(blocks, after) + 1))
    else Some(|blocks|)
  }

  function Digits(n: nat): string {
    if n < 10 then ["0123456789"[n]] else Digits(n / 10) + ["0123456789"[n % 10]]
  }

  function Dashed(s: string): string {
    seq(|s|, i requires 0 <= i < |s| => if s[i] in " _/\\" then '-' else s[i])
  }

  function StripDashes(s: string): string {
    if s != "" && s[0] == '-' then StripDashes(s[1..])
    else if s != "" && s[|s| - 1] == '-' then StripDashes(s[..|s| - 1])
    else s
  }

  function BlockIdFrom(title: string, index: nat): string {
    var base := StripDashes(Dashed(ToLower(Trim(title))));
    if base == "" then "section-" + Digits(index) else base
  }

  predicate IdChar(c: char) {
    !('A' <= c <= 'Z') && c != ' ' && c != '_' && c != '/' && c != '\\'
  }

  lemma DashedIsIdChars(s: string)
    ensures forall c :: c in Dashed(ToLower(s)) ==> IdChar(c)
    ensures forall k :: 0 <= k < |s| && IdChar(s[k]) ==> Dashed(ToLower(s))[k] == s[k]
    ensures forall k :: 0 <= k < |s| && s[k] == ' ' ==> Dashed(ToLower(s))[k] == '-'
  {
    forall k | 0 <= k < |s| ensures IdChar(Dashed(ToLower(s))[k]) { CharIsDashed(Lower(s[k])); }
    forall k | 0 <= k < |s| && IdChar(s[k]) ensures Dashed(ToLower(s))[k] == s[k] { CharIsDashed(s[k]); }
    CharIsDashed(' ');
  }

  lemma CharIsDashed(c: char)
    ensures c in " _/\\" <==> c == ' ' || c == '_' || c == '/' || c == '\\'
  {
    var seps := " _/\\";
    assert seps[0] == ' ' && seps[1] == '_' && seps[2] == '/' && seps[3] == '\\';
  }

  /** A derived id is not empty and has no letter in upper case, separator, or dash at either end. */
  lemma BlockIdIsClean(title: string, index: nat)
    ensures var id := BlockIdFrom(title, index);
            id != "" && id[0] != '-' && id[|id| - 1] != '-' && forall c :: c in id ==> IdChar(c)
  {
    DashedIsIdChars(Trim(title));
    StripDashesInside(Dashed(ToLower(Trim(title))));
    SectionIsClean(index);
  }

  lemma SectionIsClean(index: nat)
    ensures var id := "section-" + Digits(index);
            id[0] != '-' && id[|id| - 1] != '-' && forall c :: c in id ==> IdChar(c)
  {
    DigitsAreDigits(index);
    var id := "section-" + Digits(index);
    assert id[|id| - 1] in Digits(index);
    assert forall k :: 0 <= k < 8 ==> IdChar("section-"[k]);
  }

  lemma {:induction false} StripDashesInside(s: string)
    ensures var r := StripDashes(s);
            (r == "" || (r[0] != '-' && r[|r| - 1] != '-')) && forall c :: c in r ==> c in s
  {
    if s != "" && s[0] == '-' { StripDashesInside(s[1..]); }
    else if s != "" && s[|s| - 1] == '-' { StripDashesInside(s[..|s| - 1]); }
  }

  lemma {:induction false} DigitsAreDigits(n: nat)
    ensures Digits(n) != "" && forall c :: c in Digits(n) ==> '0' <= c <= '9'
  {
    if n >= 10 { DigitsAreDigits(n / 10); }
  }

  /** A title of lower-case words without dashes at either end is spelled out, with dashes between the words. */
  lemma PlainTitleIsId(title: string, index: nat)
    requires title != "" && title[0] != ' ' && title[|title| - 1] != ' ' && Trim(title) == title
    requires forall k :: 0 <= k < |title| ==> (IdChar(title[k]) && title[k] != '-') || title[k] == ' '
    ensures BlockIdFrom(title, index)
         == seq(|title|, k requires 0 <= k < |title| => if title[k] == ' ' then '-' else title[k])
  {
    DashedIsIdChars(title);
    var s := Dashed(ToLower(title));
    assert s[0] == title[0] && s[|s| - 1] == title[|title| - 1];
    assert StripDashes(s) == s;
  }

  /** buildReportBlock, on parameters already trimmed by the caller; None when the kind's content is missing. */
  function BuildBlock(kind: string, id: string, title: string, content: string, chartId: string, sources: seq<Evidence>,
      index: nat): Option<Block> {
    var blockId :=
      if id != "" then id
      else if title != "" then BlockIdFrom(title, index)
      else if chartId != "" then BlockIdFrom(chartId, index)
      else "block-" + Digits(index);
    if (kind == "markdown" || kind == "html") && Blank(content) then None
    else if kind == "chart" && Blank(chartId) then None
    else if kind != "markdown" && kind != "html" && kind != "chart" then None
    else Some(Block(blockId, kind, title, content, chartId, sources))
  }

  // ---------- the guard ----------

  predicate Active(s: Scope) { !Blank(s.mode) }

  predicate PartialSelection(s: Scope) {
    var mode := ToLower(Trim(s.mode));
    && mode != "configure_layout" && mode != "revise_layout" && Blank(s.targetChart)
    && !Blank(s.selection.text) && (mode == "regenerate_selection" || mode == "revise_selection")
  }

  predicate BlockMutationAllowed(s: Scope, action: string, blockId: string) {
    if !Active(s) || !s.preserve then true
    else if !Blank(s.targetChart) && Blank(s.blockId) then false
    else ToLower(Trim(action)) == "upsert" && !Blank(s.blockId) && Trim(blockId) == Trim(s.blockId)
  }

  predicate SelectionMutationAllowed(u: Decoder, s: Scope, blockId: string, content: string) {
    if !Active(s) || !PartialSelection(s) then true
    else if Blank(blockId) || Trim(blockId) != Trim(s.blockId) || s.content == "" then false
    else
      match SelectionBounds(u, s.content, s.selection)
      case None => false
      case Some((a, b)) => HasPrefix(content, s.content[..a]) && HasSuffix(content, s.content[b..])
  }

  predicate SelectionBlockMutationAllowed(u: Decoder, s: Scope, b: Block) {
    && SelectionMutationAllowed(u, s, b.id, b.content)
    && (Active(s) && PartialSelection(s) ==> Unchanged(s, b))
  }

  /** Kind, title, chart and sources are those of the target block. */
  predicate Unchanged(s: Scope, b: Block) {
    && (Blank(s.kind) || Trim(b.kind) == Trim(s.kind)) && b.title == s.title
    && Trim(b.chartId) == Trim(s.chartId) && b.sources == s.sources
  }

  /** RefreshFromReportState: remembers the target block as it is now. */
  function Refreshed(s: Scope, blocks: seq<Block>, allowed: set<string>): Scope {
    var t := s.(allowedCharts := allowed, content := "", kind := "", title := "", chartId := "", sources := []);
    var i := if Blank(s.blockId) then -1 else IndexOf(blocks, Trim(s.blockId));
    if i < 0 then t else
      var b := blocks[i];
      t.(content := b.content, kind := b.kind, title := b.title, chartId := b.chartId, sources := b.sources)
  }

  // ---------- mutations ----------

  datatype Result = Result(blocks: seq<Block>, changed: bool, outcome: Outcome)

  /** The block an upsert writes: new sources, or those already recorded when none are given. */
  function Written(blocks: seq<Block>, p: Params): Option<Block> {
    var kind := if Blank(p.kind) then "markdown" else Trim(p.kind);
    match BuildBlock(kind, p.blockId, Trim(p.title), p.content, Trim(p.chartId), p.sources, |blocks| + 1)
    case None => None
    case Some(b) =>
      var i := IndexOf(blocks, b.id);
      Some(if i >= 0 && b.sources == [] then b.(sources := blocks[i].sources) else b)
  }

  function Cleaned(p: Params): Params {
    p.(action := if Blank(p.action) then "append" else Trim(p.action), blockId := Trim(p.blockId))
  }

  /** What is left to do to the list once the parameters and the guard have been checked. */
  datatype Command = Refuse(outcome: Outcome) | Put(block: Block, before: string, after: string)
    | Drop(id: string) | Shift(id: string, before: string, after: string)

  function DecideUpsert(u: Decoder, s: Scope, blocks: seq<Block>, p: Params): Command {
    match Written(blocks, p)
    case None => Refuse(BadBlock)
    case Some(b) =>
      if !BlockMutationAllowed(s, p.action, b.id) || !SelectionBlockMutationAllowed(u, s, b) then Refuse(OutOfScope)
      else Put(b, Trim(p.before), Trim(p.after))
  }

  function Decide(u: Decoder, s: Scope, blocks: seq<Block>, raw: Params): Command {
    var p := Cleaned(raw);
    if p.blockId == "" && p.action != "append" then Refuse(MissingBlockId)
    else if p.action == "append" || p.action == "upsert" then DecideUpsert(u, s, blocks, p)
    else if p.action != "remove" && p.action != "move" then Refuse(UnknownAction)
    else if !BlockMutationAllowed(s, p.action, p.blockId) then Refuse(OutOfScope)
    else if p.action == "remove" then Drop(p.blockId)
    else Shift(p.blockId, Trim(p.before), Trim(p.after))
  }

  function Without(blocks: seq<Block>, id: string): seq<Block> {
    if IndexOf(blocks, id) < 0 then blocks else RemoveAt(blocks, IndexOf(blocks, id))
  }

  /** What happens to the list: nothing, the subject goes, or the subject goes and a block with its id is put at n. */
  datatype Edit = Keep | Take | PutAt(block: Block, n: nat)

  datatype Plan = Plan(edit: Edit, outcome: Outcome)

  /** The list operations. An upsert removes the old block before it looks for its anchor; a move does not. */
  function PlanOf(blocks: seq<Block>, c: Command): (p: Plan)
    ensures p.edit.PutAt? ==> p.edit.block.id == Subject(c) && p.edit.n <= |Without(blocks, Subject(c))|
  {
    match c
    case Refuse(o) => Plan(Keep, o)
    case Put(b, before, after) =>
      var i := IndexOf(blocks, b.id);
      if before == "" && after == "" && i >= 0 then Plan(PutAt(b, i), Done)
      else (match InsertIndex(Without(blocks, b.id), before, after)
            case None => Plan(Take, BadAnchor)
            case Some(n) => Plan(PutAt(b, n), Done))
    case Drop(id) =>
      if IndexOf(blocks, id) < 0 then Plan(Keep, NotFound) else Plan(Take, Done)
    case Shift(id, before, after) =>
      var i := IndexOf(blocks, id);
      if i < 0 then Plan(Keep, NotFound)
      else (match InsertIndex(Without(blocks, id), before, after)
            case None => Plan(Keep, BadAnchor)
            case Some(n) => Plan(PutAt(blocks[i], n), Done))
  }

  function Realize(blocks: seq<Block>, id: string, e: Edit): seq<Block>
    requires e.PutAt? ==> e.n <= |Without(blocks, id)|
  {
    match e
    case Keep => blocks
    case Take => Without(blocks, id)
    case PutAt(b, n) => InsertAt(Without(blocks, id), b, n)
  }

  function Exec(blocks: seq<Block>, c: Command): Result {
    var p := PlanOf(blocks, c);
    Result(Realize(blocks, Subject(c), p.edit), p.outcome.Done?, p.outcome)
  }

  function Apply(u: Decoder, s: Scope, blocks: seq<Block>, raw: Params): Result {
    Exec(blocks, Decide(u, s, blocks, raw))
  }

  /** The id a command is about. */
  function Subject(c: Command): string {
    match c
    case Refuse(_) => ""
    case Put(b, _, _) => b.id
    case Drop(id) => id
    case Shift(id, _, _) => id
  }

  // ---------- what the mutations do to the list ----------

  /** The blocks with another id, in order. */
  function Others(blocks: seq<Block>, id: string): seq<Block> {
    if blocks == [] then [] else (if blocks[0].id == id then [] else [blocks[0]]) + Others(blocks[1..], id)
  }

  lemma {:induction false} OthersAppend(a: seq<Block>, b: seq<Block>, id: string)
    ensures Others(a + b, id) == Others(a, id) + Others(b, id)
  {
    if a == [] {
      assert a + b == b;
    } else {
      assert (a + b)[1..] == a[1..] + b;
      OthersAppend(a[1..], b, id);
      Assoc(if a[0].id == id then [] else [a[0]], Others(a[1..], id), Others(b, id));
    }
  }

  lemma OthersRemove(blocks: seq<Block>, i: nat)
    requires i < |blocks|
    ensures Others(RemoveAt(blocks, i), blocks[i].id) == Others(blocks, blocks[i].id)
  {
    var id := blocks[i].id;
    assert blocks == blocks[..i] + blocks[i..];
    OthersAppend(blocks[..i], blocks[i..], id);
    OthersAppend(blocks[..i], blocks[i + 1..], id);
  }

  lemma OthersInsert(blocks: seq<Block>, b: Block, i: nat)
    requires i <= |blocks|
    ensures Others(InsertAt(blocks, b, i), b.id) == Others(blocks, b.id)
  {
    OthersSkip(blocks[..i], b, blocks[i..]);
    assert blocks == blocks[..i] + blocks[i..];
  }

  lemma {:induction false} OthersSkip(x: seq<Block>, b: Block, y: seq<Block>)
    ensures Others(x + [b] + y, b.id) == Others(x + y, b.id)
  {
    if x == [] {
      assert x + [b] + y == [b] + y && x + y == y;
    } else {
      assert (x + [b] + y)[1..] == x[1..] + [b] + y && (x + y)[1..] == x[1..] + y;
      OthersSkip(x[1..], b, y);
    }
  }

  lemma OthersWithout(blocks: seq<Block>, id: string)
    ensures Others(Without(blocks, id), id) == Others(blocks, id)
  {
    if IndexOf(blocks, id) >= 0 { OthersRemove(blocks, IndexOf(blocks, id)); }
  }

  /** Main result: a mutation leaves every block with another id as it is and where it is among the others. */
  lemma MutationTouchesOneId(blocks: seq<Block>, c: Command)
    ensures Others(Exec(blocks, c).blocks, Subject(c)) == Others(blocks, Subject(c))
  {
    var e := PlanOf(blocks, c).edit;
    OthersWithout(blocks, Subject(c));
    if e.PutAt? { OthersInsert(Without(blocks, Subject(c)), e.block, e.n); }
  }

  lemma DistinctWithout(blocks: seq<Block>, id: string)
    requires DistinctIds(blocks)
    ensures DistinctIds(Without(blocks, id)) && IndexOf(Without(blocks, id), id) < 0
  {
    var i, rest := IndexOf(blocks, id), Without(blocks, id);
    if i >= 0 {
      forall k | 0 <= k < |rest| ensures rest[k].id != id {
        assert rest[k] == if k < i then blocks[k] else blocks[k + 1];
      }
    }
  }

  lemma InsertedAt(blocks: seq<Block>, b: Block, i: nat, k: nat)
    requires i <= |blocks| && k <= |blocks|
    ensures InsertAt(blocks, b, i)[k] == if k < i then blocks[k] else if k == i then b else blocks[k - 1]
  {
  }

  lemma DistinctInsert(blocks: seq<Block>, b: Block, i: nat)
    requires DistinctIds(blocks) && i <= |blocks| && IndexOf(blocks, b.id) < 0
    ensures DistinctIds(InsertAt(blocks, b, i))
  {
    var all := InsertAt(blocks, b, i);
    forall j, k | 0 <= j < k < |all| ensures all[j].id != all[k].id {
      InsertedAt(blocks, b, i, j);
      InsertedAt(blocks, b, i, k);
    }
  }

  lemma IdsStayDistinct(blocks: seq<Block>, c: Command)
    requires DistinctIds(blocks)
    ensures DistinctIds(Exec(blocks, c).blocks)
  {
    var e := PlanOf(blocks, c).edit;
    DistinctWithout(blocks, Subject(c));
    if e.PutAt? { DistinctInsert(Without(blocks, Subject(c)), e.block, e.n); }
  }

  /** Offset n stands directly before, directly after, or last, as the anchors ask. */
  predicate AtAnchor(blocks: seq<Block>, n: nat, before: string, after: string) {
    && n < |blocks|
    && (before != "" ==> after == "" && n + 1 < |blocks| && blocks[n + 1].id == before)
    && (before == "" && after != "" ==> n > 0 && blocks[n - 1].id == after)
    && (before == "" && after == "" ==> n == |blocks| - 1)
  }

  lemma InsertIndexIsAtAnchor(rest: seq<Block>, b: Block, before: string, after: string)
    requires InsertIndex(rest, before, after).Some?
    ensures var n := InsertIndex(rest, before, after).value;
            var all := InsertAt(rest, b, n);
            n < |all| && all[n] == b && AtAnchor(all, n, before, after)
  {
    var n := InsertIndex(rest, before, after).value;
    var all := InsertAt(rest, b, n);
    assert n < |rest| ==> all[n + 1] == rest[n];
    assert n > 0 ==> all[n - 1] == rest[n - 1];
  }

  /** Main result: a move permutes the blocks and puts the named one at its anchor. */
  lemma MovePermutes(blocks: seq<Block>, id: string, before: string, after: string)
    requires Exec(blocks, Shift(id, before, after)).outcome.Done?
    ensures IndexOf(blocks, id) >= 0 && PlanOf(blocks, Shift(id, before, after)).edit.PutAt?
    ensures var r, n := Exec(blocks, Shift(id, before, after)).blocks, PlanOf(blocks, Shift(id, before, after)).edit.n;
            multiset(r) == multiset(blocks) && n < |r| && r[n] == blocks[IndexOf(blocks, id)]
              && AtAnchor(r, n, before, after)
  {
    var i := IndexOf(blocks, id);
    var n := PlanOf(blocks, Shift(id, before, after)).edit.n;
    InsertIndexIsAtAnchor(Without(blocks, id), blocks[i], before, after);
    PutBackIsPermutation(blocks, i, n);
  }

  lemma PutBackIsPermutation(blocks: seq<Block>, i: nat, n: nat)
    requires i < |blocks| && n < |blocks|
    ensures multiset(InsertAt(RemoveAt(blocks, i), blocks[i], n)) == multiset(blocks)
  {
    var rest := RemoveAt(blocks, i);
    InsertMultiset(rest, blocks[i], n);
    InsertMultiset(rest, blocks[i], i);
    ReplaceAt(blocks, blocks[i], i);
  }

  lemma InsertMultiset(blocks: seq<Block>, b: Block, n: nat)
    requires n <= |blocks|
    ensures multiset(InsertAt(blocks, b, n)) == multiset(blocks) + multiset{b}
  {
    assert blocks == blocks[..n] + blocks[n..];
  }

  lemma ReplaceAt(blocks: seq<Block>, b: Block, i: nat)
    requires i < |blocks|
    ensures InsertAt(RemoveAt(blocks, i), b, i) == blocks[i := b]
  {
    var rest := RemoveAt(blocks, i);
    assert rest[..i] == blocks[..i] && rest[i..] == blocks[i + 1..];
  }

  /** An upsert without anchors replaces in position, or appends. */
  lemma UpsertInPlace(blocks: seq<Block>, b: Block)
    ensures var r := Exec(blocks, Put(b, "", ""));
            var i := IndexOf(blocks, b.id);
            r.outcome.Done? && r.blocks == if i >= 0 then blocks[i := b] else blocks + [b]
  {
    var i := IndexOf(blocks, b.id);
    if i >= 0 {
      ReplaceAt(blocks, b, i);
    } else {
      assert blocks[..|blocks|] == blocks && blocks[|blocks|..] == [];
    }
  }

  /**
   * Main result: a successful upsert can be read back: the block with its id holds the content, title, kind and chart
   * asked for.
   */
  lemma UpsertReadsBack(u: Decoder, s: Scope, blocks: seq<Block>, raw: Params)
    requires Decide(u, s, blocks, raw).Put? && Apply(u, s, blocks, raw).outcome.Done? && DistinctIds(blocks)
    ensures var c, r := Decide(u, s, blocks, raw), Apply(u, s, blocks, raw).blocks;
            var i := IndexOf(r, c.block.id);
            && i >= 0 && r[i].content == raw.content && r[i].title == Trim(raw.title)
              && r[i].chartId == Trim(raw.chartId)
            && r[i].kind == (if Blank(raw.kind) then "markdown" else Trim(raw.kind))
            && (!Blank(raw.blockId) ==> r[i].id == Trim(raw.blockId))
            && (raw.sources != [] ==> r[i].sources == raw.sources)
  {
    PutReadsBack(blocks, Decide(u, s, blocks, raw));
    PutIsWritten(u, s, blocks, raw);
  }

  /** After a successful upsert the list finds the written block under its id. */
  lemma PutReadsBack(blocks: seq<Block>, c: Command)
    requires c.Put? && Exec(blocks, c).outcome.Done? && DistinctIds(blocks)
    ensures var r := Exec(blocks, c).blocks;
            IndexOf(r, c.block.id) >= 0 && r[IndexOf(r, c.block.id)] == c.block
  {
    var e, rest := PlanOf(blocks, c).edit, Without(blocks, c.block.id);
    InsertedAt(rest, e.block, e.n, e.n);
    IdsStayDistinct(blocks, c);
  }

  lemma PutIsWritten(u: Decoder, s: Scope, blocks: seq<Block>, raw: Params)
    requires Decide(u, s, blocks, raw).Put?
    ensures Written(blocks, Cleaned(raw)) == Some(Decide(u, s, blocks, raw).block)
  {
  }

  /**
   * An upsert that will drop its block: the block exists, an anchor is given, and it does not resolve without the
   * block.
   */
  predicate Loses(blocks: seq<Block>, c: Command) {
    && c.Put? && IndexOf(blocks, c.block.id) >= 0 && !(c.before == "" && c.after == "")
    && InsertIndex(Without(blocks, c.block.id), c.before, c.after).None?
  }

  /** Main result: a failed mutation changes nothing, except that exactly such an upsert drops the block it names. */
  lemma FailureChangesNothingOrDrops(blocks: seq<Block>, c: Command)
    requires !Exec(blocks, c).outcome.Done?
    ensures var r := Exec(blocks, c);
            && !r.changed
            && (r.blocks != blocks <==> Loses(blocks, c))
            && (Loses(blocks, c) ==> r.blocks == RemoveAt(blocks, IndexOf(blocks, c.block.id)))
  {
    var i := IndexOf(blocks, Subject(c));
    assert i >= 0 ==> |Without(blocks, Subject(c))| != |blocks|;
  }

  // ---------- the guard over whole edit runs ----------

  function ApplyAll(u: Decoder, s: Scope, blocks: seq<Block>, edits: seq<Params>): seq<Block>
    decreases |edits|
  {
    if edits == [] then blocks else ApplyAll(u, s, Apply(u, s, blocks, edits[0]).blocks, edits[1..])
  }

  /** What the guard promises of the target block. */
  predicate Protected(u: Decoder, s: Scope, b: Block) {
    && Unchanged(s, b)
    && SelectionBounds(u, s.content, s.selection).Some?
    && var (i, j) := SelectionBounds(u, s.content, s.selection).value;
       HasPrefix(b.content, s.content[..i]) && HasSuffix(b.content, s.content[j..])
  }

  predicate GuardsSelection(s: Scope) {
    Active(s) && PartialSelection(s) && s.preserve
  }

  lemma ActionWords()
    ensures ToLower(Trim("remove")) != "upsert" && ToLower(Trim("move")) != "upsert"
            && ToLower(Trim("append")) != "upsert"
  {
    assert |ToLower(Trim("move"))| == 4;
    assert ToLower(Trim("remove"))[0] == 'r';
    assert ToLower(Trim("append"))[0] == 'a';
  }

  /** Only an upsert of the target gets through, and what it writes is protected. */
  lemma GuardDecides(u: Decoder, s: Scope, blocks: seq<Block>, raw: Params)
    requires GuardsSelection(s)
    ensures var c := Decide(u, s, blocks, raw);
            c.Refuse? || (c.Put? && c.block.id == Trim(s.blockId) && Protected(u, s, c.block))
  {
    var p := Cleaned(raw);
    ActionWords();
    TrimIdempotent(raw.blockId);
    if p.action == "upsert" && p.blockId != "" {
      GuardedWrite(u, s, blocks, p);
    } else if p.action == "append" {
      assert DecideUpsert(u, s, blocks, p).Refuse?;
    }
  }

  lemma GuardedWrite(u: Decoder, s: Scope, blocks: seq<Block>, p: Params)
    requires GuardsSelection(s) && Trim(p.blockId) == p.blockId
    requires Written(blocks, p).Some? ==> Written(blocks, p).value.id == p.blockId
    ensures var c := DecideUpsert(u, s, blocks, p);
            c.Refuse? || (c.Put? && c.block.id == Trim(s.blockId) && Protected(u, s, c.block))
  {
    var w := Written(blocks, p);
  }

  // ---------- what the guard lets through ----------

  /** The block an upsert asks for: kind, title, content and chart as given, sources as given or as recorded. */
  function Asked(blocks: seq<Block>, raw: Params, id: string): Block {
    var i := IndexOf(blocks, id);
    Block(id, if Blank(raw.kind) then "markdown" else Trim(raw.kind), Trim(raw.title), raw.content, Trim(raw.chartId),
          if raw.sources == [] && i >= 0 then blocks[i].sources else raw.sources)
  }

  /** A kind of block with what that kind needs. */
  predicate Buildable(b: Block) {
    (b.kind in {"markdown", "html"} && !Blank(b.content)) || (b.kind == "chart" && b.chartId != "")
  }

  /** The id for a new block without one. */
  function FreshId(blocks: seq<Block>, raw: Params): string {
    if !Blank(raw.title) then BlockIdFrom(Trim(raw.title), |blocks| + 1)
    else if !Blank(raw.chartId) then BlockIdFrom(Trim(raw.chartId), |blocks| + 1)
    else "block-" + Digits(|blocks| + 1)
  }

  lemma WritesAsked(blocks: seq<Block>, raw: Params)
    ensures var id := if Blank(raw.blockId) then FreshId(blocks, raw) else Trim(raw.blockId);
            Written(blocks, Cleaned(raw))
            == if Buildable(Asked(blocks, raw, id)) then Some(Asked(blocks, raw, id)) else None
  {
    TrimIdempotent(raw.chartId);
  }

  /** Without a scope: an append, or an upsert, removal or move with an id, whose block can be built. */
  lemma UnscopedDecides(u: Decoder, s: Scope, blocks: seq<Block>, raw: Params)
    requires !Active(s)
    ensures var action := if Blank(raw.action) then "append" else Trim(raw.action);
            var id := if Blank(raw.blockId) then FreshId(blocks, raw) else Trim(raw.blockId);
            Decide(u, s, blocks, raw)
            == if action != "append" && Blank(raw.blockId) then Refuse(MissingBlockId)
               else if action in {"append", "upsert"} then
                 (if !Buildable(Asked(blocks, raw, id)) then Refuse(BadBlock)
                  else Put(Asked(blocks, raw, id), Trim(raw.before), Trim(raw.after)))
               else if action == "remove" then Drop(id)
               else if action == "move" then Shift(id, Trim(raw.before), Trim(raw.after))
               else Refuse(UnknownAction)
  {
    WritesAsked(blocks, raw);
  }

  predicate IsTarget(s: Scope, id: string) {
    !Blank(s.blockId) && Trim(id) == Trim(s.blockId)
  }

  /** The scope lets a command through: only an upsert of the target if others are preserved, and only if protected. */
  predicate Admits(u: Decoder, s: Scope, action: string, c: Command) {
    && (s.preserve ==> Trim(action) == "upsert" && IsTarget(s, Subject(c)))
    && (PartialSelection(s) && c.Put? ==> IsTarget(s, c.block.id) && Protected(u, s, c.block))
  }

  /** Main result: a scope refuses exactly what it does not admit, and changes nothing else about a command. */
  lemma ScopeOnlyFilters(u: Decoder, s: Scope, blocks: seq<Block>, raw: Params)
    requires Active(s)
    ensures var c := Decide(u, s.(mode := ""), blocks, raw);
            Decide(u, s, blocks, raw) == if c.Refuse? || Admits(u, s, raw.action, c) then c else Refuse(OutOfScope)
  {
    var p := Cleaned(raw);
    ActionWords();
    WritesAsked(blocks, raw);
    TrimIdempotent(raw.blockId);
    if p.action == "append" || p.action == "upsert" {
      if Written(blocks, p).Some? {
        ActionIsFiltered(s, p.action, Written(blocks, p).value.id);
        SelectionIsFiltered(u, s, Written(blocks, p).value);
      }
    } else if p.action == "remove" || p.action == "move" {
      ActionIsFiltered(s, p.action, p.blockId);
    }
  }

  lemma UpsertWord()
    ensures Trim("upsert") == "upsert" && ToLower("upsert") == "upsert" && Blank("")
  {
  }

  lemma ActionIsFiltered(s: Scope, action: string, id: string)
    requires Active(s) && action in {"append", "upsert", "remove", "move"}
    ensures BlockMutationAllowed(s, action, id) <==> (s.preserve ==> action == "upsert" && IsTarget(s, id))
  {
    ActionWords();
    UpsertWord();
  }

  lemma SelectionIsFiltered(u: Decoder, s: Scope, b: Block)
    requires Active(s)
    ensures SelectionBlockMutationAllowed(u, s, b)
            <==> (PartialSelection(s) ==> IsTarget(s, b.id) && Protected(u, s, b))
  {
    if s.content == "" { NothingSelected(u, s.selection); }
  }

  lemma ExecWrites(blocks: seq<Block>, c: Command, x: Block)
    requires c.Put? && x in Exec(blocks, c).blocks
    ensures x in blocks || x == c.block
  {
    var e, rest := PlanOf(blocks, c).edit, Without(blocks, c.block.id);
    assert forall y :: y in rest ==> y in blocks;
    assert e.PutAt? ==> e.block == c.block;
    if e.PutAt? { InsertedIn(rest, e.block, e.n, x); }
  }

  lemma InsertedIn(blocks: seq<Block>, b: Block, n: nat, x: Block)
    requires n <= |blocks| && x in InsertAt(blocks, b, n)
    ensures x in blocks || x == b
  {
    assert blocks == blocks[..n] + blocks[n..];
  }

  /**
   * Main result: under a guarded selection no run of edits changes, moves or drops any other block, and every new
   * target block is protected.
   */
  lemma {:induction false} EditRunIsGuarded(u: Decoder, s: Scope, blocks: seq<Block>, edits: seq<Params>)
    requires GuardsSelection(s)
    ensures Others(ApplyAll(u, s, blocks, edits), Trim(s.blockId)) == Others(blocks, Trim(s.blockId))
    ensures forall b :: b in ApplyAll(u, s, blocks, edits) ==>
              b in blocks || (b.id == Trim(s.blockId) && Protected(u, s, b))
    ensures DistinctIds(blocks) ==> DistinctIds(ApplyAll(u, s, blocks, edits))
    decreases |edits|
  {
    if edits != [] {
      var c := Decide(u, s, blocks, edits[0]);
      var next := Exec(blocks, c).blocks;
      GuardDecides(u, s, blocks, edits[0]);
      MutationTouchesOneId(blocks, c);
      if DistinctIds(blocks) { IdsStayDistinct(blocks, c); }
      forall x | c.Put? && x in next ensures x in blocks || x == c.block { ExecWrites(blocks, c, x); }
      EditRunIsGuarded(u, s, next, edits[1..]);
    }
  }

  /** A matched selection means that the target block was captured. */
  lemma TargetIsCaptured(u: Decoder, s0: Scope, allowed: set<string>, blocks: seq<Block>, b: Block)
    requires DistinctIds(blocks) && b in blocks && b.id == Trim(s0.blockId)
    requires SelectionBounds(u, Refreshed(s0, blocks, allowed).content, s0.selection).Some?
    ensures var s := Refreshed(s0, blocks, allowed);
            s.content == b.content && s.kind == b.kind && s.title == b.title && s.chartId == b.chartId
              && s.sources == b.sources
  {
    var i := IndexOf(blocks, Trim(s0.blockId));
    assert i >= 0 && blocks[i] == b;
    if Blank(s0.blockId) { NothingSelected(u, s0.selection); }
  }

  lemma NothingSelected(u: Decoder, selection: Selection)
    ensures SelectionBounds(u, "", selection) == None
  {
  }

  /** A rewrite of a block that leaves everything but its content. */
  function Rewrite(b: Block, content: string): Params {
    Params("upsert", b.id, b.kind, b.title, content, b.chartId, "", "", [])
  }

  /** No space around the id, kind, title and chart, as the tool stores them. */
  predicate Tidy(b: Block) {
    Trim(b.id) == b.id != "" && Trim(b.kind) == b.kind && Trim(b.title) == b.title && Trim(b.chartId) == b.chartId
  }

  lemma RewriteIsAsked(blocks: seq<Block>, i: nat, content: string)
    requires i < |blocks| && DistinctIds(blocks) && Tidy(blocks[i]) && Buildable(blocks[i].(content := content))
    ensures Asked(blocks, Rewrite(blocks[i], content), blocks[i].id) == blocks[i].(content := content)
    ensures IndexOf(blocks, blocks[i].id) == i
  {
    var k := IndexOf(blocks, blocks[i].id);
    assert k == i;
  }

  lemma RewriteDecides(u: Decoder, s: Scope, blocks: seq<Block>, i: nat, content: string)
    requires !Active(s) && i < |blocks| && DistinctIds(blocks) && Tidy(blocks[i])
    requires Buildable(blocks[i].(content := content))
    ensures Decide(u, s, blocks, Rewrite(blocks[i], content)) == Put(blocks[i].(content := content), "", "")
  {
    RewriteIsAsked(blocks, i, content);
    UpsertWord();
    UnscopedDecides(u, s, blocks, Rewrite(blocks[i], content));
  }

  lemma CapturedAt(s0: Scope, blocks: seq<Block>, allowed: set<string>, i: nat)
    requires DistinctIds(blocks) && i < |blocks| && blocks[i].id == Trim(s0.blockId) != ""
    ensures var s := Refreshed(s0, blocks, allowed);
            && s.content == blocks[i].content && s.kind == blocks[i].kind && s.title == blocks[i].title
            && s.chartId == blocks[i].chartId && s.sources == blocks[i].sources
            && s.blockId == s0.blockId && s.mode == s0.mode && s.selection == s0.selection
  {
    assert IndexOf(blocks, blocks[i].id) == i;
  }

  lemma EndsAreKept(prefix: string, mid: string, suffix: string)
    ensures HasPrefix(prefix + mid + suffix, prefix) && HasSuffix(prefix + mid + suffix, suffix)
  {
  }

  /**
   * Main result: with the target captured from a report, an edit that keeps both ends of its content and everything
   * else gets through and is what the report then holds.
   */
  lemma KeptEndsGetThrough(u: Decoder, s0: Scope, allowed: set<string>, blocks: seq<Block>, i: nat, mid: string)
    requires DistinctIds(blocks) && i < |blocks| && Tidy(blocks[i]) && blocks[i].id == Trim(s0.blockId)
    requires Active(s0) && SelectionBounds(u, blocks[i].content, s0.selection).Some?
    ensures var s := Refreshed(s0, blocks, allowed);
            var (a, b) := SelectionBounds(u, blocks[i].content, s0.selection).value;
            var content := blocks[i].content[..a] + mid + blocks[i].content[b..];
            Buildable(blocks[i].(content := content)) ==>
              && Apply(u, s, blocks, Rewrite(blocks[i], content)).outcome.Done?
              && Apply(u, s, blocks, Rewrite(blocks[i], content)).blocks == blocks[i := blocks[i].(content := content)]
  {
    var s := Refreshed(s0, blocks, allowed);
    var (a, b) := SelectionBounds(u, blocks[i].content, s0.selection).value;
    var content := blocks[i].content[..a] + mid + blocks[i].content[b..];
    if Buildable(blocks[i].(content := content)) {
      var written := blocks[i].(content := content);
      RewriteDecides(u, s.(mode := ""), blocks, i, content);
      CapturedAt(s0, blocks, allowed, i);
      EndsAreKept(blocks[i].content[..a], mid, blocks[i].content[b..]);
      ScopeOnlyFilters(u, s, blocks, Rewrite(blocks[i], content));
      UpsertWord();
      assert Admits(u, s, "upsert", Put(written, "", ""));
      UpsertInPlace(blocks, written);
    }
  }

  lemma UneditedIsProtected(u: Decoder, s: Scope, b: Block)
    requires SelectionBounds(u, s.content, s.selection).Some? && Unchanged(s, b) && s.content == b.content
    ensures Protected(u, s, b)
  {
    var (i, j) := SelectionBounds(u, s.content, s.selection).value;
    EndsOfContent(b.content, i, j);
  }

  lemma EndsOfContent(content: string, i: nat, j: nat)
    requires i <= |content| && j <= |content|
    ensures HasPrefix(content, content[..i]) && HasSuffix(content, content[j..])
  {
  }

  /** With the target captured from a report with distinct ids, the target is protected whenever it is present. */
  lemma TargetStaysProtected(u: Decoder, s0: Scope, allowed: set<string>, blocks: seq<Block>, edits: seq<Params>,
      b: Block)
    requires DistinctIds(blocks) && GuardsSelection(Refreshed(s0, blocks, allowed))
    requires SelectionBounds(u, Refreshed(s0, blocks, allowed).content, s0.selection).Some?
    requires b in ApplyAll(u, Refreshed(s0, blocks, allowed), blocks, edits) && b.id == Trim(s0.blockId)
    ensures Protected(u, Refreshed(s0, blocks, allowed), b)
  {
    var s := Refreshed(s0, blocks, allowed);
    EditRunIsGuarded(u, s, blocks, edits);
    if b in blocks {
      TargetIsCaptured(u, s0, allowed, blocks, b);
      UneditedIsProtected(u, s, b);
    }
  }

  /** Main result: under all edits the target keeps its title, sources, chart and kind, and both ends of its text. */
  lemma OnlySelectionChanges(u: Decoder, s0: Scope, allowed: set<string>, blocks: seq<Block>, edits: seq<Params>,
      i: nat, b: Block)
    requires DistinctIds(blocks) && i < |blocks| && blocks[i].id == Trim(s0.blockId) != ""
    requires GuardsSelection(s0) && SelectionBounds(u, blocks[i].content, s0.selection).Some?
    requires b in ApplyAll(u, Refreshed(s0, blocks, allowed), blocks, edits) && b.id == blocks[i].id
    ensures b.title == blocks[i].title && b.sources == blocks[i].sources && Trim(b.chartId) == Trim(blocks[i].chartId)
    ensures !Blank(blocks[i].kind) ==> Trim(b.kind) == Trim(blocks[i].kind)
    ensures var (x, y) := SelectionBounds(u, blocks[i].content, s0.selection).value;
            blocks[i].content[..x] <= b.content && HasSuffix(b.content, blocks[i].content[y..])
  {
    CapturedAt(s0, blocks, allowed, i);
    TargetStaysProtected(u, s0, allowed, blocks, edits, b);
  }

  /** The new content splits into prefix, replacement and suffix exactly when it is long enough to hold both ends. */
  lemma ProtectedContentSplits(u: Decoder, s: Scope, b: Block)
    requires Protected(u, s, b)
    ensures var (i, j) := SelectionBounds(u, s.content, s.selection).value;
            (exists mid :: b.content == s.content[..i] + mid + s.content[j..]) <==> |b.content| >= i + |s.content| - j
  {
    var (i, j) := SelectionBounds(u, s.content, s.selection).value;
    EndsSplit(b.content, s.content[..i], s.content[j..]);
  }

  lemma EndsSplit(content: string, prefix: string, suffix: string)
    requires HasPrefix(content, prefix) && HasSuffix(content, suffix)
    ensures (exists mid :: content == prefix + mid + suffix) <==> |content| >= |prefix| + |suffix|
  {
    if |content| >= |prefix| + |suffix| {
      var mid := content[|prefix|..|content| - |suffix|];
      assert content == prefix + mid + suffix;
    }
  }

  /** The ends may overlap: in "aXa" with X selected, the single rune "a" is let through. */
  lemma EndsMayOverlap(u: Decoder, s: Scope)
    requires s.content == "aXa" && s.selection == Selection("X", 1, 2, true)
    requires Active(s) && PartialSelection(s) && Trim(s.blockId) == "b"
    ensures SelectionMutationAllowed(u, s, "b", "a") && !exists mid :: "a" == "a" + mid + "a"
  {
    OverlapBounds(u, s.content);
    assert Trim("b") == "b";
    assert "aXa"[..1] == "a" && "aXa"[2..] == "a" && "a"[0..] == "a";
    assert forall mid: string :: |"a" + mid + "a"| >= 2;
  }

  lemma OverlapBounds(u: Decoder, content: string)
    requires content == "aXa"
    ensures SelectionBounds(u, content, Selection("X", 1, 2, true)) == Some((1, 2))
  {
    PlainTextIsItself(u, content, 0);
    MiddleBounds(Project(u, content, 0), Selection("X", 1, 2, true));
  }

  lemma MiddleBounds(p: seq<Projected>, s: Selection)
    requires |p| == 3 && p[1] == Projected('X', 1, 2) && s.start == 1 && s.end == 2 && s.rangeSet
    requires |s.text| == 1 && s.text[0] == 'X'
    ensures BoundsIn(p, s) == Some((1, 2))
  {
    assert Values(p[1..2]) == s.text;
    NormalizeOne(s.text);
  }

  lemma NormalizeOne(s: string)
    requires |s| == 1 && !IsSpace(s[0])
    ensures Normalize(s) == s
  {
    assert s[..0] == [];
  }

  // ---------- the list in place ----------

  /** The slice behind the report's blocks: a backing array and the number of blocks in it. */
  class BlockSlice {
    var data: array<Block>
    var count: nat

    ghost predicate Valid()
      reads this
    {
      count <= data.Length
    }

    ghost function Contents(): seq<Block>
      reads this, data
      requires Valid()
    {
      data[..count]
    }

    constructor (blocks: seq<Block>)
      ensures Valid() && fresh(data) && Contents() == blocks
    {
      data := new Block[|blocks|](i requires 0 <= i < |blocks| => blocks[i]);
      count := |blocks|;
    }

    /**
     * append(s[:i], s[i+1:]...): shifts the tail over the removed block, in the same backing array. A holder of the old
     * slice sees the shifted blocks and the last one twice.
     */
    method RemoveBlockAt(i: nat)
      requires Valid() && i < count
      modifies this`count, data
      ensures Valid() && data == old(data) && Contents() == RemoveAt(old(Contents()), i)
      ensures data[..old(count)] == RemoveAt(old(Contents()), i) + [old(Contents())[old(count) - 1]]
    {
      var a, n := data, count;
      ghost var was := a[..n];
      assert ClosedUp(was, i, i) == was;
      for j := i to n - 1
        invariant a[..n] == ClosedUp(was, i, j)
        modifies a
      {
        ghost var now := a[..n];
        assert a[j + 1] == now[j + 1];
        a[j] := a[j + 1];
        assert a[..n] == now[j := now[j + 1]];
        CloseOnce(was, i, j);
      }
      count := n - 1;
      assert a[..n - 1] == a[..n][..n - 1];
    }

    /** append of one more element: in place while there is room, in a new array otherwise. */
    method Grow(b: Block)
      requires Valid()
      modifies this, data
      ensures Valid() && count == old(count) + 1 && data[..old(count)] == old(Contents())
      ensures if old(count) < old(data.Length) then data == old(data) else fresh(data)
    {
      if count == data.Length {
        var a, n := data, count;
        var bigger := new Block[2 * n + 1](_ => b);
        for k := 0 to n
          invariant forall m :: 0 <= m < k ==> bigger[m] == a[m]
          modifies bigger
        {
          bigger[k] := a[k];
        }
        data := bigger;
      } else {
        data[count] := b;
      }
      count := count + 1;
    }

    /** copy(s[at+1:], s[at:]): the tail moves one place to the right and its last block is lost. */
    method ShiftTail(at: nat)
      requires Valid() && at < count
      modifies data
      ensures data[..count] == Shifted(old(data[..count]), at)
    {
      var a, n := data, count;
      ghost var was := a[..n];
      var j := n - 1;
      assert Shifted(was, j) == was;
      while j > at
        invariant at <= j < n
        invariant a[..n] == Shifted(was, j)
      {
        ghost var now := a[..n];
        assert a[j - 1] == now[j - 1];
        a[j] := a[j - 1];
        assert a[..n] == now[j := now[j - 1]];
        ShiftOnce(was, j);
        j := j - 1;
      }
    }

    /** insertReportBlockAt: one element more, the tail shifted behind the offset, the block put there. */
    method InsertBlockAt(b: Block, index: nat)
      requires Valid()
      modifies this, data
      ensures Valid() && (data == old(data) || fresh(data))
      ensures Contents() == InsertAt(old(Contents()), b, if index > old(count) then old(count) else index)
    {
      ghost var before := Contents();
      var at := if index > count then count else index;
      Grow(b);
      ghost var grown := data[..count];
      assert grown[..|before|] == before;
      ShiftTail(at);
      ghost var shifted := data[..count];
      data[at] := b;
      InsertedThere(before, grown, shifted, b, at);
      assert data[..count] == shifted[at := b];
    }
  }

  /** The gap at offset i closed with the blocks up to offset j. */
  function ClosedUp(blocks: seq<Block>, i: nat, j: nat): seq<Block>
    requires i <= j < |blocks|
  {
    blocks[..i] + blocks[i + 1..j + 1] + blocks[j..]
  }

  lemma CloseOnce(blocks: seq<Block>, i: nat, j: nat)
    requires i <= j < |blocks| - 1
    ensures ClosedUp(blocks, i, j)[j := ClosedUp(blocks, i, j)[j + 1]] == ClosedUp(blocks, i, j + 1)
  {
  }

  /** The blocks from offset j on, one place to the right, without the last one. */
  function Shifted(blocks: seq<Block>, j: nat): seq<Block>
    requires j < |blocks|
  {
    blocks[..j + 1] + blocks[j..|blocks| - 1]
  }

  lemma ShiftOnce(blocks: seq<Block>, j: nat)
    requires 0 < j < |blocks|
    ensures Shifted(blocks, j)[j := Shifted(blocks, j)[j - 1]] == Shifted(blocks, j - 1)
  {
  }

  lemma InsertedThere(before: seq<Block>, grown: seq<Block>, shifted: seq<Block>, b: Block, at: nat)
    requires at <= |before| && |grown| == |before| + 1 && grown[..|before|] == before
    requires shifted == Shifted(grown, at)
    ensures shifted[at := b] == InsertAt(before, b, at)
  {
    assert grown[at..|before|] == before[at..] && grown[..at] == before[..at];
  }
}
