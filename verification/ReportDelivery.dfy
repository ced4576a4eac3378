/**
 * Charts, layout and delivery of the report: report_state.go, report_charts.go, report_layout.go, report_finalize.go in
 * server/tools.
 */
module ReportDelivery {
  import opened Text
  import opened Projection
  import opened ReportBlocks

  datatype Chart = Chart(id: string, option: string)
  datatype Layout = Layout(customCss: string, bodyClass: string)

  datatype Report = Report(blocks: seq<Block>, charts: seq<Chart>, title: string, author: string, layout: Layout,
    needsFinalize: bool)

  const EMPTY := Report([], [], "", "", Layout("", ""), false)
  const MAX_CUSTOM_CSS := 10240

  // ---------- chart references ----------

  function WordEnd(s: string, i: nat): (e: nat)
    requires i <= |s|
    ensures i <= e <= |s| && (forall k :: i <= k < e ==> WordChar(s[k])) && (e < |s| ==> !WordChar(s[e]))
    decreases |s| - i
  {
    if i < |s| && WordChar(s[i]) then WordEnd(s, i + 1) else i
  }

  /** `{{chart:word}}` at offset i: the offset after the word. */
  function RefEnd(s: string, i: nat): (e: nat)
    ensures e > 0 ==> i + 8 < e && e + 2 <= |s| && s[i] == '{' && s[i + 1] == '{'
                      && (forall k :: i + 2 <= k < e + 2 ==> s[k] != '{')
  {
    if i + 8 <= |s| && s[i..i + 8] == "{{chart:" then
      var e := WordEnd(s, i + 8);
      assert forall k :: i <= k < i + 8 ==> s[k] == "{{chart:"[k - i];
      if e > i + 8 && e + 2 <= |s| && s[e] == '}' && s[e + 1] == '}' then e else 0
    else 0
  }

  /** All references from offset i on, found left to right without overlap. */
  function ChartRefs(s: string, i: nat): set<string>
    decreases |s| - i
  {
    if i >= |s| then {} else
      var e := RefEnd(s, i);
      if e > 0 then {s[i + 8..e]} + ChartRefs(s, e + 2) else ChartRefs(s, i + 1)
  }

  /** A reference to chart c stands at offset k. */
  predicate ChartRefAt(s: string, k: nat, c: string) {
    RefEnd(s, k) > 0 && s[k + 8..RefEnd(s, k)] == c
  }

  lemma NoRefInside(s: string, i: nat, k: nat)
    requires RefEnd(s, i) > 0 && i < k < RefEnd(s, i) + 2
    ensures RefEnd(s, k) == 0
  {
    assert k + 1 < RefEnd(s, i) + 2 ==> s[k + 1] != '{';
  }

  lemma {:induction false} FoundIsThere(s: string, i: nat, c: string) returns (k: nat)
    requires c in ChartRefs(s, i)
    ensures i <= k && ChartRefAt(s, k, c)
    decreases |s| - i
  {
    if ChartRefAt(s, i, c) {
      k := i;
    } else {
      k := FoundIsThere(s, if RefEnd(s, i) > 0 then RefEnd(s, i) + 2 else i + 1, c);
    }
  }

  lemma {:induction false} ThereIsFound(s: string, i: nat, k: nat, c: string)
    requires i <= k && ChartRefAt(s, k, c)
    ensures c in ChartRefs(s, i)
    decreases |s| - i
  {
    if i < k {
      if RefEnd(s, i) > 0 && k < RefEnd(s, i) + 2 { NoRefInside(s, i, k); }
      ThereIsFound(s, if RefEnd(s, i) > 0 then RefEnd(s, i) + 2 else i + 1, k, c);
    }
  }

  /** Skipping past a match misses nothing: a reference is found exactly where it stands. */
  lemma ChartRefsFindsAll(s: string, c: string)
    ensures c in ChartRefs(s, 0) <==> exists k: nat :: ChartRefAt(s, k, c)
  {
    if c in ChartRefs(s, 0) { var k := FoundIsThere(s, 0, c); }
    if k: nat :| ChartRefAt(s, k, c) { ThereIsFound(s, 0, k, c); }
  }

  predicate KindIs(b: Block, kind: string) {
    ToLower(Trim(b.kind)) == kind
  }

  /** The charts a block counts for. */
  function CountedRefs(b: Block): set<string> {
    if KindIs(b, "chart") then (if Blank(b.chartId) then {} else {Trim(b.chartId)}) else ChartRefs(b.content, 0)
  }

  predicate Renderable(b: Block) {
    KindIs(b, "markdown") || KindIs(b, "html") || KindIs(b, "chart")
  }

  function Count(blocks: seq<Block>, c: string): nat {
    if blocks == [] then 0 else
      Count(blocks[..|blocks| - 1], c) + if c in CountedRefs(blocks[|blocks| - 1]) then 1 else 0
  }

  function ChartIds(charts: seq<Chart>): set<string> {
    set i | 0 <= i < |charts| && !Blank(charts[i].id) :: Trim(charts[i].id)
  }

  predicate SomeRenderable(blocks: seq<Block>) {
    exists i :: 0 <= i < |blocks| && Renderable(blocks[i])
  }

  /** Something to show, and every chart reference resolves and is counted once. */
  ghost predicate Ready(r: Report) {
    && SomeRenderable(r.blocks)
    && forall c :: Count(r.blocks, c) > 0 ==> c in ChartIds(r.charts) && Count(r.blocks, c) == 1
  }

  /** Block i refers to chart c: as its own chart, or in the text of a block that is no chart. */
  ghost predicate Refers(blocks: seq<Block>, i: nat, c: string) {
    && i < |blocks|
    && if KindIs(blocks[i], "chart") then c != "" && c == Trim(blocks[i].chartId)
       else exists k: nat :: ChartRefAt(blocks[i].content, k, c)
  }

  lemma RefersIsCounted(blocks: seq<Block>, i: nat, c: string)
    requires i < |blocks|
    ensures Refers(blocks, i, c) <==> c in CountedRefs(blocks[i])
  {
    ChartRefsFindsAll(blocks[i].content, c);
  }

  /** The blocks that refer to chart c, by their places. */
  function Referrers(blocks: seq<Block>, c: string): set<nat> {
    set i: nat | i < |blocks| && c in CountedRefs(blocks[i])
  }

  lemma ReferrersSnoc(blocks: seq<Block>, c: string)
    requires blocks != []
    ensures var n := |blocks| - 1;
            var front := Referrers(blocks[..n], c);
            && n !in front
            && Referrers(blocks, c) == if c in CountedRefs(blocks[n]) then front + {n} else front
  {
    var n := |blocks| - 1;
    var front := Referrers(blocks[..n], c);
    forall i: nat ensures i in Referrers(blocks, c) <==> i in front || (i == n && c in CountedRefs(blocks[n])) {
      if i < n { assert blocks[..n][i] == blocks[i]; }
    }
  }

  lemma {:induction false} CountIsReferrers(blocks: seq<Block>, c: string)
    ensures Count(blocks, c) == |Referrers(blocks, c)|
  {
    if blocks != [] {
      CountIsReferrers(blocks[..|blocks| - 1], c);
      ReferrersSnoc(blocks, c);
    }
  }

  lemma OneOrMany(s: set<nat>)
    ensures |s| <= 1 <==> forall i, j :: i in s && j in s ==> i == j
  {
    if s != {} {
      var x :| x in s;
      var rest := s - {x};
      assert |rest| == |s| - 1;
      if rest != {} {
        var y :| y in rest;
        assert y in s && y != x;
      } else {
        assert forall i :: i in s ==> i == x || i in rest;
      }
    }
  }

  /** Every block that refers to the chart finds it, and there is at most one such block. */
  ghost predicate ResolvedOnce(r: Report, c: string) {
    && (forall i: nat :: Refers(r.blocks, i, c) ==> c in ChartIds(r.charts))
    && forall i: nat, j: nat :: Refers(r.blocks, i, c) && Refers(r.blocks, j, c) ==> i == j
  }

  lemma CountedIffResolved(r: Report, c: string)
    ensures (Count(r.blocks, c) > 0 ==> c in ChartIds(r.charts) && Count(r.blocks, c) == 1) <==> ResolvedOnce(r, c)
  {
    var s := Referrers(r.blocks, c);
    CountIsReferrers(r.blocks, c);
    forall i: nat ensures i in s <==> Refers(r.blocks, i, c) {
      if i < |r.blocks| { RefersIsCounted(r.blocks, i, c); }
    }
    OneOrMany(s);
    if s != {} {
      var x :| x in s;
      assert Refers(r.blocks, x, c);
    }
  }

  /** Main result: a report is ready exactly if it shows something and every chart referred to exists, in one block. */
  lemma ReadyIff(r: Report)
    ensures Ready(r) <==> SomeRenderable(r.blocks) && forall c :: ResolvedOnce(r, c)
  {
    forall c
      ensures (Count(r.blocks, c) > 0 ==> c in ChartIds(r.charts) && Count(r.blocks, c) == 1) <==> ResolvedOnce(r, c)
    {
      CountedIffResolved(r, c);
    }
  }

  datatype Issue = NoBlocks | MissingChart(id: string) | DuplicateChart(id: string, count: nat)

  function At(counts: map<string, nat>, c: string): nat {
    if c in counts then counts[c] else 0
  }

  method AddRefs(counts: map<string, nat>, refs: set<string>) returns (r: map<string, nat>)
    requires forall c :: c in counts ==> counts[c] > 0
    ensures forall c :: At(r, c) == At(counts, c) + if c in refs then 1 else 0
    ensures forall c :: c in r ==> r[c] > 0
  {
    r := counts;
    var left := refs;
    while left != {}
      invariant left <= refs
      invariant forall c :: At(r, c) == At(counts, c) + if c in refs && c !in left then 1 else 0
      invariant forall c :: c in r ==> r[c] > 0
      decreases left
    {
      var c :| c in left;
      r := r[c := At(r, c) + 1];
      left := left - {c};
    }
  }

  method CollectChartIds(charts: seq<Chart>) returns (ids: set<string>)
    ensures ids == ChartIds(charts)
  {
    ids := {};
    for i := 0 to |charts|
      invariant forall c :: c in ids <==> exists k :: 0 <= k < i && !Blank(charts[k].id) && Trim(charts[k].id) == c
    {
      if !Blank(charts[i].id) { ids := ids + {Trim(charts[i].id)}; }
    }
  }

  method CountAllRefs(blocks: seq<Block>) returns (counts: map<string, nat>)
    ensures forall c :: At(counts, c) == Count(blocks, c)
    ensures forall c :: c in counts <==> At(counts, c) > 0
  {
    counts := map[];
    for i := 0 to |blocks|
      invariant forall c :: At(counts, c) == Count(blocks[..i], c)
      invariant forall c :: c in counts ==> counts[c] > 0
    {
      assert blocks[..i + 1][..i] == blocks[..i];
      counts := AddRefs(counts, CountedRefs(blocks[i]));
    }
    assert blocks[..|blocks|] == blocks;
  }

  method RenderableCount(blocks: seq<Block>) returns (n: nat)
    ensures n > 0 <==> SomeRenderable(blocks)
  {
    n := 0;
    for i := 0 to |blocks|
      invariant n > 0 <==> exists k :: 0 <= k < i && Renderable(blocks[k])
    {
      if Renderable(blocks[i]) { n := n + 1; }
    }
  }

  /** reportFinalizeIssues; the source lists the same issues in a fixed order. */
  method ReportFinalizeIssues(r: Report) returns (issues: set<Issue>)
    ensures NoBlocks in issues <==> !SomeRenderable(r.blocks)
    ensures forall c :: MissingChart(c) in issues <==> Count(r.blocks, c) > 0 && c !in ChartIds(r.charts)
    ensures forall c, n :: DuplicateChart(c, n) in issues <==> n == Count(r.blocks, c) && n > 1
    ensures issues == {} <==> Ready(r)
  {
    var chartSet := CollectChartIds(r.charts);
    var counts := CountAllRefs(r.blocks);
    var shown := RenderableCount(r.blocks);
    var none: set<Issue> := if shown == 0 then {NoBlocks} else {};
    var missing := set c | c in counts && c !in chartSet :: MissingChart(c);
    var duplicate := set c | c in counts && counts[c] > 1 :: DuplicateChart(c, counts[c]);
    issues := none + missing + duplicate;
    IssuesDecide(r, issues);
  }

  lemma IssuesDecide(r: Report, issues: set<Issue>)
    requires NoBlocks in issues <==> !SomeRenderable(r.blocks)
    requires forall c :: MissingChart(c) in issues <==> Count(r.blocks, c) > 0 && c !in ChartIds(r.charts)
    requires forall c, n :: DuplicateChart(c, n) in issues <==> n == Count(r.blocks, c) && n > 1
    ensures issues == {} <==> Ready(r)
  {
    if issues != {} {
      var x :| x in issues;
      match x
      case NoBlocks =>
      case MissingChart(c) => assert Count(r.blocks, c) > 0 && c !in ChartIds(r.charts);
      case DuplicateChart(c, n) => assert n == Count(r.blocks, c) && n > 1;
    } else {
      forall c | Count(r.blocks, c) > 0 ensures c in ChartIds(r.charts) && Count(r.blocks, c) == 1 {
        assert MissingChart(c) !in issues && DuplicateChart(c, Count(r.blocks, c)) !in issues;
      }
    }
  }

  // ---------- steps on the report ----------

  datatype Delivery = EmptyReport | Draft | FinalizedReport

  function DeliveryOf(r: Report): Delivery {
    if r.blocks == [] && r.charts == [] then EmptyReport
    else if !r.needsFinalize && !Blank(r.title) then FinalizedReport
    else Draft
  }

  function WriteBlocks(u: Decoder, s: Scope, r: Report, p: Params): Report {
    var x := Apply(u, s, r.blocks, p);
    r.(blocks := x.blocks, needsFinalize := r.needsFinalize || x.changed)
  }

  predicate ChartMutationAllowed(s: Scope, id: string) {
    !Active(s) || !s.preserve || Trim(id) in s.allowedCharts
  }

  function ChartIndex(charts: seq<Chart>, id: string): (r: int)
    ensures -1 <= r < |charts|
  {
    if charts == [] then -1
    else if Trim(charts[0].id) == id then 0
    else if ChartIndex(charts[1..], id) < 0 then -1 else ChartIndex(charts[1..], id) + 1
  }

  /** option is None when the chart specification is invalid. */
  function WriteChart(s: Scope, r: Report, id: string, option: Option<string>): Report {
    if option.None? || !ChartMutationAllowed(s, id) then r else
      var i := ChartIndex(r.charts, id);
      var c := Chart(id, option.value);
      r.(charts := if i >= 0 then r.charts[i := c] else r.charts + [c], needsFinalize := true)
  }

  function WriteLayout(r: Report, action: string, css: string, bodyClass: string): Report {
    var a := if Blank(action) then "merge" else Trim(action);
    if a == "reset" then r.(layout := Layout("", ""), needsFinalize := true)
    else if a == "merge" && Bytes(css) <= MAX_CUSTOM_CSS then
      r.(layout := Layout(if css != "" then css else r.layout.customCss,
                          if bodyClass != "" then Trim(bodyClass) else r.layout.bodyClass),
         needsFinalize := true)
    else r
  }

  /** The chart search finds the first chart with that id. */
  lemma {:induction false} ChartIndexIsFirst(charts: seq<Chart>, id: string)
    ensures ChartIndex(charts, id) < 0 ==> forall j :: 0 <= j < |charts| ==> Trim(charts[j].id) != id
    ensures ChartIndex(charts, id) >= 0 ==> Trim(charts[ChartIndex(charts, id)].id) == id
                                            && forall j :: 0 <= j < ChartIndex(charts, id) ==> Trim(charts[j].id) != id
  {
    if charts != [] {
      ChartIndexIsFirst(charts[1..], id);
      assert forall j :: 0 < j < |charts| ==> charts[j] == charts[1..][j - 1];
    }
  }

  /**
   * Main result: an admitted chart stands as given in place of the first with its id, or last, and no other changes.
   * An id with space around it is never found, so each call adds a chart.
   */
  lemma ChartReadsBack(s: Scope, r: Report, id: string, option: string) returns (k: nat)
    requires ChartMutationAllowed(s, id)
    ensures var charts := WriteChart(s, r, id, Some(option)).charts;
            && WriteChart(s, r, id, Some(option)) == r.(charts := charts, needsFinalize := true)
            && k < |charts| && charts[k] == Chart(id, option)
            && (forall j :: 0 <= j < |charts| && j != k ==> j < |r.charts| && charts[j] == r.charts[j])
            && (forall j :: 0 <= j < |r.charts| && (j < k || k == |r.charts|) ==> Trim(r.charts[j].id) != id)
            && (k < |r.charts| ==> |charts| == |r.charts| && Trim(r.charts[k].id) == id)
            && (Trim(id) != id ==> k == |r.charts|)
  {
    ChartIndexIsFirst(r.charts, id);
    var i := ChartIndex(r.charts, id);
    k := if i >= 0 then i else |r.charts|;
    if i >= 0 { TrimIdempotent(r.charts[i].id); }
  }

  /** A finalize call gets through: not finalized yet, no open goals, no report issues, no semantic issues. */
  ghost predicate Finalizes(r: Report, goalsDone: bool, semanticsClear: bool) {
    !DeliveryOf(r).FinalizedReport? && goalsDone && Ready(r) && semanticsClear
  }

  ghost function Finalize(r: Report, goalsDone: bool, semanticsClear: bool, title: string, author: string): Report {
    if Finalizes(r, goalsDone, semanticsClear) then r.(title := title, author := Trim(author), needsFinalize := false)
      else r
  }

  /**
   * A successful finalize call always reports the delivery state "finalized", but the title is not checked: the report
   * is finalized afterwards if and only if the title is not blank.
   */
  lemma FinalizedIffTitled(r: Report, goalsDone: bool, semanticsClear: bool, title: string, author: string)
    requires Finalizes(r, goalsDone, semanticsClear)
    ensures DeliveryOf(Finalize(r, goalsDone, semanticsClear, title, author))
         == if Blank(title) then Draft else FinalizedReport
  {
    assert r.blocks != [];
  }

  // ---------- delivery over whole runs ----------

  datatype Step =
    | BlockStep(scope: Scope, params: Params)
    | ChartStep(scope: Scope, id: string, option: Option<string>)
    | LayoutStep(action: string, css: string, bodyClass: string)
    | FinalizeStep(goalsDone: bool, semanticsClear: bool, title: string, author: string)
    | RollbackStep(oldTitle: Option<string>, oldAuthor: Option<string>)

  /** The report, and what it was at the last successful finalize. */
  datatype State = State(report: Report, delivered: Option<Report>)

  ghost function Take(u: Decoder, d: State, x: Step): State {
    var r := d.report;
    match x
    case BlockStep(s, p) => d.(report := WriteBlocks(u, s, r, p))
    case ChartStep(s, id, o) => d.(report := WriteChart(s, r, id, o))
    case LayoutStep(a, css, bc) => d.(report := WriteLayout(r, a, css, bc))
    case FinalizeStep(g, sem, t, a) =>
      if Finalizes(r, g, sem) then State(Finalize(r, g, sem, t, a), Some(Finalize(r, g, sem, t, a))) else d
    case RollbackStep(t, a) =>
      d.(report := r.(needsFinalize := true, title := if t.Some? then Trim(t.value) else r.title,
                      author := if a.Some? then Trim(a.value) else r.author))
  }

  /** Taking a finalize back gives the report its old title and author, as a draft. */
  lemma RollbackUndoes(u: Decoder, d: State, x: Step)
    requires x.FinalizeStep? && Finalizes(d.report, x.goalsDone, x.semanticsClear)
    requires Trim(d.report.title) == d.report.title && Trim(d.report.author) == d.report.author
    ensures var back := RollbackStep(Some(d.report.title), Some(d.report.author));
            Take(u, Take(u, d, x), back).report == d.report.(needsFinalize := true)
  {
  }

  /** Main result: only a finalize call with its goals done, its issues clear and a ready draft delivers a report. */
  lemma DeliversOnlyWhenDone(u: Decoder, d: State, x: Step)
    ensures Take(u, d, x).delivered != d.delivered ==>
              && x.FinalizeStep? && x.goalsDone && x.semanticsClear
              && Ready(d.report) && !DeliveryOf(d.report).FinalizedReport?
    ensures x.FinalizeStep? && x.goalsDone && x.semanticsClear && Ready(d.report)
              && !DeliveryOf(d.report).FinalizedReport? ==>
                Take(u, d, x).delivered
                == Some(d.report.(title := x.title, author := Trim(x.author), needsFinalize := false))
  {
  }

  /** So it is over every run: what is delivered at the end was delivered at the start, or by such a call. */
  lemma {:induction false} RunDelivers(u: Decoder, d: State, steps: seq<Step>) returns (i: nat)
    ensures TakeAll(u, d, steps).delivered != d.delivered ==>
              && i < |steps| && steps[i].FinalizeStep? && steps[i].goalsDone && steps[i].semanticsClear
              && Ready(TakeAll(u, d, steps[..i]).report)
    decreases |steps|
  {
    i := 0;
    if steps != [] {
      DeliversOnlyWhenDone(u, d, steps[0]);
      if Take(u, d, steps[0]).delivered != d.delivered {
        assert steps[..0] == [];
      } else {
        var k := RunDelivers(u, Take(u, d, steps[0]), steps[1..]);
        i := k + 1;
        if k < |steps[1..]| { assert steps[..i][0] == steps[0] && steps[..i][1..] == steps[1..][..k]; }
      }
    }
  }

  /** What "finalized" tells the reader. */
  ghost predicate Honest(d: State) {
    DeliveryOf(d.report).FinalizedReport? ==>
      && !Blank(d.report.title) && Ready(d.report) && d.delivered.Some?
      && d.report.blocks == d.delivered.value.blocks && d.report.charts == d.delivered.value.charts
      && d.report.layout == d.delivered.value.layout
  }

  /**
   * The one kind of step that breaks this: an upsert that drops its block from a finalized report that keeps other
   * content.
   */
  predicate Breaks(u: Decoder, d: State, x: Step) {
    && x.BlockStep? && DeliveryOf(d.report).FinalizedReport?
    && Loses(d.report.blocks, Decide(u, x.scope, d.report.blocks, x.params))
    && (|d.report.blocks| > 1 || d.report.charts != [])
  }

  lemma BlockStepKeeps(u: Decoder, d: State, x: Step)
    requires Honest(d) && x.BlockStep?
    ensures Honest(Take(u, d, x)) <==> !Breaks(u, d, x)
  {
    var c := Decide(u, x.scope, d.report.blocks, x.params);
    if !Exec(d.report.blocks, c).outcome.Done? { FailureChangesNothingOrDrops(d.report.blocks, c); }
    if Loses(d.report.blocks, c) {
      assert |RemoveAt(d.report.blocks, IndexOf(d.report.blocks, c.block.id))| == |d.report.blocks| - 1;
    }
  }

  /** Main result: every step keeps an honest state honest, and only such an upsert does not. */
  lemma StepKeepsHonest(u: Decoder, d: State, x: Step)
    requires Honest(d)
    ensures Honest(Take(u, d, x)) <==> !Breaks(u, d, x)
  {
    if x.BlockStep? { BlockStepKeeps(u, d, x); }
  }

  ghost function TakeAll(u: Decoder, d: State, steps: seq<Step>): State
    decreases |steps|
  {
    if steps == [] then d else TakeAll(u, Take(u, d, steps[0]), steps[1..])
  }

  ghost predicate NeverBreaks(u: Decoder, d: State, steps: seq<Step>)
    decreases |steps|
  {
    steps == [] || (!Breaks(u, d, steps[0]) && NeverBreaks(u, Take(u, d, steps[0]), steps[1..]))
  }

  lemma {:induction false} RunKeepsHonest(u: Decoder, d: State, steps: seq<Step>)
    requires Honest(d) && NeverBreaks(u, d, steps)
    ensures Honest(TakeAll(u, d, steps))
    decreases |steps|
  {
    if steps != [] {
      StepKeepsHonest(u, d, steps[0]);
      RunKeepsHonest(u, Take(u, d, steps[0]), steps[1..]);
    }
  }

  /** Main result: in every report reached from the empty one without such an upsert, "finalized" is honest. */
  lemma FinalizedIsHonest(u: Decoder, steps: seq<Step>)
    requires NeverBreaks(u, State(EMPTY, None), steps)
    ensures Honest(TakeAll(u, State(EMPTY, None), steps))
  {
    RunKeepsHonest(u, State(EMPTY, None), steps);
  }

  /** The break is real: a finalized report of two blocks loses one to an unknown anchor and still says "finalized". */
  lemma LostBlockStillFinalized(u: Decoder, s: Scope, a: Block, b: Block, r: Report)
    requires Blank(s.mode) && a.id == "a" && b.id == "b" && r.blocks == [a, b] && DeliveryOf(r).FinalizedReport?
    ensures var p := Params("upsert", "a", "markdown", "", "x", "", "z", "", []);
            var r' := WriteBlocks(u, s, r, p);
            r'.blocks == [b] && DeliveryOf(r').FinalizedReport?
  {
    var p := Params("upsert", "a", "markdown", "", "x", "", "z", "", []);
    assert Trim("upsert") == "upsert" && Trim("a") == "a" && Trim("x") == "x" && Trim("z") == "z" by { Words(); }
    assert Trim("markdown") == "markdown" by { Words(); }
    assert Cleaned(p) == p;
    assert IndexOf(r.blocks, "a") == 0;
    var w := Written(r.blocks, p).value;
    assert w.id == "a";
    assert Decide(u, s, r.blocks, p) == Put(w, "z", "");
    assert RemoveAt(r.blocks, 0) == [b];
    assert [b][1..] == [];
    assert IndexOf([b], "z") == -1;
  }

  lemma Words()
    ensures Trim("upsert") == "upsert" && Trim("a") == "a" && Trim("x") == "x" && Trim("z") == "z"
            && Trim("markdown") == "markdown"
  {
  }

  // ---------- the mutable report ----------

  method FindReportBlockIndex(blocks: seq<Block>, id: string) returns (r: int)
    ensures r == IndexOf(blocks, id)
  {
    assert blocks[0..] == blocks;
    for i := 0 to |blocks|
      invariant IndexOf(blocks, id) == if IndexOf(blocks[i..], id) < 0 then -1 else i + IndexOf(blocks[i..], id)
      invariant forall k :: 0 <= k < i ==> blocks[k].id != id
    {
      assert blocks[i..][1..] == blocks[i + 1..];
      if blocks[i].id == id { return i; }
    }
    return -1;
  }

  method ResolveInsertIndex(blocks: seq<Block>, before: string, after: string) returns (r: Option<nat>)
    ensures r == InsertIndex(blocks, before, after)
  {
    if before != "" && after != "" { return None; }
    if before != "" {
      var i := FindReportBlockIndex(blocks, before);
      if i < 0 { return None; }
      return Some(i);
    }
    if after != "" {
      var i := FindReportBlockIndex(blocks, after);
      if i < 0 { return None; }
      return Some(i + 1);
    }
    return Some(|blocks|);
  }

  method FindChartIndex(charts: seq<Chart>, id: string) returns (r: int)
    ensures r == ChartIndex(charts, id)
  {
    assert charts[0..] == charts;
    for i := 0 to |charts|
      invariant ChartIndex(charts, id) == if ChartIndex(charts[i..], id) < 0 then -1
                else i + ChartIndex(charts[i..], id)
    {
      assert charts[i..][1..] == charts[i + 1..];
      if Trim(charts[i].id) == id { return i; }
    }
    return -1;
  }

  lemma PutInPlace(blocks: seq<Block>, b: Block)
    requires IndexOf(blocks, b.id) >= 0
    ensures IndexOf(blocks, b.id) <= |Without(blocks, b.id)|
    ensures Exec(blocks, Put(b, "", "")) == Result(InsertAt(Without(blocks, b.id), b, IndexOf(blocks, b.id)), true,
            Done)
  {
  }

  lemma PutAnchored(blocks: seq<Block>, b: Block, before: string, after: string)
    requires !(before == "" && after == "" && IndexOf(blocks, b.id) >= 0)
    ensures Exec(blocks, Put(b, before, after))
         == match InsertIndex(Without(blocks, b.id), before, after)
            case None => Result(Without(blocks, b.id), false, BadAnchor)
            case Some(n) => Result(InsertAt(Without(blocks, b.id), b, n), true, Done)
  {
  }

  class ReportState {
    var blocks: seq<Block>
    var charts: seq<Chart>
    var title: string
    var author: string
    var layout: Layout
    var needsFinalize: bool

    constructor ()
      ensures Value() == EMPTY
    {
      blocks, charts, title, author, layout, needsFinalize := [], [], "", "", Layout("", ""), false;
    }

    ghost function Value(): Report
      reads this
    {
      Report(blocks, charts, title, author, layout, needsFinalize)
    }

    method ApplyBlockMutation(u: Decoder, s: Scope, p: Params) returns (outcome: Outcome)
      modifies this
      ensures Value() == WriteBlocks(u, s, old(Value()), p)
      ensures outcome == Apply(u, s, old(blocks), p).outcome
    {
      var c := Decide(u, s, blocks, p);
      match c
      case Refuse(o) => outcome := o;
      case Put(b, before, after) => outcome := UpsertBlock(b, before, after);
      case Drop(id) => outcome := RemoveBlock(id);
      case Shift(id, before, after) => outcome := MoveBlock(id, before, after);
    }

    /** upsertReportBlock after its checks. */
    method UpsertBlock(b: Block, before: string, after: string) returns (outcome: Outcome)
      modifies this`blocks, this`needsFinalize
      ensures var x := Exec(old(blocks), Put(b, before, after));
              blocks == x.blocks && outcome == x.outcome && needsFinalize == (old(needsFinalize) || x.changed)
    {
      var all := blocks;
      var existing := FindReportBlockIndex(all, b.id);
      var rest := all;
      if existing >= 0 {
        rest := all[..existing] + all[existing + 1..];
        blocks := rest;
      }
      var at;
      if before == "" && after == "" && existing >= 0 {
        PutInPlace(all, b);
        at := existing;
      } else {
        PutAnchored(all, b, before, after);
        var n := ResolveInsertIndex(rest, before, after);
        if n.None? { return BadAnchor; }
        at := n.value;
      }
      blocks := rest[..at] + [b] + rest[at..];
      needsFinalize := true;
      return Done;
    }

    method RemoveBlock(id: string) returns (outcome: Outcome)
      modifies this`blocks, this`needsFinalize
      ensures var x := Exec(old(blocks), Drop(id));
              blocks == x.blocks && outcome == x.outcome && needsFinalize == (old(needsFinalize) || x.changed)
    {
      var i := FindReportBlockIndex(blocks, id);
      if i < 0 { return NotFound; }
      blocks := blocks[..i] + blocks[i + 1..];
      needsFinalize := true;
      return Done;
    }

    method MoveBlock(id: string, before: string, after: string) returns (outcome: Outcome)
      modifies this`blocks, this`needsFinalize
      ensures var x := Exec(old(blocks), Shift(id, before, after));
              blocks == x.blocks && outcome == x.outcome && needsFinalize == (old(needsFinalize) || x.changed)
    {
      var i := FindReportBlockIndex(blocks, id);
      if i < 0 { return NotFound; }
      var rest := blocks[..i] + blocks[i + 1..];
      var n := ResolveInsertIndex(rest, before, after);
      if n.None? { return BadAnchor; }
      blocks := rest[..n.value] + [blocks[i]] + rest[n.value..];
      needsFinalize := true;
      return Done;
    }

    method ApplyChartMutation(s: Scope, id: string, option: Option<string>) returns (ok: bool)
      modifies this
      ensures Value() == WriteChart(s, old(Value()), id, option)
      ensures ok <==> option.Some? && (Active(s) && s.preserve ==> Trim(id) in s.allowedCharts)
      ensures !ok ==> Value() == old(Value())
    {
      if option.None? { return false; }
      if !ChartMutationAllowed(s, id) { return false; }
      var i := FindChartIndex(charts, id);
      charts := if i >= 0 then charts[i := Chart(id, option.value)] else charts + [Chart(id, option.value)];
      needsFinalize := true;
      return true;
    }

    method ConfigureLayout(action: string, css: string, bodyClass: string)
      modifies this`layout, this`needsFinalize
      ensures Value() == WriteLayout(old(Value()), action, css, bodyClass)
      ensures blocks == old(blocks) && charts == old(charts) && title == old(title) && author == old(author)
      ensures Trim(action) == "reset" ==> layout == Layout("", "") && needsFinalize
      ensures (Blank(action) || Trim(action) == "merge") && Bytes(css) <= 10240 ==>
                && needsFinalize && layout.customCss == (if css == "" then old(layout.customCss) else css)
                && layout.bodyClass == if bodyClass == "" then old(layout.bodyClass) else Trim(bodyClass)
      ensures (!Blank(action) && Trim(action) !in {"reset", "merge"}) || (Trim(action) != "reset" && Bytes(css) > 10240)
              ==> Value() == old(Value())
    {
      var a := if Blank(action) then "merge" else Trim(action);
      if a == "reset" {
        layout := Layout("", "");
        needsFinalize := true;
      } else if a == "merge" {
        if css != "" {
          if Bytes(css) > MAX_CUSTOM_CSS { return; }
          layout := layout.(customCss := css);
        }
        if bodyClass != "" { layout := layout.(bodyClass := Trim(bodyClass)); }
        needsFinalize := true;
      }
    }

    /** finalizeReportState; whether the goals are done comes from the goal forest. */
    method FinalizeReport(goalsDone: bool, semanticsClear: bool, reportTitle: string, reportAuthor: string)
      returns (ok: bool)
      modifies this`title, this`author, this`needsFinalize
      ensures ok <==> Finalizes(old(Value()), goalsDone, semanticsClear)
      ensures Value() == Finalize(old(Value()), goalsDone, semanticsClear, reportTitle, reportAuthor)
      ensures ok <==> goalsDone && semanticsClear && Ready(old(Value())) && !DeliveryOf(old(Value())).FinalizedReport?
      ensures Value()
           == if ok then old(Value()).(title := reportTitle, author := Trim(reportAuthor), needsFinalize := false)
              else old(Value())
    {
      if !(blocks == [] && charts == []) && !needsFinalize && !Blank(title) { return false; }
      if !goalsDone { return false; }
      var issues := ReportFinalizeIssues(Report(blocks, charts, title, author, layout, needsFinalize));
      if issues != {} { return false; }
      if !semanticsClear { return false; }
      title, author, needsFinalize := reportTitle, Trim(reportAuthor), false;
      return true;
    }
  }

  /** The charts an edit scope opens: the target chart and those of the target block. */
  function EditableCharts(s: Scope, blocks: seq<Block>): set<string> {
    var direct := if Blank(s.targetChart) then {} else {Trim(s.targetChart)};
    var i := if Blank(s.blockId) then -1 else IndexOf(blocks, Trim(s.blockId));
    if i < 0 then direct
    else direct + (if Blank(blocks[i].chartId) then {} else {Trim(blocks[i].chartId)}) + ChartRefs(blocks[i].content, 0)
  }

  /** A chart is open to edits exactly if it is the target, the target block's chart, or referred to in its content. */
  lemma EditableIff(s: Scope, blocks: seq<Block>, c: string)
    ensures c in EditableCharts(s, blocks) <==>
            || (c == Trim(s.targetChart) && c != "")
            || exists i, k: nat ::
                 && 0 <= i < |blocks| && blocks[i].id == Trim(s.blockId) != ""
                 && (forall j :: 0 <= j < i ==> blocks[j].id != blocks[i].id)
                 && (ChartRefAt(blocks[i].content, k, c) || (c == Trim(blocks[i].chartId) && c != ""))
  {
    var i := IndexOf(blocks, Trim(s.blockId));
    if i >= 0 {
      ChartRefsFindsAll(blocks[i].content, c);
      if c == Trim(blocks[i].chartId) { assert ChartRefAt(blocks[i].content, 0, c) || c == Trim(blocks[i].chartId); }
    }
  }

  class ReportEditState {
    var scope: Scope

    constructor (s: Scope)
      ensures scope == s
    {
      scope := s;
    }

    method RefreshFromReportState(r: ReportState)
      modifies this
      ensures scope == Refreshed(old(scope), r.blocks, EditableCharts(old(scope), r.blocks))
    {
      var i := -1;
      if !Blank(scope.blockId) { i := FindReportBlockIndex(r.blocks, Trim(scope.blockId)); }
      scope := scope.(allowedCharts := EditableCharts(scope, r.blocks), content := "", kind := "", title := "",
        chartId := "", sources := []);
      if i >= 0 {
        var b := r.blocks[i];
        scope := scope.(content := b.content, kind := b.kind, title := b.title, chartId := b.chartId,
          sources := b.sources);
      }
    }
  }
}
