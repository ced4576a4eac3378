/**
 * The goal forest of server/agent/memory.go and the depth-first search that decides whether a report may be finalized.
 */
module Goals {
  import opened Text

  datatype Status = Pending | Running | Complete | Rejected {
    predicate Terminal() { this == Complete || this == Rejected }
  }

  datatype Goal = Goal(id: string, parent: string, description: string, status: Status, blocking: bool, result: string)

  const MAX_GOALS := 30
  const MAX_DESCRIPTION := 500

  // ---------- the forest behind the parent strings ----------

  predicate DistinctIds(goals: seq<Goal>) {
    forall i, j :: 0 <= i < j < |goals| ==> goals[i].id != goals[j].id
  }

  /** Goals that share an id hang below one parent. */
  predicate OneParent(goals: seq<Goal>) {
    forall i, j :: 0 <= i < j < |goals| && goals[i].id == goals[j].id ==> Trim(goals[i].parent) == Trim(goals[j].parent)
  }

  predicate Known(goals: seq<Goal>, id: string) {
    exists i :: 0 <= i < |goals| && goals[i].id == id
  }

  /** A goal whose parent is blank or unknown. */
  predicate IsRoot(goals: seq<Goal>, g: Goal) {
    Trim(g.parent) == "" || !Known(goals, Trim(g.parent))
  }

  /** A goal is a root exactly when it hangs below no goal of the list. */
  lemma RootIffNoParent(goals: seq<Goal>, g: Goal)
    ensures IsRoot(goals, g) <==> !exists p :: p in goals && IsChild(goals, p, g)
  {
    if !IsRoot(goals, g) {
      var i :| 0 <= i < |goals| && goals[i].id == Trim(g.parent);
      assert goals[i] in goals && IsChild(goals, goals[i], g);
    }
  }

  predicate IsChild(goals: seq<Goal>, parent: Goal, g: Goal) {
    !IsRoot(goals, g) && Trim(g.parent) == parent.id
  }

  /** The selections the code makes from a list of goals. */
  datatype Test = RootOf(all: seq<Goal>) | ChildOf(all: seq<Goal>, id: string) | LiveGoal | LiveBlocker {
    predicate Holds(g: Goal) {
      match this
      case RootOf(all) => IsRoot(all, g)
      case ChildOf(all, id) => !IsRoot(all, g) && Trim(g.parent) == id
      case LiveGoal => !g.status.Terminal()
      case LiveBlocker => !g.status.Terminal() && g.blocking
    }
  }

  function Filter(s: seq<Goal>, t: Test): (r: seq<Goal>)
    ensures forall x :: x in r <==> x in s && t.Holds(x)
  {
    if s == [] then [] else
      var n := |s| - 1;
      assert s == s[..n] + [s[n]];
      Filter(s[..n], t) + if t.Holds(s[n]) then [s[n]] else []
  }

  function Roots(goals: seq<Goal>): seq<Goal> {
    Filter(goals, RootOf(goals))
  }

  function ChildrenOf(goals: seq<Goal>, id: string): seq<Goal> {
    Filter(goals, ChildOf(goals, id))
  }

  /** Where the search goes from a path: blocking roots from nowhere, children from the last goal. */
  function Kids(goals: seq<Goal>, path: seq<Goal>): seq<Goal> {
    if path == [] then Filter(Roots(goals), LiveBlocker) else Filter(ChildrenOf(goals, path[|path| - 1].id), LiveGoal)
  }

  /** A walk down the forest: a root first, then each goal a child of the one before. */
  predicate Chain(goals: seq<Goal>, path: seq<Goal>) {
    && (forall i :: 0 <= i < |path| ==> path[i] in goals)
    && (path != [] ==> IsRoot(goals, path[0]))
    && (forall i :: 0 < i < |path| ==> IsChild(goals, path[i - 1], path[i]))
  }

  lemma ChainPrefix(goals: seq<Goal>, path: seq<Goal>, n: nat)
    requires Chain(goals, path) && n <= |path|
    ensures Chain(goals, path[..n])
  {
  }

  /** Parent pointers may be cyclic, but while an id has one parent no walk from a root meets an id twice. */
  lemma {:induction false} ChainNeverRepeats(goals: seq<Goal>, path: seq<Goal>)
    requires OneParent(goals) && Chain(goals, path)
    ensures DistinctIds(path)
  {
    if path != [] {
      var last := |path| - 1;
      ChainPrefix(goals, path, last);
      ChainNeverRepeats(goals, path[..last]);
      forall j | 0 <= j < last ensures path[j].id != path[last].id {
        if path[j].id == path[last].id { StepsDiffer(goals, path, j); }
        assert j > 0 ==> path[..last][j - 1].id != path[..last][last - 1].id;
      }
    }
  }

  /** Two steps with one id come from one parent, and a root has none. */
  lemma StepsDiffer(goals: seq<Goal>, path: seq<Goal>, j: nat)
    requires OneParent(goals) && Chain(goals, path) && j < |path| - 1 && path[j].id == path[|path| - 1].id
    ensures j > 0 && path[j - 1].id == path[|path| - 2].id
  {
    var last := |path| - 1;
    var m :| 0 <= m < |goals| && goals[m] == path[j];
    var n :| 0 <= n < |goals| && goals[n] == path[last];
    assert Trim(goals[m].parent) == Trim(goals[n].parent);
    assert IsChild(goals, path[last - 1], path[last]);
    assert j > 0 ==> IsChild(goals, path[j - 1], path[j]);
  }

  function IdSet(s: seq<Goal>): set<string> {
    set i | 0 <= i < |s| :: s[i].id
  }

  lemma {:induction false} IdSetSize(s: seq<Goal>)
    ensures |IdSet(s)| <= |s|
    ensures DistinctIds(s) ==> |IdSet(s)| == |s|
  {
    if s != [] {
      var n := |s| - 1;
      var front := IdSet(s[..n]);
      IdSetSize(s[..n]);
      assert IdSet(s) == front + {s[n].id} by {
        forall x | x in IdSet(s) ensures x in front + {s[n].id} {
          var i :| 0 <= i < |s| && s[i].id == x;
          if i < n { assert s[..n][i].id == x; }
        }
        forall x | x in front ensures x in IdSet(s) {
          var i :| 0 <= i < n && s[..n][i].id == x;
          assert s[i].id == x;
        }
      }
    }
  }

  lemma SubsetSize<T>(a: set<T>, b: set<T>)
    requires a <= b
    ensures |a| <= |b|
  {
    assert b == a + (b - a);
  }

  lemma DistinctIsShort(goals: seq<Goal>, path: seq<Goal>)
    requires DistinctIds(path) && forall i :: 0 <= i < |path| ==> path[i] in goals
    ensures |path| <= |goals|
  {
    IdSetSize(path);
    IdSetSize(goals);
    forall x | x in IdSet(path) ensures x in IdSet(goals) {
      var i :| 0 <= i < |path| && path[i].id == x;
      var j :| 0 <= j < |goals| && goals[j] == path[i];
      assert goals[j].id == x;
    }
    SubsetSize(IdSet(path), IdSet(goals));
  }

  /** A goal is reached by one walk only. */
  lemma {:induction false} ChainIsUnique(goals: seq<Goal>, p: seq<Goal>, q: seq<Goal>)
    requires DistinctIds(goals) && Chain(goals, p) && Chain(goals, q)
    requires p != [] && q != [] && p[|p| - 1] == q[|q| - 1]
    ensures p == q
    decreases |p|
  {
    if |p| == 1 || |q| == 1 {
      assert |p| > 1 ==> IsChild(goals, p[|p| - 2], p[|p| - 1]);
      assert |q| > 1 ==> IsChild(goals, q[|q| - 2], q[|q| - 1]);
    } else {
      var p', q' := p[..|p| - 1], q[..|q| - 1];
      assert IsChild(goals, p[|p| - 2], p[|p| - 1]) && IsChild(goals, q[|q| - 2], q[|q| - 1]);
      ChainPrefix(goals, p, |p| - 1);
      ChainPrefix(goals, q, |q| - 1);
      ChainIsUnique(goals, p', q');
      assert p == p' + [p[|p| - 1]] && q == q' + [q[|q| - 1]];
    }
  }

  // ---------- which lists the search gets through ----------

  /** A path of live goals that starts at a blocking root. */
  predicate Open(goals: seq<Goal>, p: seq<Goal>) {
    p != [] && Chain(goals, p) && p[0].blocking && forall i :: 0 <= i < |p| ==> !p[i].status.Terminal()
  }

  /** Where the search may stand: before the roots, or on an open path. */
  predicate Walk(goals: seq<Goal>, p: seq<Goal>) {
    p == [] || Open(goals, p)
  }

  /** No open path meets an id twice. */
  ghost predicate Settles(goals: seq<Goal>) {
    forall p :: Open(goals, p) ==> DistinctIds(p)
  }

  ghost predicate WalksWithin(goals: seq<Goal>, n: nat) {
    forall p :: Open(goals, p) ==> |p| <= n
  }

  /** The search is no deeper than there are goals. */
  lemma WalkIsShort(goals: seq<Goal>, path: seq<Goal>)
    requires Settles(goals) && Open(goals, path)
    ensures |path| <= |goals|
  {
    DistinctIsShort(goals, path);
  }

  /** Cyclic parents are harmless: the search gets through every list in which an id has one parent. */
  lemma OneParentSettles(goals: seq<Goal>)
    requires OneParent(goals)
    ensures Settles(goals)
  {
    forall p | Open(goals, p) ensures DistinctIds(p) { ChainNeverRepeats(goals, p); }
  }

  /** A walk may go round a segment between two goals of one id once more. */
  lemma Pump(goals: seq<Goal>, p: seq<Goal>, i: nat, j: nat, q: seq<Goal>)
    requires Open(goals, p) && i < j < |p| && p[i].id == p[j].id
    requires Open(goals, q) && q[|q| - 1].id == p[i].id
    ensures var r := q + p[i + 1..j + 1];
            Open(goals, r) && |r| > |q| && r[|r| - 1].id == p[i].id
  {
    var r := q + p[i + 1..j + 1];
    var back := i + 1 - |q|;
    assert forall k :: |q| <= k < |r| ==> r[k] == p[k + back];
    forall k | 0 < k < |r| ensures IsChild(goals, r[k - 1], r[k]) {
      if k < |q| {
        assert IsChild(goals, q[k - 1], q[k]);
      } else {
        assert IsChild(goals, p[k + back - 1], p[k + back]);
        assert k == |q| ==> r[k - 1] == q[k - 1];
      }
    }
  }

  /** A repeated id gives open paths of every length. */
  lemma {:induction false} RepeatGoesOn(goals: seq<Goal>, p: seq<Goal>, i: nat, j: nat, n: nat) returns (q: seq<Goal>)
    requires Open(goals, p) && i < j < |p| && p[i].id == p[j].id
    ensures Open(goals, q) && |q| > n && q[|q| - 1].id == p[i].id
  {
    if n == 0 {
      q := p[..j + 1];
      ChainPrefix(goals, p, j + 1);
    } else {
      q := RepeatGoesOn(goals, p, i, j, n - 1);
      Pump(goals, p, i, j, q);
      q := q + p[i + 1..j + 1];
    }
  }

  /**
   * Main result: the open paths are bounded exactly when none of them meets an id twice, and then by the number of
   * goals, so it suffices to look at the finitely many walks one goal longer than that.
   */
  lemma SearchEndsIffSettles(goals: seq<Goal>)
    ensures (exists n: nat :: WalksWithin(goals, n)) <==> Settles(goals)
    ensures WalksWithin(goals, |goals|) <==> Settles(goals)
  {
    if Settles(goals) {
      forall p | Open(goals, p) ensures |p| <= |goals| { WalkIsShort(goals, p); }
      assert WalksWithin(goals, |goals|);
    } else {
      var p: seq<Goal> :| Open(goals, p) && !DistinctIds(p);
      var i, j :| 0 <= i < j < |p| && p[i].id == p[j].id;
      forall n: nat ensures !WalksWithin(goals, n) {
        var q := RepeatGoesOn(goals, p, i, j, n);
      }
    }
  }

  lemma WalkExtends(goals: seq<Goal>, path: seq<Goal>, k: Goal)
    requires Walk(goals, path) && k in Kids(goals, path)
    ensures Open(goals, path + [k])
  {
    if path != [] {
      assert k in ChildrenOf(goals, path[|path| - 1].id);
      ChainSnoc(goals, path, k);
    } else {
      assert k in Roots(goals);
    }
  }

  lemma ChainSnoc(goals: seq<Goal>, path: seq<Goal>, k: Goal)
    requires Chain(goals, path) && path != [] && k in goals && IsChild(goals, path[|path| - 1], k)
    ensures Chain(goals, path + [k])
  {
    var p := path + [k];
    forall i | 0 < i < |p| ensures IsChild(goals, p[i - 1], p[i]) {
      if i < |path| { assert IsChild(goals, path[i - 1], path[i]); }
    }
  }

  // ---------- specification of the search ----------

  /** The paths the search stands on below `path`, in visiting order. */
  function Visits(goals: seq<Goal>, path: seq<Goal>): seq<seq<Goal>>
    requires Settles(goals) && Open(goals, path)
    decreases |goals| - |path|, 1, 0
  {
    [path] + VisitsOver(goals, path, Kids(goals, path))
  }

  function VisitsOver(goals: seq<Goal>, path: seq<Goal>, kids: seq<Goal>): seq<seq<Goal>>
    requires Settles(goals) && Walk(goals, path) && (forall k :: k in kids ==> k in Kids(goals, path))
    decreases |goals| - |path|, 0, |kids|
  {
    if kids == [] then [] else
      WalkExtends(goals, path, kids[0]);
      WalkIsShort(goals, path + [kids[0]]);
      Visits(goals, path + [kids[0]]) + VisitsOver(goals, path, kids[1..])
  }

  function AllVisits(goals: seq<Goal>): seq<seq<Goal>>
    requires Settles(goals)
  {
    VisitsOver(goals, [], Kids(goals, []))
  }

  lemma KidsAreNext(goals: seq<Goal>, path: seq<Goal>, p: seq<Goal>)
    requires Open(goals, p) && path < p
    ensures p[|path|] in Kids(goals, path)
  {
    if path != [] {
      assert IsChild(goals, p[|path| - 1], p[|path|]);
      assert p[|path|] in ChildrenOf(goals, path[|path| - 1].id);
    } else {
      assert p[0] in Roots(goals);
    }
  }

  /** The search stands on a path exactly when it is an open path that continues the starting path. */
  lemma {:induction false} VisitsAreOpen(goals: seq<Goal>, path: seq<Goal>, p: seq<Goal>)
    requires Settles(goals) && Open(goals, path)
    ensures p in Visits(goals, path) <==> Open(goals, p) && path <= p
    decreases |goals| - |path|, 1, 0
  {
    var rest := VisitsOver(goals, path, Kids(goals, path));
    VisitsOverAreOpen(goals, path, Kids(goals, path), p);
    assert p in Visits(goals, path) <==> p == path || p in rest;
    if Open(goals, p) && path < p { KidsAreNext(goals, path, p); }
  }

  lemma {:induction false} VisitsOverAreOpen(goals: seq<Goal>, path: seq<Goal>, kids: seq<Goal>, p: seq<Goal>)
    requires Settles(goals) && Walk(goals, path) && (forall k :: k in kids ==> k in Kids(goals, path))
    ensures p in VisitsOver(goals, path, kids) <==> Open(goals, p) && path < p && p[|path|] in kids
    decreases |goals| - |path|, 0, |kids|
  {
    if kids != [] {
      var next := path + [kids[0]];
      WalkExtends(goals, path, kids[0]);
      WalkIsShort(goals, next);
      VisitsAreOpen(goals, next, p);
      VisitsOverAreOpen(goals, path, kids[1..], p);
      ThroughKid(path, kids[0], p);
      assert path < p ==> (p[|path|] in kids <==> p[|path|] == kids[0] || p[|path|] in kids[1..]);
    }
  }

  lemma ThroughKid(path: seq<Goal>, k: Goal, p: seq<Goal>)
    ensures path + [k] <= p <==> path < p && p[|path|] == k
  {
    var next := path + [k];
    if next <= p { assert p[|path|] == next[|path|] && p[..|path|] == next[..|path|]; }
    if path < p && p[|path|] == k { assert p[..|path| + 1] == next; }
  }

  /** Main result: the search visits exactly the open paths. */
  lemma SearchVisitsOpenPaths(goals: seq<Goal>, p: seq<Goal>)
    requires Settles(goals)
    ensures p in AllVisits(goals) <==> Open(goals, p)
  {
    VisitsOverAreOpen(goals, [], Kids(goals, []), p);
    if Open(goals, p) { KidsAreNext(goals, [], p); }
  }

  predicate NoRepeats<T(==)>(s: seq<T>) {
    forall i, j :: 0 <= i < j < |s| ==> s[i] != s[j]
  }

  lemma NoRepeatsAppend<T>(a: seq<T>, b: seq<T>)
    requires NoRepeats(a) && NoRepeats(b) && (forall x :: x in a ==> x !in b)
    ensures NoRepeats(a + b)
  {
    forall i, j | 0 <= i < j < |a + b| ensures (a + b)[i] != (a + b)[j] {
      if i < |a| <= j { assert a[i] in a && b[j - |a|] in b; }
    }
  }

  lemma {:induction false} FilterNoRepeats(s: seq<Goal>, t: Test)
    requires NoRepeats(s)
    ensures NoRepeats(Filter(s, t))
  {
    if s != [] {
      var n := |s| - 1;
      FilterNoRepeats(s[..n], t);
      assert s[n] !in s[..n];
      NoRepeatsAppend(Filter(s[..n], t), if t.Holds(s[n]) then [s[n]] else []);
    }
  }

  lemma KidsNoRepeats(goals: seq<Goal>, path: seq<Goal>)
    requires DistinctIds(goals)
    ensures NoRepeats(Kids(goals, path))
  {
    if path == [] {
      FilterNoRepeats(goals, RootOf(goals));
      FilterNoRepeats(Roots(goals), LiveBlocker);
    } else {
      FilterNoRepeats(goals, ChildOf(goals, path[|path| - 1].id));
      FilterNoRepeats(ChildrenOf(goals, path[|path| - 1].id), LiveGoal);
    }
  }

  lemma DistinctSettles(goals: seq<Goal>)
    requires DistinctIds(goals)
    ensures Settles(goals)
  {
    OneParentSettles(goals);
  }

  lemma {:induction false} VisitsNoRepeats(goals: seq<Goal>, path: seq<Goal>)
    requires DistinctIds(goals) && Settles(goals) && Open(goals, path)
    ensures NoRepeats(Visits(goals, path))
    decreases |goals| - |path|, 1, 0
  {
    var rest := VisitsOver(goals, path, Kids(goals, path));
    KidsNoRepeats(goals, path);
    VisitsOverNoRepeats(goals, path, Kids(goals, path));
    VisitsOverAreOpen(goals, path, Kids(goals, path), path);
    NoRepeatsAppend([path], rest);
  }

  lemma {:induction false} VisitsOverNoRepeats(goals: seq<Goal>, path: seq<Goal>, kids: seq<Goal>)
    requires DistinctIds(goals) && Settles(goals) && Walk(goals, path)
             && (forall k :: k in kids ==> k in Kids(goals, path))
    requires NoRepeats(kids)
    ensures NoRepeats(VisitsOver(goals, path, kids))
    decreases |goals| - |path|, 0, |kids|
  {
    if kids != [] {
      var next := path + [kids[0]];
      WalkExtends(goals, path, kids[0]);
      WalkIsShort(goals, next);
      VisitsNoRepeats(goals, next);
      assert NoRepeats(kids[1..]);
      VisitsOverNoRepeats(goals, path, kids[1..]);
      forall p | p in Visits(goals, next) ensures p !in VisitsOver(goals, path, kids[1..]) {
        VisitsAreOpen(goals, next, p);
        VisitsOverAreOpen(goals, path, kids[1..], p);
        assert p[|path|] == next[|path|];
      }
      NoRepeatsAppend(Visits(goals, next), VisitsOver(goals, path, kids[1..]));
    }
  }

  function Last(p: seq<Goal>): Goal
    requires p != []
  {
    p[|p| - 1]
  }

  lemma AllVisitsDiffer(goals: seq<Goal>, i: nat, j: nat)
    requires DistinctIds(goals) && Settles(goals) && i < j < |AllVisits(goals)|
    ensures AllVisits(goals)[i] != AllVisits(goals)[j]
  {
    KidsNoRepeats(goals, []);
    VisitsOverNoRepeats(goals, [], Kids(goals, []));
  }

  lemma DifferentPathsDifferentGoals(goals: seq<Goal>, p: seq<Goal>, q: seq<Goal>)
    requires DistinctIds(goals) && Open(goals, p) && Open(goals, q) && p != q
    ensures Last(p) != Last(q)
  {
    if Last(p) == Last(q) { ChainIsUnique(goals, p, q); }
  }

  /** Main result: with distinct ids the search ends and meets every goal at most once, whatever the parent pointers. */
  lemma EachGoalVisitedOnce(goals: seq<Goal>, i: nat, j: nat)
    requires DistinctIds(goals)
    ensures Settles(goals)
    ensures var v := AllVisits(goals);
            i < j < |v| ==> v[i] != [] && v[j] != [] && Last(v[i]) != Last(v[j])
  {
    DistinctSettles(goals);
    var v := AllVisits(goals);
    if i < j < |v| {
      AllVisitsDiffer(goals, i, j);
      SearchVisitsOpenPaths(goals, v[i]);
      SearchVisitsOpenPaths(goals, v[j]);
      DifferentPathsDifferentGoals(goals, v[i], v[j]);
    }
  }

  /** A path that blocks: its last goal has no live child. */
  predicate Leaf(goals: seq<Goal>, p: seq<Goal>) {
    p != [] && Kids(goals, p) == []
  }

  function Step(g: Goal): string {
    g.description + "["
    + (match g.status
       case Pending => "pending"
       case Running => "running"
       case Complete => "complete"
       case Rejected => "rejected")
    + "]"
  }

  /** strings.Join(path, " -> ") over the steps. */
  function Render(path: seq<Goal>): string {
    if path == [] then "" else if |path| == 1 then Step(path[0]) else Step(path[0]) + " -> " + Render(path[1..])
  }

  /** One line for each visited path that blocks. */
  function BranchLines(goals: seq<Goal>, visits: seq<seq<Goal>>): seq<string> {
    if visits == [] then [] else
      (if Leaf(goals, visits[0]) then [Render(visits[0])] else []) + BranchLines(goals, visits[1..])
  }

  lemma {:induction false} BranchLinesEmpty(goals: seq<Goal>, visits: seq<seq<Goal>>)
    ensures BranchLines(goals, visits) == [] <==> forall p :: p in visits ==> !Leaf(goals, p)
  {
    if visits != [] { BranchLinesEmpty(goals, visits[1..]); }
  }

  /** A line joins the lines of the two parts of a path with an arrow. */
  lemma {:induction false} RenderJoins(p: seq<Goal>, q: seq<Goal>)
    requires p != [] && q != []
    ensures Render(p + q) == Render(p) + " -> " + Render(q)
  {
    if |p| == 1 {
      assert (p + q)[1..] == q && p[1..] == [];
    } else {
      assert (p + q)[1..] == p[1..] + q;
      RenderJoins(p[1..], q);
      Assoc(Step(p[0]) + " -> ", Render(p[1..]) + " -> ", Render(q));
      Assoc(Step(p[0]) + " -> ", Render(p[1..]), " -> ");
    }
  }

  lemma LineIsFrom(goals: seq<Goal>, visits: seq<seq<Goal>>, line: string)
    ensures line in BranchLines(goals, visits) <==> exists p :: p in visits && Leaf(goals, p) && Render(p) == line
  {
    if visits != [] {
      LineIsFrom(goals, visits[1..], line);
      assert forall p :: p in visits <==> p == visits[0] || p in visits[1..];
    }
  }

  /**
   * Main result: the blocking lines are those of the live chains from a blocking root to a goal without a live child.
   */
  lemma BlockersAreLiveChains(goals: seq<Goal>, line: string)
    requires Settles(goals)
    ensures line in BranchLines(goals, AllVisits(goals)) <==>
              exists p :: Open(goals, p) && Render(p) == line
                && forall g :: g in goals && IsChild(goals, p[|p| - 1], g) ==> g.status.Terminal()
  {
    LineIsFrom(goals, AllVisits(goals), line);
    forall p ensures p in AllVisits(goals) && Leaf(goals, p) <==>
        Open(goals, p) && forall g :: g in goals && IsChild(goals, p[|p| - 1], g) ==> g.status.Terminal()
    {
      SearchVisitsOpenPaths(goals, p);
      if Open(goals, p) { LeafIff(goals, p); }
    }
  }

  lemma LeafIff(goals: seq<Goal>, p: seq<Goal>)
    requires p != []
    ensures Leaf(goals, p) <==> forall g :: g in goals && IsChild(goals, p[|p| - 1], g) ==> g.status.Terminal()
  {
    var kids := Kids(goals, p);
    if kids != [] { assert kids[0] in kids; }
    assert forall g :: g in kids <==> g in goals && IsChild(goals, p[|p| - 1], g) && !g.status.Terminal();
  }

  /** Every live goal has a blocking branch below it. */
  lemma {:induction false} SomeLeafBelow(goals: seq<Goal>, path: seq<Goal>) returns (p: seq<Goal>)
    requires Settles(goals) && Open(goals, path)
    ensures Open(goals, p) && path <= p && Leaf(goals, p)
    decreases |goals| - |path|
  {
    if Kids(goals, path) == [] {
      p := path;
    } else {
      var k := Kids(goals, path)[0];
      assert k in Kids(goals, path);
      WalkExtends(goals, path, k);
      WalkIsShort(goals, path + [k]);
      p := SomeLeafBelow(goals, path + [k]);
    }
  }

  /** What the design promises: finalizing waits for the blocking roots and for nothing else. */
  predicate BlockingRootsDone(goals: seq<Goal>) {
    forall g :: g in goals && IsRoot(goals, g) && g.blocking ==> g.status.Terminal()
  }

  lemma NoBlockersIffRootsDone(goals: seq<Goal>)
    requires Settles(goals)
    ensures BranchLines(goals, AllVisits(goals)) == [] <==> BlockingRootsDone(goals)
  {
    var v := AllVisits(goals);
    BranchLinesEmpty(goals, v);
    if !BlockingRootsDone(goals) {
      var g :| g in goals && IsRoot(goals, g) && g.blocking && !g.status.Terminal();
      var p := SomeLeafBelow(goals, [g]);
      SearchVisitsOpenPaths(goals, p);
    } else if p :| p in v && Leaf(goals, p) {
      SearchVisitsOpenPaths(goals, p);
      assert false;
    }
  }

  /** Two goals that share an id and not the parent can let the search go down forever. */
  lemma {:induction false} SharedIdNeverEnds(n: nat) returns (goals: seq<Goal>, path: seq<Goal>)
    ensures goals == [Goal("x", "", "d", Pending, true, ""), Goal("x", "x", "d", Pending, false, "")]
    ensures |path| == n + 1 && Open(goals, path) && Kids(goals, path) != []
  {
    var root, loop := Goal("x", "", "d", Pending, true, ""), Goal("x", "x", "d", Pending, false, "");
    goals := [root, loop];
    path := [root] + seq(n, i => loop);
    SharedIdLoops(goals, root, loop);
    forall i | 0 < i < |path| ensures IsChild(goals, path[i - 1], path[i]) {
      assert path[i] == loop && path[i - 1].id == "x";
    }
    assert path[|path| - 1].id == "x";
  }

  lemma SharedIdLoops(goals: seq<Goal>, root: Goal, loop: Goal)
    requires root == Goal("x", "", "d", Pending, true, "") && loop == Goal("x", "x", "d", Pending, false, "")
             && goals == [root, loop]
    ensures root in goals && loop in goals && IsRoot(goals, root) && !IsRoot(goals, loop) && Trim(loop.parent) == "x"
    ensures loop in Filter(ChildrenOf(goals, "x"), LiveGoal)
  {
    assert goals[0].id == "x" && goals[1] == loop;
    assert loop in ChildrenOf(goals, "x");
  }

  // ---------- the manager ----------

  function At(children: map<string, seq<Goal>>, id: string): seq<Goal> {
    if id in children then children[id] else []
  }

  lemma FilterSnoc(s: seq<Goal>, i: nat, t: Test)
    requires i < |s|
    ensures Filter(s[..i + 1], t) == Filter(s[..i], t) + if t.Holds(s[i]) then [s[i]] else []
  {
    assert s[..i + 1][..i] == s[..i];
  }

  /** The map holds the children found among the first goals. */
  ghost predicate Indexed(goals: seq<Goal>, seen: seq<Goal>, children: map<string, seq<Goal>>) {
    forall id :: At(children, id) == Filter(seen, ChildOf(goals, id))
  }

  lemma IndexStep(goals: seq<Goal>, i: nat, children: map<string, seq<Goal>>)
    requires i < |goals| && Indexed(goals, goals[..i], children)
    ensures var parent := Trim(goals[i].parent);
            Indexed(goals, goals[..i + 1],
                    if IsRoot(goals, goals[i]) then children else children[parent := At(children, parent) + [goals[i]]])
  {
    forall id ensures Filter(goals[..i + 1], ChildOf(goals, id))
                   == Filter(goals[..i], ChildOf(goals, id))
                      + if ChildOf(goals, id).Holds(goals[i]) then [goals[i]] else []
    {
      FilterSnoc(goals, i, ChildOf(goals, id));
    }
    forall s: seq<Goal> ensures s + [] == s { }
  }

  method Snapshot(goals: seq<Goal>) returns (roots: seq<Goal>, children: map<string, seq<Goal>>)
    ensures roots == Roots(goals) && Indexed(goals, goals, children)
  {
    var byId: set<string> := {};
    for i := 0 to |goals|
      invariant byId == IdSet(goals[..i])
    {
      assert IdSet(goals[..i + 1]) == IdSet(goals[..i]) + {goals[i].id} by { IdSetSnoc(goals, i); }
      byId := byId + {goals[i].id};
    }
    assert goals[..|goals|] == goals;
    roots, children := [], map[];
    for i := 0 to |goals|
      invariant roots == Filter(goals[..i], RootOf(goals))
      invariant Indexed(goals, goals[..i], children)
    {
      var g := goals[i];
      var parent := Trim(g.parent);
      FilterSnoc(goals, i, RootOf(goals));
      IndexStep(goals, i, children);
      assert parent in byId <==> Known(goals, parent);
      if parent == "" || parent !in byId {
        roots := roots + [g];
      } else {
        children := children[parent := At(children, parent) + [g]];
      }
    }
  }

  lemma IdSetSnoc(goals: seq<Goal>, i: nat)
    requires i < |goals|
    ensures IdSet(goals[..i + 1]) == IdSet(goals[..i]) + {goals[i].id}
  {
    var longer, shorter := goals[..i + 1], goals[..i];
    forall x | x in IdSet(shorter) ensures x in IdSet(longer) {
      var k :| 0 <= k < i && shorter[k].id == x;
      assert longer[k].id == x;
    }
    forall x | x in IdSet(longer) ensures x in IdSet(shorter) + {goals[i].id} {
      var k :| 0 <= k < i + 1 && longer[k].id == x;
      if k < i { assert shorter[k].id == x; }
    }
    assert longer[i].id == goals[i].id;
  }

  lemma {:induction false} BranchLinesAppend(goals: seq<Goal>, a: seq<seq<Goal>>, b: seq<seq<Goal>>)
    ensures BranchLines(goals, a + b) == BranchLines(goals, a) + BranchLines(goals, b)
  {
    if a == [] {
      assert a + b == b;
    } else {
      assert (a + b)[1..] == a[1..] + b;
      BranchLinesAppend(goals, a[1..], b);
      Assoc(if Leaf(goals, a[0]) then [Render(a[0])] else [], BranchLines(goals, a[1..]), BranchLines(goals, b));
    }
  }

  lemma {:induction false} KidsStep(goals: seq<Goal>, path: seq<Goal>, kids: seq<Goal>, k: Goal)
    requires Settles(goals) && Walk(goals, path) && k in Kids(goals, path)
    requires forall k :: k in kids ==> k in Kids(goals, path)
    ensures Open(goals, path + [k]) && forall x :: x in kids + [k] ==> x in Kids(goals, path)
    ensures VisitsOver(goals, path, kids + [k]) == VisitsOver(goals, path, kids) + Visits(goals, path + [k])
    decreases |kids|
  {
    WalkExtends(goals, path, k);
    if kids == [] {
      assert kids + [k] == [k] && [k][1..] == [];
      assert VisitsOver(goals, path, []) == [];
      assert Visits(goals, path + [k]) + [] == Visits(goals, path + [k]);
    } else {
      assert (kids + [k])[1..] == kids[1..] + [k];
      WalkExtends(goals, path, kids[0]);
      KidsStep(goals, path, kids[1..], k);
      Assoc(Visits(goals, path + [kids[0]]), VisitsOver(goals, path, kids[1..]), Visits(goals, path + [k]));
    }
  }

  /** The lines the search adds for these kids of the path. */
  ghost function LinesFor(goals: seq<Goal>, path: seq<Goal>, kids: seq<Goal>): seq<string>
    requires Settles(goals) && Walk(goals, path) && (forall k :: k in kids ==> k in Kids(goals, path))
  {
    BranchLines(goals, VisitsOver(goals, path, kids))
  }

  /** The loop over kids has descended into these and found these lines. */
  ghost predicate Found(goals: seq<Goal>, path: seq<Goal>, done: seq<Goal>, before: seq<string>, r: seq<string>)
    requires Settles(goals) && Walk(goals, path)
  {
    (forall k :: k in done ==> k in Kids(goals, path)) && r == before + LinesFor(goals, path, done)
  }

  /** One more live child adds the lines below it. */
  lemma FoundNext(goals: seq<Goal>, path: seq<Goal>, done: seq<Goal>, k: Goal, before: seq<string>, r: seq<string>)
    requires Settles(goals) && Walk(goals, path) && k in Kids(goals, path) && Found(goals, path, done, before, r)
    ensures Open(goals, path + [k]) && |path| < |goals|
    ensures Found(goals, path, done + [k], before, r + BranchLines(goals, Visits(goals, path + [k])))
  {
    KidsStep(goals, path, done, k);
    WalkIsShort(goals, path + [k]);
    BranchLinesAppend(goals, VisitsOver(goals, path, done), Visits(goals, path + [k]));
    Assoc(before, LinesFor(goals, path, done), BranchLines(goals, Visits(goals, path + [k])));
  }

  /** The lines below a goal: its own when it has no live child, those of its live children otherwise. */
  lemma LinesOf(goals: seq<Goal>, path: seq<Goal>, before: seq<string>)
    requires Settles(goals) && Open(goals, path)
    ensures var below := before + LinesFor(goals, path, Kids(goals, path));
            before + BranchLines(goals, Visits(goals, path))
            == if Kids(goals, path) == [] then below + [Render(path)] else below
  {
    assert Visits(goals, path)[1..] == VisitsOver(goals, path, Kids(goals, path));
    if Kids(goals, path) == [] {
      assert LinesFor(goals, path, []) == [];
      assert before + [] == before;
      assert [Render(path)] + [] == [Render(path)];
    } else {
      assert [] + LinesFor(goals, path, Kids(goals, path)) == LinesFor(goals, path, Kids(goals, path));
    }
  }

  lemma KidIsNext(goals: seq<Goal>, path: seq<Goal>, kids: seq<Goal>, t: Test, i: nat)
    requires Filter(kids, t) == Kids(goals, path) && i < |kids| && t.Holds(kids[i])
    ensures kids[i] in Kids(goals, path)
  {
    assert kids[i] in Filter(kids, t);
  }

  /** The recursive closure: appends the branches below a live goal, in visiting order. */
  method Dfs(goals: seq<Goal>, children: map<string, seq<Goal>>, goal: Goal, above: seq<Goal>, branches: seq<string>)
    returns (r: seq<string>)
    requires Settles(goals) && Open(goals, above + [goal]) && Indexed(goals, goals, children)
    ensures r == branches + BranchLines(goals, Visits(goals, above + [goal]))
    decreases |goals| - |above| - 1, 2
  {
    var path := above + [goal];
    WalkIsShort(goals, path);
    LinesOf(goals, path, branches);
    var hasLiveChild;
    r, hasLiveChild := DfsEach(goals, children, At(children, goal.id), LiveGoal, path, branches);
    if !hasLiveChild { r := r + [Render(path)]; }
  }

  /** The loop of the closure over children and the loop over roots: descends into the goals that pass the test. */
  method DfsEach(goals: seq<Goal>, children: map<string, seq<Goal>>, kids: seq<Goal>, t: Test, path: seq<Goal>,
                 branches: seq<string>)
    returns (r: seq<string>, any: bool)
    requires Settles(goals) && Walk(goals, path) && Indexed(goals, goals, children) && |path| <= |goals|
    requires Filter(kids, t) == Kids(goals, path)
    ensures r == branches + LinesFor(goals, path, Kids(goals, path))
    ensures any <==> Kids(goals, path) != []
    decreases |goals| - |path|, 1
  {
    r, any := branches, false;
    ghost var done: seq<Goal> := [];
    assert branches + [] == branches;
    for i := 0 to |kids|
      invariant done == Filter(kids[..i], t)
      invariant Found(goals, path, done, branches, r)
      invariant any <==> done != []
    {
      FilterSnoc(kids, i, t);
      if t.Holds(kids[i]) {
        KidIsNext(goals, path, kids, t, i);
        FoundNext(goals, path, done, kids[i], branches, r);
        r := Dfs(goals, children, kids[i], path, r);
        any, done := true, done + [kids[i]];
      }
    }
    assert kids[..|kids|] == kids;
  }

  /** The description as it is shown: its first 500 bytes. */
  function Clipped(description: string): string {
    Truncate(description, MAX_DESCRIPTION).Shown()
  }

  /** The list after one more pending goal. */
  function Added(goals: seq<Goal>, id: string, description: string, parent: string, blocking: bool): seq<Goal> {
    goals + [Goal(id, Trim(parent), Clipped(description), Pending, blocking, "")]
  }

  function WithStatus(g: Goal, status: Status, result: string): Goal {
    g.(status := status, result := if result != "" then result else g.result)
  }

  /** The first goal with the id changes; no other goal does. */
  function SetStatus(goals: seq<Goal>, id: string, status: Status, result: string): (r: seq<Goal>)
    ensures |r| == |goals|
    ensures forall i :: 0 <= i < |r| ==>
              r[i] == if goals[i].id == id && !Known(goals[..i], id) then WithStatus(goals[i], status, result)
                else goals[i]
  {
    if goals == [] then []
    else
      var n := |goals| - 1;
      assert forall i :: 0 <= i < n ==> goals[..n][..i] == goals[..i];
      SetStatus(goals[..n], id, status, result)
      + [if goals[n].id == id && !Known(goals[..n], id) then WithStatus(goals[n], status, result) else goals[n]]
  }

  /** The first goal with the id has the status, and the result if one is given; nothing else differs. */
  ghost predicate FirstChanged(goals: seq<Goal>, r: seq<Goal>, id: string, status: Status, result: string) {
    |r| == |goals| && forall i :: 0 <= i < |goals| ==>
      var g := goals[i];
      if g.id != id || Known(goals[..i], id) then r[i] == g
      else r[i] == g.(status := status, result := if result == "" then g.result else result)
  }

  lemma KeptResult(goals: seq<Goal>, id: string, status: Status, result: string)
    ensures FirstChanged(goals, SetStatus(goals, id, status, result), id, status, result)
  {
  }

  class SubgoalManager {
    var goals: seq<Goal>

    constructor ()
      ensures goals == [] && DistinctIds(goals)
    {
      goals := [];
    }

    /** The caller supplies the id that the code takes from a random UUID. */
    method AddGoal(id: string, description: string, parent: string, blocking: bool) returns (ok: bool)
      modifies this
      ensures ok <==> |old(goals)| < MAX_GOALS
      ensures goals == if ok then Added(old(goals), id, description, parent, blocking) else old(goals)
      ensures ok ==> goals == old(goals) + [Goal(id, Trim(parent), Truncate(description, MAX_DESCRIPTION).Shown(),
                                                 Pending, blocking, "")]
      ensures DistinctIds(old(goals)) && !Known(old(goals), id) ==> DistinctIds(goals)
      ensures OneParent(old(goals)) && !Known(old(goals), id) ==> OneParent(goals)
    {
      if |goals| >= MAX_GOALS { return false; }
      var clipped := Truncate(description, MAX_DESCRIPTION).Shown();
      goals := goals + [Goal(id, Trim(parent), clipped, Pending, blocking, "")];
      return true;
    }

    /** Only the status and result of the first goal with the id change. */
    method UpdateGoalStatus(id: string, status: Status, result: string) returns (ok: bool)
      modifies this
      ensures ok <==> Known(old(goals), id)
      ensures goals == SetStatus(old(goals), id, status, result)
      ensures FirstChanged(old(goals), goals, id, status, result)
      ensures DistinctIds(old(goals)) ==> DistinctIds(goals)
      ensures OneParent(old(goals)) ==> OneParent(goals)
    {
      SetStatusKeeps(goals, id, status, result);
      KeptResult(goals, id, status, result);
      for i := 0 to |goals|
        invariant goals == old(goals)
        invariant forall k :: 0 <= k < i ==> goals[k].id != id
      {
        if goals[i].id == id {
          goals := goals[i := goals[i].(status := status, result := if result != "" then result else goals[i].result)];
          FirstChanges(old(goals), i, id, status, result);
          return true;
        }
      }
      return false;
    }

    /** Finalizing is allowed exactly when every blocking root is complete or rejected. */
    method CanFinalize() returns (ok: bool, blockers: seq<string>)
      requires Settles(goals)
      ensures ok <==> BlockingRootsDone(goals)
      ensures ok <==> blockers == []
      ensures blockers == BranchLines(goals, AllVisits(goals))
    {
      NoBlockersIffRootsDone(goals);
      blockers := [];
      if |goals| == 0 {
        assert Roots(goals) == [];
        return true, [];
      }
      var roots, children := Snapshot(goals);
      var any;
      blockers, any := DfsEach(goals, children, roots, LiveBlocker, [], []);
      ok := |blockers| == 0;
    }
  }

  lemma SetStatusKeeps(goals: seq<Goal>, id: string, status: Status, result: string)
    ensures var r := SetStatus(goals, id, status, result);
            && (forall i :: 0 <= i < |r| ==> r[i].id == goals[i].id && r[i].parent == goals[i].parent)
            && (DistinctIds(goals) ==> DistinctIds(r)) && (OneParent(goals) ==> OneParent(r))
  {
    var r := SetStatus(goals, id, status, result);
    assert forall i :: 0 <= i < |r| ==> r[i].id == goals[i].id && r[i].parent == goals[i].parent;
  }

  lemma FirstChanges(goals: seq<Goal>, i: nat, id: string, status: Status, result: string)
    requires i < |goals| && goals[i].id == id && forall k :: 0 <= k < i ==> goals[k].id != id
    ensures SetStatus(goals, id, status, result) == goals[i := WithStatus(goals[i], status, result)]
  {
    forall k | i < k < |goals| ensures Known(goals[..k], id) { assert goals[..k][i].id == id; }
  }
}
