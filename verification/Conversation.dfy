/** Conversation history of server/agent/engine.go and worker.go: tool calls, their results, and compaction. */
module Conversation {
  import opened Text

  datatype Call = Call(id: string, name: string, args: string)

  datatype Item = User(text: string) | Assistant(text: string, calls: seq<Call>) | Tool(callId: string, text: string) {
    predicate Caller() { Assistant? && calls != [] }
    predicate Plain() { User? || (Assistant? && calls == []) }
  }

  type History = seq<Item>

  /** Nine tenths of a window of 128000 tokens. */
  const COMPACT_TRIGGER := 115200
  const RECENT_WINDOW := 12
  const LOOK_BACK := 10
  const INPUT_TOOL := "user_request_input"
  const FINALIZE_TOOL := "report_finalize"

  // ---------- no result without its call ----------

  ghost predicate HasCall(calls: seq<Call>, id: string) {
    exists c :: c in calls && c.id == id
  }

  /** Item i holds the call that item j answers, and only results stand between them. */
  ghost predicate Owns(h: History, i: int, j: int) {
    && 0 <= i < j < |h| && h[j].Tool? && h[i].Assistant? && HasCall(h[i].calls, h[j].callId)
    && forall k :: i < k < j ==> h[k].Tool?
  }

  ghost predicate OrphanFree(h: History) {
    forall j :: 0 <= j < |h| && h[j].Tool? ==> exists i :: Owns(h, i, j)
  }

  /** Orphan free, with every result at most n items after its call. */
  ghost predicate Near(h: History, n: nat) {
    forall j :: 0 <= j < |h| && h[j].Tool? ==> exists i :: Owns(h, i, j) && j - i <= n
  }

  lemma OwnerIsUnique(h: History, i: int, i': int, j: int)
    requires Owns(h, i, j) && Owns(h, i', j)
    ensures i == i'
  {
  }

  lemma SuffixNear(h: History, r: nat, n: nat)
    requires Near(h, n) && (r == |h| || (r < |h| && !h[r].Tool?))
    ensures Near(h[r..], n)
  {
    forall j | 0 <= j < |h[r..]| && h[r..][j].Tool? ensures exists i :: Owns(h[r..], i, j) && j - i <= n {
      var i :| Owns(h, i, r + j) && r + j - i <= n;
      assert Owns(h[r..], i - r, j);
    }
  }

  lemma SuffixOrphanFree(h: History, r: nat)
    requires OrphanFree(h) && (r == |h| || (r < |h| && !h[r].Tool?))
    ensures OrphanFree(h[r..])
  {
    forall j | 0 <= j < |h[r..]| && h[r..][j].Tool? ensures exists i :: Owns(h[r..], i, j) {
      var i :| Owns(h, i, r + j);
      assert Owns(h[r..], i - r, j);
    }
  }

  lemma AppendKeepsOwners(h: History, t: History, i: int, j: int)
    requires Owns(h, i, j)
    ensures Owns(h + t, i, j)
  {
  }

  /** Appending items that are not results. */
  lemma AppendPlain(h: History, it: Item, n: nat)
    requires Near(h, n) && !it.Tool?
    ensures Near(h + [it], n)
  {
    var g := h + [it];
    forall j | 0 <= j < |g| && g[j].Tool? ensures exists i :: Owns(g, i, j) && j - i <= n {
      var i :| Owns(h, i, j) && j - i <= n;
      AppendKeepsOwners(h, [it], i, j);
    }
  }

  /** Appending one more result to the batch whose call message stands at i. */
  lemma AppendResult(h: History, i: nat, id: string, text: string, n: nat)
    requires Near(h, n) && i < |h| && h[i].Assistant? && HasCall(h[i].calls, id)
    requires (forall k :: i < k < |h| ==> h[k].Tool?) && |h| - i <= n
    ensures Near(h + [Tool(id, text)], n)
  {
    var g := h + [Tool(id, text)];
    forall j | 0 <= j < |g| && g[j].Tool? ensures exists i :: Owns(g, i, j) && j - i <= n {
      if j < |h| {
        var i' :| Owns(h, i', j) && j - i' <= n;
        AppendKeepsOwners(h, [Tool(id, text)], i', j);
      } else {
        assert Owns(g, i, j);
      }
    }
  }

  // ---------- where compaction may cut ----------

  /** The nearest item at or before i, not below low, that makes calls (or that is plain); -1 when there is none. */
  function FindBack(h: History, i: int, low: int, plain: bool): (r: int)
    requires i < |h| && 0 <= low
    ensures r == -1 || low <= r <= i
    ensures r >= 0 ==> if plain then h[r].Plain() else h[r].Caller()
    decreases i - low + 1
  {
    if i < low then -1
    else if (if plain then h[i].Plain() else h[i].Caller()) then i
    else FindBack(h, i - 1, low, plain)
  }

  lemma {:induction false} FindBackIsNearest(h: History, i: int, low: int, plain: bool)
    requires i < |h| && 0 <= low
    ensures forall k :: low <= k <= i && FindBack(h, i, low, plain) < k ==>
              !(if plain then h[k].Plain() else h[k].Caller())
    decreases i - low + 1
  {
    if i >= low { FindBackIsNearest(h, i - 1, low, plain); }
  }

  function Max0(x: int): nat { if x < 0 then 0 else x }

  /** Results that directly follow item i, counting at most n. */
  function ResultRun(h: History, i: nat, n: nat): nat
    decreases n
  {
    if n == 0 || i + 1 >= |h| || !h[i + 1].Tool? then 0 else 1 + ResultRun(h, i + 1, n - 1)
  }

  function Adjusted(h: History, b: int): int {
    if b <= 0 || b >= |h| || !h[b].Tool? then b else
      var i := FindBack(h, b - 1, Max0(b - LOOK_BACK), false);
      if i < 0 then b
      else if ResultRun(h, i, |h[i].calls|) < |h[i].calls| then
        var k := FindBack(h, i - 1, Max0(i - 5), true);
        if k >= 0 then k + 1 else i
      else i
  }

  method AdjustCompactionBoundary(h: History, boundary: int) returns (r: int)
    ensures r == Adjusted(h, boundary)
  {
    if boundary <= 0 || boundary >= |h| { return boundary; }
    if h[boundary].Tool? {
      var i := boundary - 1;
      while i >= 0 && i >= boundary - LOOK_BACK
        invariant -1 <= i < boundary
        invariant FindBack(h, boundary - 1, Max0(boundary - LOOK_BACK), false)
                  == FindBack(h, i, Max0(boundary - LOOK_BACK), false)
      {
        if h[i].Caller() {
          var wanted := |h[i].calls|;
          var found := CountResults(h, i, wanted);
          if found < wanted {
            var k := i - 1;
            while k >= 0 && k >= i - 5
              invariant -1 <= k < i
              invariant FindBack(h, i - 1, Max0(i - 5), true) == FindBack(h, k, Max0(i - 5), true)
            {
              if h[k].Plain() { return k + 1; }
              k := k - 1;
            }
          }
          return i;
        }
        i := i - 1;
      }
    }
    return boundary;
  }

  method CountResults(h: History, i: nat, wanted: nat) returns (n: nat)
    ensures n == ResultRun(h, i, wanted)
  {
    n := 0;
    var j := i + 1;
    while j < |h| && j <= i + wanted
      invariant j == i + 1 + n && n <= wanted
      invariant ResultRun(h, i, wanted) == n + ResultRun(h, i + n, wanted - n)
    {
      if !h[j].Tool? { break; }
      n := n + 1;
      j := j + 1;
    }
  }

  lemma BoundaryMovesLeft(h: History, b: int)
    ensures Adjusted(h, b) <= b && (b >= 0 ==> Adjusted(h, b) >= 0)
  {
  }

  /** The batch of item b starts within the look-back distance. */
  ghost predicate OwnerInReach(h: History, b: int) {
    exists i :: Owns(h, i, b) && b - i <= LOOK_BACK
  }

  lemma NoResultAfterPlain(h: History, k: nat)
    requires OrphanFree(h) && k + 1 < |h| && h[k].Plain()
    ensures !h[k + 1].Tool?
  {
    if h[k + 1].Tool? { assert false; }
  }

  /** The nearest caller within reach is the one found. */
  lemma ReachedOwnerIsFound(h: History, o: int, b: nat)
    requires 0 < b < |h| && Owns(h, o, b) && h[b].Tool?
    ensures FindBack(h, b - 1, Max0(b - LOOK_BACK), false) == if b - o <= LOOK_BACK then o else -1
  {
    FindBackIsNearest(h, b - 1, Max0(b - LOOK_BACK), false);
    assert h[o].Caller();
    assert forall k :: o < k < b ==> !h[k].Caller();
  }

  lemma CutInReach(h: History, o: int, b: nat)
    requires OrphanFree(h) && 0 < b < |h| && h[b].Tool? && Owns(h, o, b) && b - o <= LOOK_BACK
    ensures OrphanFree(h[Adjusted(h, b)..]) && !h[Adjusted(h, b)].Tool?
  {
    var r := Adjusted(h, b);
    ReachedOwnerIsFound(h, o, b);
    if r != o { NoResultAfterPlain(h, r - 1); }
    SuffixOrphanFree(h, r);
  }

  lemma CutOutOfReach(h: History, o: int, b: nat)
    requires 0 < b < |h| && h[b].Tool? && Owns(h, o, b) && b - o > LOOK_BACK
    ensures Adjusted(h, b) == b && !OrphanFree(h[b..]) && !OwnerInReach(h, b)
  {
    ReachedOwnerIsFound(h, o, b);
    assert h[b..][0].Tool? && !exists w :: Owns(h[b..], w, 0);
  }

  /**
   * Main result: an orphan-free history stays so after the cut exactly when no result further than 10 items from its
   * call is cut.
   */
  lemma CutKeepsPairing(h: History, b: nat)
    requires OrphanFree(h) && 0 < b < |h|
    ensures OrphanFree(h[Adjusted(h, b)..]) <==> !h[b].Tool? || OwnerInReach(h, b)
    ensures !h[b].Tool? || OwnerInReach(h, b) ==> !h[Adjusted(h, b)].Tool?
  {
    if h[b].Tool? {
      var o :| Owns(h, o, b);
      if b - o <= LOOK_BACK { CutInReach(h, o, b); } else { CutOutOfReach(h, o, b); }
    } else {
      SuffixOrphanFree(h, Adjusted(h, b));
    }
  }

  /** A batch of eleven results is cut apart: its tenth result from the end cannot see the call. */
  lemma LongBatchIsCut(calls: seq<Call>, h: History, b: nat)
    requires |calls| > LOOK_BACK
    requires h == [Assistant("", calls)] + seq(|calls|, k requires 0 <= k < |calls| => Tool(calls[k].id, ""))
    requires LOOK_BACK < b < |h|
    ensures OrphanFree(h) && !OrphanFree(h[Adjusted(h, b)..])
  {
    assert forall j :: 0 < j < |h| ==> h[j] == Tool(calls[j - 1].id, "");
    forall j | 0 <= j < |h| && h[j].Tool? ensures exists i :: Owns(h, i, j) {
      assert calls[j - 1] in calls;
      assert Owns(h, 0, j);
    }
    CutKeepsPairing(h, b);
    assert calls[b - 1] in calls && Owns(h, 0, b);
    assert forall o :: Owns(h, o, b) ==> o == 0;
  }

  /** compactMessagesLocked and compactWorkerBundle, on the history; the digest text is a parameter. */
  function Compact(h: History, promptTokens: int, digest: string): History {
    if |h| <= 1 || promptTokens <= COMPACT_TRIGGER || |h| <= RECENT_WINDOW || digest == "" then h
    else
      BoundaryMovesLeft(h, |h| - RECENT_WINDOW);
      h[Adjusted(h, |h| - RECENT_WINDOW)..]
  }

  lemma CompactCuts(h: History, promptTokens: int, digest: string)
    requires |h| > RECENT_WINDOW && promptTokens > COMPACT_TRIGGER && digest != ""
    ensures 0 <= Adjusted(h, |h| - RECENT_WINDOW) <= |h|
    ensures Compact(h, promptTokens, digest) == h[Adjusted(h, |h| - RECENT_WINDOW)..]
  {
    BoundaryMovesLeft(h, |h| - RECENT_WINDOW);
  }

  /** Nothing is cut up to the token limit, in a short history, or without a digest of what would be cut. */
  lemma SmallHistoryIsKept(h: History, promptTokens: int, digest: string)
    requires promptTokens <= COMPACT_TRIGGER || |h| <= RECENT_WINDOW || digest == ""
    ensures Compact(h, promptTokens, digest) == h
  {
  }

  /** The exact condition: something is cut beyond the limits, if a digest exists and the boundary is not the start. */
  lemma CompactionIff(h: History, promptTokens: int, digest: string)
    ensures Compact(h, promptTokens, digest) != h <==>
              && promptTokens > COMPACT_TRIGGER && |h| > RECENT_WINDOW && digest != ""
              && Adjusted(h, |h| - RECENT_WINDOW) > 0
  {
    if |h| > RECENT_WINDOW {
      BoundaryMovesLeft(h, |h| - RECENT_WINDOW);
      assert h[0..] == h;
    }
  }

  /** What is left is the end of the history, never less than its last 12 items. */
  lemma CompactKeepsTail(h: History, promptTokens: int, digest: string) returns (r: nat)
    ensures r <= |h| && Compact(h, promptTokens, digest) == h[r..] && (r == 0 || |h| - r >= RECENT_WINDOW)
  {
    if Compact(h, promptTokens, digest) == h {
      r := 0;
      assert h[0..] == h;
    } else {
      CompactionIff(h, promptTokens, digest);
      CompactCuts(h, promptTokens, digest);
      BoundaryMovesLeft(h, |h| - RECENT_WINDOW);
      r := Adjusted(h, |h| - RECENT_WINDOW);
    }
  }

  /** Once triggered, compaction leaves the recent window and at most the 14 items the boundary may move back. */
  lemma CompactionShrinks(h: History, promptTokens: int, digest: string)
    requires promptTokens > COMPACT_TRIGGER && digest != "" && |h| > RECENT_WINDOW
    ensures RECENT_WINDOW <= |Compact(h, promptTokens, digest)| <= RECENT_WINDOW + LOOK_BACK + 4
    ensures Compact(h, promptTokens, digest) == h[|h| - |Compact(h, promptTokens, digest)|..]
  {
    BoundaryMovesLeft(h, |h| - RECENT_WINDOW);
  }

  lemma CompactKeepsNear(h: History, promptTokens: int, digest: string)
    requires Near(h, LOOK_BACK)
    ensures Near(Compact(h, promptTokens, digest), LOOK_BACK)
    ensures Compact(h, promptTokens, digest) == h || |Compact(h, promptTokens, digest)| >= RECENT_WINDOW
    ensures exists r ::
              0 <= r <= |h| && Compact(h, promptTokens, digest) == h[r..] && (r < |h| ==> r == 0 || !h[r].Tool?)
  {
    if Compact(h, promptTokens, digest) == h {
      assert h[0..] == h;
    } else {
      var b := |h| - RECENT_WINDOW;
      BoundaryMovesLeft(h, b);
      CutKeepsPairing(h, b);
      SuffixNear(h, Adjusted(h, b), LOOK_BACK);
    }
  }

  /** Where the kept suffix starts: at the beginning, or outside every batch and at least 12 items before the end. */
  lemma CompactIsSuffix(h: History, promptTokens: int, digest: string) returns (r: nat)
    requires Near(h, LOOK_BACK)
    ensures r <= |h| && Compact(h, promptTokens, digest) == h[r..]
    ensures r == 0 || (|h| - r >= RECENT_WINDOW && !h[r].Tool?)
  {
    CompactKeepsNear(h, promptTokens, digest);
    var cut :| 0 <= cut <= |h| && Compact(h, promptTokens, digest) == h[cut..]
      && (cut < |h| ==> cut == 0 || !h[cut].Tool?);
    r := cut;
  }

  // ---------- every call answered exactly once ----------

  predicate Answers(calls: seq<Call>, results: History) {
    |results| == |calls| && forall k :: 0 <= k < |calls| ==> results[k].Tool? && results[k].callId == calls[k].id
  }

  /** Every call message is followed by its results in order, and there are no other results. */
  predicate Answered(h: History)
    decreases |h|
  {
    if h == [] then true
    else match h[0]
      case User(_) => Answered(h[1..])
      case Tool(_, _) => false
      case Assistant(_, calls) => |calls| < |h| && Answers(calls, h[1..1 + |calls|]) && Answered(h[1 + |calls|..])
  }

  /** The length of the first segment: a plain item, or a call message with its results. */
  function Lead(h: History): (n: nat)
    requires h != [] && Answered(h)
    ensures 1 <= n <= |h| && Answered(h[n..])
    ensures forall k :: 0 < k < n ==> h[k].Tool?
  {
    if h[0].Assistant? then
      assert forall k :: 0 < k < 1 + |h[0].calls| ==> h[k] == h[1..1 + |h[0].calls|][k - 1];
      1 + |h[0].calls|
    else 1
  }

  /** More items do not change the first segment. */
  lemma LeadAppend(h: History, t: History)
    requires h != [] && Answered(h)
    ensures Answered(h[Lead(h)..] + t) ==> Answered(h + t)
  {
    var n := Lead(h);
    assert (h + t)[0] == h[0] && (h + t)[n..] == h[n..] + t;
    assert (h + t)[1..n] == h[1..n];
  }

  lemma {:induction false} AnsweredAppend(h: History, t: History)
    requires Answered(h) && Answered(t)
    ensures Answered(h + t)
    decreases |h|
  {
    if h == [] {
      assert h + t == t;
    } else {
      AnsweredAppend(h[Lead(h)..], t);
      LeadAppend(h, t);
    }
  }

  lemma AnsweredBatch(text: string, calls: seq<Call>, results: History)
    requires Answers(calls, results)
    ensures Answered([Assistant(text, calls)] + results)
  {
    var h := [Assistant(text, calls)] + results;
    assert h[1..1 + |calls|] == results && h[1 + |calls|..] == [];
  }

  lemma {:induction false} AnsweredSuffix(h: History, r: nat)
    requires Answered(h) && (r == |h| || (r < |h| && !h[r].Tool?))
    ensures Answered(h[r..])
    decreases |h|
  {
    if r == 0 {
      assert h[0..] == h;
    } else {
      var n := Lead(h);
      assert r >= n;
      AnsweredSuffix(h[n..], r - n);
      assert h[n..][r - n..] == h[r..];
    }
  }

  lemma CompactKeepsAnswered(h: History, promptTokens: int, digest: string)
    requires Near(h, LOOK_BACK) && Answered(h)
    ensures Answered(Compact(h, promptTokens, digest))
  {
    CompactKeepsNear(h, promptTokens, digest);
    var r :| 0 <= r <= |h| && Compact(h, promptTokens, digest) == h[r..] && (r < |h| ==> r == 0 || !h[r].Tool?);
    if r == 0 { assert h[0..] == h; } else { AnsweredSuffix(h, r); }
  }

  lemma LeadOwns(h: History, j: nat)
    requires h != [] && Answered(h) && 0 < j < Lead(h)
    ensures Owns(h, 0, j)
  {
    var calls := h[0].calls;
    assert h[1..1 + |calls|][j - 1] == h[j];
    assert calls[j - 1] in calls;
  }

  lemma OwnsShift(h: History, m: nat, i: int, j: int)
    requires m <= |h| && Owns(h[m..], i, j)
    ensures Owns(h, i + m, j + m)
  {
    assert forall k :: i + m < k < j + m ==> h[k] == h[m..][k - m];
  }

  /** A result within the first segment, or within the rest, is close to its call. */
  lemma CloseOwner(h: History, n: nat, j: nat) returns (i: int)
    requires h != [] && Answered(h) && (h[0].Assistant? ==> |h[0].calls| <= n) && Near(h[Lead(h)..], n)
    requires j < |h| && h[j].Tool?
    ensures Owns(h, i, j) && j - i <= n
  {
    var m := Lead(h);
    if j < m {
      LeadOwns(h, j);
      i := 0;
    } else {
      assert h[m..][j - m] == h[j];
      var k :| Owns(h[m..], k, j - m) && j - m - k <= n;
      OwnsShift(h, m, k, j - m);
      i := k + m;
    }
  }

  /** Answered histories with short batches are orphan free. */
  lemma {:induction false} AnsweredIsNear(h: History, n: nat)
    requires Answered(h) && forall i :: 0 <= i < |h| && h[i].Assistant? ==> |h[i].calls| <= n
    ensures Near(h, n)
    decreases |h|
  {
    if h != [] {
      AnsweredIsNear(h[Lead(h)..], n);
      forall j | 0 <= j < |h| && h[j].Tool? ensures exists i :: Owns(h, i, j) && j - i <= n {
        var i := CloseOwner(h, n, j);
      }
    }
  }

  /** A batch left early stays unanswered, whatever plain items follow. */
  lemma {:induction false} OpenBatchStaysOpen(h0: History, text: string, calls: seq<Call>, results: History,
      rest: History)
    requires Answered(h0) && |results| < |calls| && (rest == [] || !rest[0].Tool?)
    ensures !Answered(h0 + [Assistant(text, calls)] + results + rest)
    decreases |h0|
  {
    var h := h0 + [Assistant(text, calls)] + results + rest;
    if h0 == [] {
      var k := |results|;
      assert h[0] == Assistant(text, calls);
      assert rest != [] ==> h[1 + k] == rest[0];
      assert |calls| < |h| ==> h[1..1 + |calls|][k] == h[1 + k];
    } else {
      var n := Lead(h0);
      OpenBatchStaysOpen(h0[n..], text, calls, results, rest);
      assert h[n..] == h0[n..] + [Assistant(text, calls)] + results + rest;
      assert h[0] == h0[0];
    }
  }

  /** The batch is answered exactly when every call was reached. */
  lemma BatchAnsweredIffComplete(h0: History, text: string, calls: seq<Call>, results: History)
    requires Answered(h0) && |results| <= |calls| && Answers(calls[..|results|], results)
    ensures Answered(h0 + [Assistant(text, calls)] + results) <==> |results| == |calls|
  {
    var h := h0 + [Assistant(text, calls)] + results;
    if |results| == |calls| {
      assert calls[..|results|] == calls;
      AnsweredBatch(text, calls, results);
      AnsweredAppend(h0, [Assistant(text, calls)] + results);
      Assoc(h0, [Assistant(text, calls)], results);
    } else {
      OpenBatchStaysOpen(h0, text, calls, results, []);
      assert h + [] == h;
    }
  }

  function IdsOf(calls: seq<Call>): seq<string> {
    seq(|calls|, k requires 0 <= k < |calls| => calls[k].id)
  }

  function CallsIn(it: Item): seq<string> {
    if it.Assistant? then IdsOf(it.calls) else []
  }

  function ResultIn(it: Item): seq<string> {
    if it.Tool? then [it.callId] else []
  }

  function CallIds(h: History): seq<string> {
    if h == [] then [] else CallsIn(h[0]) + CallIds(h[1..])
  }

  function ResultIds(h: History): seq<string> {
    if h == [] then [] else ResultIn(h[0]) + ResultIds(h[1..])
  }

  lemma {:induction false} CallIdsAppend(a: History, b: History)
    ensures CallIds(a + b) == CallIds(a) + CallIds(b)
  {
    if a == [] {
      assert a + b == b;
    } else {
      assert (a + b)[1..] == a[1..] + b;
      CallIdsAppend(a[1..], b);
      Assoc(CallsIn(a[0]), CallIds(a[1..]), CallIds(b));
    }
  }

  lemma {:induction false} ResultIdsAppend(a: History, b: History)
    ensures ResultIds(a + b) == ResultIds(a) + ResultIds(b)
  {
    if a == [] {
      assert a + b == b;
    } else {
      assert (a + b)[1..] == a[1..] + b;
      ResultIdsAppend(a[1..], b);
      Assoc(ResultIn(a[0]), ResultIds(a[1..]), ResultIds(b));
    }
  }

  lemma {:induction false} IdsOfResults(calls: seq<Call>, results: History)
    requires Answers(calls, results)
    ensures CallIds(results) == [] && ResultIds(results) == IdsOf(calls)
  {
    if calls != [] {
      assert Answers(calls[1..], results[1..]);
      IdsOfResults(calls[1..], results[1..]);
      assert IdsOf(calls) == [calls[0].id] + IdsOf(calls[1..]);
    }
  }

  lemma SegmentIds(text: string, calls: seq<Call>, results: History, rest: History)
    requires Answers(calls, results)
    ensures CallIds([Assistant(text, calls)] + (results + rest)) == IdsOf(calls) + CallIds(rest)
    ensures ResultIds([Assistant(text, calls)] + (results + rest)) == IdsOf(calls) + ResultIds(rest)
  {
    var tail := results + rest;
    assert ([Assistant(text, calls)] + tail)[1..] == tail;
    IdsOfResults(calls, results);
    CallIdsAppend(results, rest);
    ResultIdsAppend(results, rest);
    assert [] + CallIds(rest) == CallIds(rest) && [] + ResultIds(tail) == ResultIds(tail);
  }

  /** Main result: in an answered history results and calls match one to one and in order. */
  lemma {:induction false} AnsweredMatchesIds(h: History)
    requires Answered(h)
    ensures ResultIds(h) == CallIds(h)
    decreases |h|
  {
    if h != [] {
      var n := Lead(h);
      AnsweredMatchesIds(h[n..]);
      if h[0].Assistant? {
        assert h == [h[0]] + (h[1..n] + h[n..]);
        SegmentIds(h[0].text, h[0].calls, h[1..n], h[n..]);
      } else {
        assert h[0].User? && CallsIn(h[0]) == [] == ResultIn(h[0]);
      }
    }
  }

  // ---------- the answer of the user ----------

  function InputIds(calls: seq<Call>): seq<string> {
    if calls == [] then [] else (if calls[0].name == INPUT_TOOL then [calls[0].id] else []) + InputIds(calls[1..])
  }

  /** Ids of the input requests in the last message that has any. */
  function PendingIds(h: History): seq<string> {
    if h == [] then [] else
      var last := h[|h| - 1];
      if last.Assistant? && InputIds(last.calls) != [] then InputIds(last.calls) else PendingIds(h[..|h| - 1])
  }

  predicate HasResult(h: History, id: string) {
    exists j :: 0 <= j < |h| && h[j].Tool? && h[j].callId == id
  }

  function AnswerAll(h: History, ids: seq<string>, text: string): History
    decreases |ids|
  {
    if ids == [] then h
    else AnswerAll(if HasResult(h, ids[0]) then h else h + [Tool(ids[0], text)], ids[1..], text)
  }

  /** An open batch whose remaining calls are all input requests, none answered yet. */
  predicate OnlyInputsLeft(h: History, calls: seq<Call>, k: nat) {
    && k <= |calls|
    && (forall i :: 0 <= i < |calls| ==> (calls[i].name == INPUT_TOOL <==> k <= i))
    && (forall i, j :: k <= i < j < |calls| ==> calls[i].id != calls[j].id)
    && (forall i :: k <= i < |calls| ==> !HasResult(h, calls[i].id))
  }

  lemma {:induction false} InputIdsOfTail(calls: seq<Call>, k: nat)
    requires k <= |calls| && forall i :: 0 <= i < |calls| ==> (calls[i].name == INPUT_TOOL <==> k <= i)
    ensures InputIds(calls) == IdsOf(calls[k..])
    decreases |calls|
  {
    if calls != [] {
      var rest := calls[1..];
      if k == 0 {
        InputIdsOfTail(rest, 0);
        assert rest[0..] == rest && calls[0..] == calls;
        assert IdsOf(calls) == [calls[0].id] + IdsOf(rest);
      } else {
        InputIdsOfTail(rest, k - 1);
        assert rest[k - 1..] == calls[k..];
      }
    }
  }

  lemma {:induction false} PendingOfOpenBatch(h0: History, text: string, calls: seq<Call>, results: History)
    requires InputIds(calls) != [] && forall k :: 0 <= k < |results| ==> results[k].Tool?
    ensures PendingIds(h0 + [Assistant(text, calls)] + results) == InputIds(calls)
    decreases |results|
  {
    var h := h0 + [Assistant(text, calls)] + results;
    if results != [] {
      var n := |results| - 1;
      assert h[..|h| - 1] == h0 + [Assistant(text, calls)] + results[..n];
      PendingOfOpenBatch(h0, text, calls, results[..n]);
    }
  }

  function Replies(ids: seq<string>, text: string): History {
    seq(|ids|, i requires 0 <= i < |ids| => Tool(ids[i], text))
  }

  lemma {:induction false} AnswerAllAppends(h: History, ids: seq<string>, text: string)
    requires forall i :: 0 <= i < |ids| ==> !HasResult(h, ids[i])
    requires forall i, j :: 0 <= i < j < |ids| ==> ids[i] != ids[j]
    ensures AnswerAll(h, ids, text) == h + Replies(ids, text)
    decreases |ids|
  {
    if ids != [] {
      var g := h + [Tool(ids[0], text)];
      forall i | 0 <= i < |ids[1..]| ensures !HasResult(g, ids[1..][i]) {
        assert ids[1..][i] == ids[i + 1] != ids[0];
        assert forall j :: 0 <= j < |h| ==> g[j] == h[j];
      }
      AnswerAllAppends(g, ids[1..], text);
      assert Replies(ids, text) == [Tool(ids[0], text)] + Replies(ids[1..], text);
      Assoc(h, [Tool(ids[0], text)], Replies(ids[1..], text));
    }
  }

  /** The last message that asks the user for input stands at k. */
  ghost predicate AsksLast(h: History, k: nat) {
    && k < |h| && h[k].Assistant? && InputIds(h[k].calls) != []
    && forall j :: k < j < |h| && h[j].Assistant? ==> InputIds(h[j].calls) == []
  }

  lemma {:induction false} InputIdsAre(calls: seq<Call>, id: string)
    ensures id in InputIds(calls) <==> exists c :: c in calls && c.name == INPUT_TOOL && c.id == id
  {
    if calls != [] {
      InputIdsAre(calls[1..], id);
      assert forall c :: c in calls <==> c == calls[0] || c in calls[1..];
    }
  }

  lemma {:induction false} PendingIsLastAsked(h: History)
    ensures forall k: nat :: AsksLast(h, k) ==> PendingIds(h) == InputIds(h[k].calls)
    ensures PendingIds(h) == [] <==> forall k: nat :: !AsksLast(h, k)
  {
    if h != [] {
      var n := |h| - 1;
      PendingIsLastAsked(h[..n]);
      if h[n].Assistant? && InputIds(h[n].calls) != [] {
        assert AsksLast(h, n) && forall k: nat :: AsksLast(h, k) ==> k == n;
      } else {
        forall k: nat ensures AsksLast(h, k) <==> AsksLast(h[..n], k) { AsksLastSnoc(h[..n], h[n], k); }
      }
    }
  }

  lemma AsksLastSnoc(h: History, it: Item, k: nat)
    requires it.Assistant? ==> InputIds(it.calls) == []
    ensures AsksLast(h + [it], k) <==> AsksLast(h, k)
    ensures (h + [it])[..|h|] == h
  {
    var g := h + [it];
    assert forall j :: 0 <= j < |h| ==> g[j] == h[j];
  }

  /** What is added: the reply, to ids that had no result. */
  ghost predicate Gives(h: History, r: History, ids: seq<string>, text: string) {
    && h <= r
    && (forall j :: |h| <= j < |r| ==>
          r[j].Tool? && r[j].text == text && r[j].callId in ids && !HasResult(h, r[j].callId))
    && (forall i, j :: |h| <= i < j < |r| ==> r[i].callId != r[j].callId)
    && (forall k :: 0 <= k < |ids| ==> HasResult(r, ids[k]))
  }

  lemma {:induction false} AnswerAllGives(h: History, ids: seq<string>, text: string)
    ensures Gives(h, AnswerAll(h, ids, text), ids, text)
    decreases |ids|
  {
    if ids != [] {
      var g := if HasResult(h, ids[0]) then h else h + [Tool(ids[0], text)];
      AnswerAllGives(g, ids[1..], text);
      GivesOneMore(h, g, AnswerAll(g, ids[1..], text), ids, text);
    }
  }

  lemma GivesOneMore(h: History, g: History, r: History, ids: seq<string>, text: string)
    requires ids != [] && g == (if HasResult(h, ids[0]) then h else h + [Tool(ids[0], text)])
    requires Gives(g, r, ids[1..], text)
    ensures Gives(h, r, ids, text)
  {
    forall id | HasResult(g, id) ensures HasResult(r, id) {
      var j :| 0 <= j < |g| && g[j].Tool? && g[j].callId == id;
      assert r[j] == g[j];
    }
    forall id | HasResult(h, id) ensures HasResult(g, id) {
      var j :| 0 <= j < |h| && h[j].Tool? && h[j].callId == id;
      assert g[j] == h[j];
    }
    if g != h { assert g[|h|] == Tool(ids[0], text) && r[|h|] == g[|h|]; }
    forall k | 0 <= k < |ids| ensures HasResult(r, ids[k]) {
      if k > 0 { assert ids[k] == ids[1..][k - 1]; }
    }
  }

  /** Main result: the reply goes, once, to every input request without result in the last message that asks. */
  lemma ReplyIsGiven(h: History, k: nat, text: string)
    requires AsksLast(h, k)
    ensures var r := AnswerAll(h, PendingIds(h), text);
            && h <= r
            && (forall j :: |h| <= j < |r| ==> r[j].Tool? && r[j].text == text && !HasResult(h, r[j].callId))
            && (forall i, j :: |h| <= i < j < |r| ==> r[i].callId != r[j].callId)
            && (forall c :: c in h[k].calls && c.name == INPUT_TOOL ==> HasResult(r, c.id))
            && (forall j :: |h| <= j < |r| ==>
                  exists c :: c in h[k].calls && c.name == INPUT_TOOL && c.id == r[j].callId)
  {
    PendingIsLastAsked(h);
    var ids, r := PendingIds(h), AnswerAll(h, PendingIds(h), text);
    AnswerAllGives(h, ids, text);
    forall id ensures id in ids <==> exists c :: c in h[k].calls && c.name == INPUT_TOOL && c.id == id {
      InputIdsAre(h[k].calls, id);
    }
    forall c | c in h[k].calls && c.name == INPUT_TOOL ensures HasResult(r, c.id) {
      assert c.id in ids;
    }
  }

  /** Main result: one reply completes a batch that ends in any number of input requests. */
  lemma ReplyCompletesBatch(h0: History, text: string, calls: seq<Call>, results: History, reply: string)
    requires Answered(h0) && |results| < |calls| && Answers(calls[..|results|], results)
    requires OnlyInputsLeft(h0 + [Assistant(text, calls)] + results, calls, |results|)
    ensures var h := h0 + [Assistant(text, calls)] + results;
            Answered(AnswerAll(h, PendingIds(h), reply)) && PendingIds(h) != []
  {
    var head := h0 + [Assistant(text, calls)];
    var more := Replies(IdsOf(calls[|results|..]), reply);
    PendingReplies(h0, text, calls, results, reply);
    Assoc(head, results, more);
    assert calls[..|results + more|] == calls;
    BatchAnsweredIffComplete(h0, text, calls, results + more);
  }

  lemma PendingReplies(h0: History, text: string, calls: seq<Call>, results: History, reply: string)
    requires |results| < |calls| && Answers(calls[..|results|], results)
    requires OnlyInputsLeft(h0 + [Assistant(text, calls)] + results, calls, |results|)
    ensures var h := h0 + [Assistant(text, calls)] + results;
            PendingIds(h) != [] && AnswerAll(h, PendingIds(h), reply) == h + Replies(IdsOf(calls[|results|..]), reply)
  {
    var h := h0 + [Assistant(text, calls)] + results;
    var ids := IdsOf(calls[|results|..]);
    InputIdsOfTail(calls, |results|);
    assert |ids| > 0;
    PendingOfOpenBatch(h0, text, calls, results);
    AnswerAllAppends(h, ids, reply);
  }

  lemma {:induction false} AnswerAllShape(h: History, ids: seq<string>, text: string) returns (more: History)
    ensures |more| <= |ids| && AnswerAll(h, ids, text) == h + more
    decreases |ids|
  {
    if ids == [] || HasResult(h, ids[0]) {
      more := [];
      if ids == [] { assert h + [] == h; } else { more := AnswerAllShape(h, ids[1..], text); }
    } else {
      more := AnswerAllShape(h + [Tool(ids[0], text)], ids[1..], text);
      Assoc(h, [Tool(ids[0], text)], more);
      more := [Tool(ids[0], text)] + more;
    }
  }

  lemma {:induction false} InputIdsFewer(calls: seq<Call>, k: nat, j: nat)
    requires k <= j < |calls| && calls[j].name != INPUT_TOOL && forall i :: 0 <= i < k ==> calls[i].name != INPUT_TOOL
    ensures |InputIds(calls)| < |calls| - k
    decreases |calls|
  {
    var rest := calls[1..];
    if k > 0 {
      InputIdsFewer(rest, k - 1, j - 1);
    } else if j > 0 {
      InputIdsFewer(rest, 0, j - 1);
    } else {
      InputIdsBound(rest, 0);
    }
  }

  /** Main result: one reply completes the suspended batch exactly when all its open calls are input requests. */
  lemma ReplyCompletesIff(h0: History, text: string, calls: seq<Call>, results: History, reply: string)
    requires Answered(h0) && |results| < |calls| && Answers(calls[..|results|], results)
    requires calls[|results|].name == INPUT_TOOL && forall i :: 0 <= i < |results| ==> calls[i].name != INPUT_TOOL
    requires forall i, j :: |results| <= i < j < |calls| ==> calls[i].id != calls[j].id
    requires forall i :: |results| <= i < |calls| ==> !HasResult(h0 + [Assistant(text, calls)] + results, calls[i].id)
    ensures var h := h0 + [Assistant(text, calls)] + results;
            Answered(AnswerAll(h, PendingIds(h), reply)) <==>
              forall i :: |results| <= i < |calls| ==> calls[i].name == INPUT_TOOL
  {
    var h := h0 + [Assistant(text, calls)] + results;
    if j :| |results| <= j < |calls| && calls[j].name != INPUT_TOOL {
      SomeInput(calls, |results|);
      PendingOfOpenBatch(h0, text, calls, results);
      InputIdsFewer(calls, |results|, j);
      var more := AnswerAllShape(h, PendingIds(h), reply);
      Assoc(h0 + [Assistant(text, calls)], results, more);
      OpenBatchStaysOpen(h0, text, calls, results + more, []);
      assert h0 + [Assistant(text, calls)] + (results + more) + [] == h + more;
    } else {
      ReplyCompletesBatch(h0, text, calls, results, reply);
    }
  }

  /** The calls in front of the first input request are not input requests, so replies never exceed the open calls. */
  lemma {:induction false} InputIdsBound(calls: seq<Call>, k: nat)
    requires k <= |calls| && forall i :: 0 <= i < k ==> calls[i].name != INPUT_TOOL
    ensures |InputIds(calls)| <= |calls| - k
    ensures forall i :: 0 <= i < |InputIds(calls)| ==> HasCall(calls, InputIds(calls)[i])
    decreases |calls|
  {
    if calls != [] {
      InputIdsBound(calls[1..], if k == 0 then 0 else k - 1);
      var ids := InputIds(calls[1..]);
      forall i | 0 <= i < |InputIds(calls)| ensures HasCall(calls, InputIds(calls)[i]) {
        if calls[0].name == INPUT_TOOL && i == 0 {
          assert calls[0] in calls;
        } else {
          var id := if calls[0].name == INPUT_TOOL then ids[i - 1] else ids[i];
          assert HasCall(calls[1..], id);
          var c :| c in calls[1..] && c.id == id;
          assert c in calls;
        }
      }
    }
  }

  lemma {:induction false} AnswerAllKeepsNear(h: History, i: nat, ids: seq<string>, text: string)
    requires Near(h, LOOK_BACK) && i < |h| && h[i].Assistant? && (forall k :: i < k < |h| ==> h[k].Tool?)
    requires |h| - i + |ids| <= LOOK_BACK + 1 && (forall k :: 0 <= k < |ids| ==> HasCall(h[i].calls, ids[k]))
    ensures Near(AnswerAll(h, ids, text), LOOK_BACK)
    decreases |ids|
  {
    if ids != [] {
      if HasResult(h, ids[0]) {
        AnswerAllKeepsNear(h, i, ids[1..], text);
      } else {
        AppendResult(h, i, ids[0], text, LOOK_BACK);
        AnswerAllKeepsNear(h + [Tool(ids[0], text)], i, ids[1..], text);
      }
    }
  }

  /** Main result: the reply to a suspended batch leaves no orphan. */
  lemma ReplyKeepsNear(h0: History, text: string, calls: seq<Call>, results: History, reply: string)
    requires Near(h0 + [Assistant(text, calls)] + results, LOOK_BACK) && |calls| <= LOOK_BACK
    requires |results| < |calls| && calls[|results|].name == INPUT_TOOL
             && (forall i :: 0 <= i < |results| ==> results[i].Tool?)
    requires forall i :: 0 <= i < |results| ==> calls[i].name != INPUT_TOOL
    ensures var h := h0 + [Assistant(text, calls)] + results;
            Near(AnswerAll(h, PendingIds(h), reply), LOOK_BACK)
  {
    var h := h0 + [Assistant(text, calls)] + results;
    SomeInput(calls, |results|);
    PendingOfOpenBatch(h0, text, calls, results);
    InputIdsBound(calls, |results|);
    assert h[|h0|] == Assistant(text, calls);
    AnswerAllKeepsNear(h, |h0|, PendingIds(h), reply);
  }

  lemma {:induction false} SomeInput(calls: seq<Call>, k: nat)
    requires k < |calls| && calls[k].name == INPUT_TOOL
    ensures InputIds(calls) != []
    decreases |calls|
  {
    if k > 0 { SomeInput(calls[1..], k - 1); }
  }
}
