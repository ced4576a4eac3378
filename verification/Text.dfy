/** String helpers of Go's `strings` and `unicode` packages that the modelled code relies on. */
module Text {

  datatype Option<+T> = None | Some(value: T)

  /** unicode.IsSpace. */
  predicate IsSpace(c: char) {
    '\t' <= c <= '\r' || c == ' ' || c == '\U{0085}' || c == '\U{00A0}' || c == '\U{1680}'
    || '\U{2000}' <= c <= '\U{200A}' || c == '\U{2028}' || c == '\U{2029}' || c == '\U{202F}'
    || c == '\U{205F}' || c == '\U{3000}'
  }

  function TrimLeft(s: string): string {
    if s != [] && IsSpace(s[0]) then TrimLeft(s[1..]) else s
  }

  function TrimRight(s: string): string {
    if s != [] && IsSpace(s[|s| - 1]) then TrimRight(s[..|s| - 1]) else s
  }

  /** strings.TrimSpace. */
  function Trim(s: string): string {
    TrimRight(TrimLeft(s))
  }

  function TrimSuffix(s: string, c: char): string {
    if s != [] && s[|s| - 1] == c then s[..|s| - 1] else s
  }

  /** strings.ToLower and strings.ToUpper, on ASCII letters. */
  function Lower(c: char): char {
    if 'A' <= c <= 'Z' then c + 32 as char else c
  }

  function Upper(c: char): char {
    if 'a' <= c <= 'z' then c - 32 as char else c
  }

  function ToLower(s: string): string {
    seq(|s|, i requires 0 <= i < |s| => Lower(s[i]))
  }

  function ToUpper(s: string): string {
    seq(|s|, i requires 0 <= i < |s| => Upper(s[i]))
  }

  /** A character of a word in a regular expression. */
  predicate WordChar(c: char) {
    '0' <= c <= '9' || 'A' <= c <= 'Z' || 'a' <= c <= 'z' || c == '_'
  }

  predicate Blank(s: string) {
    Trim(s) == ""
  }

  predicate AllSpace(s: string) {
    forall i :: 0 <= i < |s| ==> IsSpace(s[i])
  }

  predicate HasPrefix(s: string, p: string) {
    p <= s
  }

  predicate HasSuffix(s: string, p: string) {
    |p| <= |s| && s[|s| - |p|..] == p
  }

  lemma SpaceFirst(c: char, s: string)
    requires IsSpace(c) && AllSpace(s)
    ensures AllSpace([c] + s)
  {
  }

  lemma {:induction false} TrimLeftSplits(s: string)
    ensures TrimLeft(s) == [] || !IsSpace(TrimLeft(s)[0])
    ensures |TrimLeft(s)| <= |s| && AllSpace(s[..|s| - |TrimLeft(s)|])
    ensures s == s[..|s| - |TrimLeft(s)|] + TrimLeft(s)
  {
    if s != [] && IsSpace(s[0]) {
      var r, t := s[1..], TrimLeft(s[1..]);
      TrimLeftSplits(r);
      var gap := r[..|r| - |t|];
      SpaceFirst(s[0], gap);
      assert s[..|s| - |t|] == [s[0]] + gap && s == [s[0]] + r;
      Assoc([s[0]], gap, t);
    } else {
      assert s[..0] == [];
    }
  }

  lemma {:induction false} TrimRightIsPrefix(s: string)
    ensures TrimRight(s) <= s && AllSpace(s[|TrimRight(s)|..])
    ensures TrimRight(s) == [] || !IsSpace(TrimRight(s)[|TrimRight(s)| - 1])
  {
    if s != [] && IsSpace(s[|s| - 1]) {
      var t, n := s[..|s| - 1], |TrimRight(s)|;
      TrimRightIsPrefix(t);
      assert s == t + [s[|s| - 1]] && s[n..] == t[n..] + [s[|s| - 1]];
    } else {
      assert s[|s|..] == [];
    }
  }

  /** Trimming on the left works on the first part while that part has something to keep. */
  lemma {:induction false} TrimLeftAppend(a: string, b: string)
    ensures b != [] && !IsSpace(b[0]) ==> TrimLeft(a + b) == TrimLeft(a) + b
  {
    if a == [] {
      assert a + b == b;
    } else if IsSpace(a[0]) {
      assert (a + b)[1..] == a[1..] + b;
      TrimLeftAppend(a[1..], b);
    }
  }

  lemma {:induction false} TrimRightAppend(a: string, b: string)
    ensures TrimRight(a + b) == if AllSpace(b) then TrimRight(a) else a + TrimRight(b)
  {
    if b == [] {
      assert a + b == a;
    } else if IsSpace(b[|b| - 1]) {
      assert (a + b)[..|a + b| - 1] == a + b[..|b| - 1];
      TrimRightAppend(a, b[..|b| - 1]);
      assert AllSpace(b) <==> AllSpace(b[..|b| - 1]) by {
        if AllSpace(b[..|b| - 1]) {
          forall i | 0 <= i < |b| ensures IsSpace(b[i]) {
            if i < |b| - 1 { assert b[..|b| - 1][i] == b[i]; }
          }
        }
      }
    }
  }

  lemma {:induction false} TrimRightOfSpaces(s: string)
    requires AllSpace(s)
    ensures TrimRight(s) == []
  {
    if s != [] { TrimRightOfSpaces(s[..|s| - 1]); }
  }

  lemma Assoc<T>(a: seq<T>, b: seq<T>, c: seq<T>)
    ensures a + (b + c) == a + b + c
  {
  }

  /** Trimming twice is trimming once. */
  lemma TrimIdempotent(s: string)
    ensures Trim(Trim(s)) == Trim(s)
  {
    TrimLeftSplits(s);
    TrimRightIsPrefix(TrimLeft(s));
  }

  // ---------- lengths in bytes ----------

  /** The bytes of a rune in UTF-8. */
  function RuneBytes(c: char): (n: nat)
    ensures 1 <= n <= 4
  {
    if c < '\U{80}' then 1 else if c < '\U{800}' then 2 else if c < '\U{10000}' then 3 else 4
  }

  /** len of a Go string. */
  function Bytes(s: string): nat {
    if s == [] then 0 else Bytes(s[..|s| - 1]) + RuneBytes(s[|s| - 1])
  }

  /** The longest prefix of whole runes within so many bytes. */
  function WholeRunes(s: string, max: nat): (r: string)
    ensures Bytes(r) <= max
  {
    if Bytes(s) <= max then s else WholeRunes(s[..|s| - 1], max)
  }

  /** A text cut at a byte: its whole runes, and the bytes left of the rune that was cut in two. */
  datatype Cut = Cut(text: string, torn: nat) {
    /** What a reader of JSON gets: every byte that is no rune becomes a replacement character. */
    function Shown(): string { text + seq(torn, _ => '\U{FFFD}') }
  }

  /** s[:max] of a Go string that is longer, the string itself otherwise. */
  function Truncate(s: string, max: nat): Cut {
    Cut(WholeRunes(s, max), if Bytes(s) <= max then 0 else max - Bytes(WholeRunes(s, max)))
  }

  lemma {:induction false} WholeRunesFit(s: string, max: nat)
    ensures var w := WholeRunes(s, max);
            && w <= s
            && (Bytes(s) > max ==> |w| < |s| && Bytes(w) + RuneBytes(s[|w|]) > max)
  {
    if Bytes(s) > max { WholeRunesFit(s[..|s| - 1], max); }
  }

  /** Truncation keeps exactly the first bytes, and tears at most one rune. */
  lemma TruncateKeepsBytes(s: string, max: nat)
    ensures var c := Truncate(s, max);
            && c.text <= s && Bytes(c.text) + c.torn == (if Bytes(s) <= max then Bytes(s) else max)
            && (c.torn > 0 ==> |c.text| < |s| && c.torn < RuneBytes(s[|c.text|]))
            && (c == Cut(s, 0) <==> Bytes(s) <= max)
  {
    WholeRunesFit(s, max);
  }

  /** The same rune n times. */
  function Run(c: char, n: nat): string {
    seq(n, _ => c)
  }

  lemma {:induction false} BytesOfRun(c: char, n: nat)
    ensures Bytes(Run(c, n)) == n * RuneBytes(c)
  {
    if n > 0 {
      BytesOfRun(c, n - 1);
      assert Run(c, n)[..n - 1] == Run(c, n - 1);
    }
  }

  /** A text of one rune is torn exactly when its bytes do not fill the limit. */
  lemma TruncateRun(c: char, n: nat, max: nat)
    requires n * RuneBytes(c) > max
    ensures Truncate(Run(c, n), max).torn == max % RuneBytes(c)
  {
    var cut := Truncate(Run(c, n), max);
    BytesOfRun(c, n);
    TruncateKeepsBytes(Run(c, n), max);
    var k := |cut.text|;
    assert cut.text == Run(c, k);
    BytesOfRun(c, k);
    assert max == k * RuneBytes(c) + cut.torn && cut.torn < RuneBytes(c);
    QuotientIs(max, RuneBytes(c), k, cut.torn);
  }

  lemma QuotientIs(a: nat, b: nat, k: nat, rest: nat)
    requires 1 <= b <= 4 && a == k * b + rest && rest < b
    ensures a % b == rest
  {
    if b == 1 { } else if b == 2 { } else if b == 3 { } else { assert b == 4; }
  }

  // ---------- words ----------

  predicate Solid(s: string, p: char -> bool) {
    forall i :: 0 <= i < |s| ==> p(s[i])
  }

  /** The maximal runs of characters that satisfy p, in order. */
  function Runs(s: string, p: char -> bool): (r: seq<string>)
    ensures s != [] && p(s[|s| - 1]) ==> r != []
  {
    if s == [] then [] else
      var n := |s| - 1;
      var front := Runs(s[..n], p);
      if !p(s[n]) then front
      else if n > 0 && p(s[n - 1]) then Extended(front, s[n])
      else front + [[s[n]]]
  }

  /** The list with one more character in its last word. */
  function Extended(words: seq<string>, c: char): seq<string>
    requires words != []
  {
    words[..|words| - 1] + [words[|words| - 1] + [c]]
  }

  lemma RunsSnoc(s: string, c: char, p: char -> bool)
    ensures Runs(s + [c], p) == if !p(c) then Runs(s, p)
                                else if s != [] && p(s[|s| - 1]) then Extended(Runs(s, p), c)
                                else Runs(s, p) + [[c]]
  {
    assert (s + [c])[..|s|] == s;
  }

  lemma {:induction false} RunIsSolid(s: string, p: char -> bool, w: string)
    requires w in Runs(s, p)
    ensures w != [] && Solid(w, p)
  {
    var n := |s| - 1;
    var front := Runs(s[..n], p);
    if w in front {
      RunIsSolid(s[..n], p, w);
    } else if n > 0 && p(s[n - 1]) {
      assert w == front[|front| - 1] + [s[n]];
      RunIsSolid(s[..n], p, front[|front| - 1]);
    } else {
      assert w == [s[n]];
    }
  }

  lemma RunsAreSolid(s: string, p: char -> bool)
    ensures forall w :: w in Runs(s, p) ==> w != [] && Solid(w, p)
  {
    forall w | w in Runs(s, p) ensures w != [] && Solid(w, p) { RunIsSolid(s, p, w); }
  }

  lemma {:induction false} RunsOne(w: string, p: char -> bool)
    requires w != [] && Solid(w, p)
    ensures Runs(w, p) == [w]
  {
    var n := |w| - 1;
    assert w == w[..n] + [w[n]];
    RunsSnoc(w[..n], w[n], p);
    if n > 0 {
      RunsOne(w[..n], p);
    } else {
      assert w[..0] == [] && w == [w[0]];
    }
  }

  /** A character outside every word separates words. */
  lemma {:induction false} RunsSplit(a: string, c: char, b: string, p: char -> bool)
    requires !p(c)
    ensures Runs(a + [c] + b, p) == Runs(a, p) + Runs(b, p)
    decreases |b|
  {
    if b == [] {
      RunsSnoc(a, c, p);
      assert a + [c] + [] == a + [c] && Runs(a, p) + [] == Runs(a, p);
    } else {
      var n := |b| - 1;
      var front := a + [c] + b[..n];
      RunsSplit(a, c, b[..n], p);
      assert b == b[..n] + [b[n]] && a + [c] + b == front + [b[n]];
      RunsSnoc(b[..n], b[n], p);
      RunsSnoc(front, b[n], p);
      SplitStep(Runs(a, p), Runs(b[..n], p), b[n]);
      assert front[|front| - 1] == if n > 0 then b[n - 1] else c;
    }
  }

  lemma SplitStep(a: seq<string>, b: seq<string>, c: char)
    ensures (a + b) + [[c]] == a + (b + [[c]])
    ensures b != [] ==> Extended(a + b, c) == a + Extended(b, c)
  {
    if b != [] { ExtendedJoin(a, b, c); }
  }

  lemma ExtendedJoin(a: seq<string>, b: seq<string>, c: char)
    requires b != []
    ensures Extended(a + b, c) == a + Extended(b, c)
  {
  }

  /** w stands at offset i as a whole word: no character that satisfies p before or after it. */
  predicate WholeAt(s: string, i: nat, w: string, p: char -> bool) {
    && i + |w| <= |s| && s[i..i + |w|] == w
    && (i == 0 || !p(s[i - 1])) && (i + |w| == |s| || !p(s[i + |w|]))
  }

  /** Where a run stands: as a whole word, before the end unless it is the last, at the end if the text ends in it. */
  predicate Placed(s: string, p: char -> bool, k: nat, i: nat)
    requires k < |Runs(s, p)|
  {
    var w := Runs(s, p)[k];
    && WholeAt(s, i, w, p) && (k < |Runs(s, p)| - 1 ==> i + |w| < |s|)
    && (k == |Runs(s, p)| - 1 && p(s[|s| - 1]) ==> i + |w| == |s|)
  }

  lemma {:induction false} RunStands(s: string, p: char -> bool, k: nat) returns (i: nat)
    requires k < |Runs(s, p)|
    ensures Placed(s, p, k, i)
  {
    var n := |s| - 1;
    var front, c := s[..n], s[n];
    assert s == front + [c];
    RunsSnoc(front, c, p);
    if k < |Runs(front, p)| {
      i := RunStands(front, p, k);
      RunIsSolid(front, p, Runs(front, p)[k]);
      if !p(c) {
        PlacedThenGap(front, c, p, k, i);
      } else if front != [] && p(front[|front| - 1]) {
        PlacedThenMore(front, c, p, k, i);
      } else {
        PlacedThenNew(front, c, p, k, i);
      }
    } else {
      i := n;
      assert s[n..n + 1] == [c];
    }
  }

  lemma PlacedThenGap(s: string, c: char, p: char -> bool, k: nat, i: nat)
    requires k < |Runs(s, p)| && Placed(s, p, k, i) && !p(c)
    ensures k < |Runs(s + [c], p)| && Placed(s + [c], p, k, i)
  {
    RunsSnoc(s, c, p);
    var w := Runs(s, p)[k];
    assert (s + [c])[i..i + |w|] == s[i..i + |w|];
  }

  lemma PlacedThenNew(s: string, c: char, p: char -> bool, k: nat, i: nat)
    requires k < |Runs(s, p)| && Placed(s, p, k, i) && p(c) && (s == [] || !p(s[|s| - 1]))
    requires Runs(s, p)[k] != [] && Solid(Runs(s, p)[k], p)
    ensures k < |Runs(s + [c], p)| && Placed(s + [c], p, k, i)
  {
    RunsSnoc(s, c, p);
    var w := Runs(s, p)[k];
    assert (s + [c])[i..i + |w|] == s[i..i + |w|];
    assert s[i..i + |w|][|w| - 1] == s[i + |w| - 1];
  }

  /** A whole word before the end stays one, and one at the end may grow. */
  lemma WholeStays(s: string, c: char, i: nat, w: string, p: char -> bool)
    requires WholeAt(s, i, w, p) && i + |w| < |s|
    ensures WholeAt(s + [c], i, w, p)
  {
    assert (s + [c])[i..i + |w|] == s[i..i + |w|];
  }

  lemma WholeGrows(s: string, c: char, i: nat, w: string, p: char -> bool)
    requires w != [] && WholeAt(s, i, w, p) && i + |w| == |s|
    ensures WholeAt(s + [c], i, w + [c], p)
  {
    assert (s + [c])[i..|s| + 1] == s[i..|s|] + [c];
  }

  lemma PlacedThenMore(s: string, c: char, p: char -> bool, k: nat, i: nat)
    requires k < |Runs(s, p)| && Placed(s, p, k, i) && p(c) && s != [] && p(s[|s| - 1])
    requires Runs(s, p)[k] != []
    ensures k < |Runs(s + [c], p)| && Placed(s + [c], p, k, i)
  {
    var r, r1, last := Runs(s, p), Runs(s + [c], p), |Runs(s, p)| - 1;
    RunsSnoc(s, c, p);
    assert r1 == r[..last] + [r[last] + [c]];
    if k == last {
      assert r1[k] == r[k] + [c];
      WholeGrows(s, c, i, r[k], p);
    } else {
      assert r1[k] == r[k];
      WholeStays(s, c, i, r[k], p);
    }
  }

  /** What follows a word that starts the text. */
  lemma RunsAfterWord(w: string, b: string, p: char -> bool)
    requires w != [] && Solid(w, p) && (b == [] || !p(b[0]))
    ensures Runs(w + b, p) == [w] + if b == [] then [] else Runs(b[1..], p)
  {
    RunsOne(w, p);
    if b == [] {
      assert w + b == w && [w] + [] == [w];
    } else {
      assert w + b == w + [b[0]] + b[1..];
      RunsSplit(w, b[0], b[1..], p);
    }
  }

  /** A word that stands as a whole is a run. */
  lemma WholeIsRun(s: string, i: nat, w: string, p: char -> bool)
    requires w != [] && Solid(w, p) && WholeAt(s, i, w, p)
    ensures w in Runs(s, p)
  {
    var b := s[i + |w|..];
    RunsAfterWord(w, b, p);
    assert Runs(w + b, p)[0] == w;
    if i == 0 {
      assert s == w + b;
    } else {
      assert s == s[..i - 1] + [s[i - 1]] + (w + b);
      RunsSplit(s[..i - 1], s[i - 1], w + b, p);
    }
  }

  /** Main result: the runs of a text are exactly the words that stand in it as whole words. */
  lemma RunsAreWholeWords(s: string, w: string, p: char -> bool)
    requires w != [] && Solid(w, p)
    ensures w in Runs(s, p) <==> exists i: nat :: WholeAt(s, i, w, p)
  {
    if w in Runs(s, p) {
      var k :| 0 <= k < |Runs(s, p)| && Runs(s, p)[k] == w;
      var i := RunStands(s, p, k);
    }
    if exists i: nat :: WholeAt(s, i, w, p) {
      var i: nat :| WholeAt(s, i, w, p);
      WholeIsRun(s, i, w, p);
    }
  }
}
