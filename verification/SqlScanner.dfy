/** The two hand-written SQL scanners of server/data/schema.go and the read-only gate built on them. */
module SqlScanner {
  import opened Text

  // ---------- specification: one scanner step, and the text it keeps ----------

  /** The four flags of the scanners, of which at most one is set. */
  datatype Mode = Normal | SingleQuoted | DoubleQuoted | LineComment | BlockComment

  /** What one loop iteration does: characters consumed, character written, next mode. */
  datatype Move = Move(len: nat, out: Option<char>, mode: Mode)

  /** One iteration on character c, followed by d when there is a next character. */
  function Act(c: char, d: Option<char>, m: Mode): (r: Move)
    ensures 1 <= r.len <= (if d.Some? then 2 else 1)
  {
    match m
    case LineComment => if c == '\n' then Move(1, Some(' '), Normal) else Move(1, None, m)
    case BlockComment => if c == '*' && d == Some('/') then Move(2, Some(' '), Normal) else Move(1, None, m)
    case SingleQuoted =>
      if c != '\'' then Move(1, None, m) else if d == Some('\'') then Move(2, None, m) else Move(1, Some(' '), Normal)
    case DoubleQuoted =>
      if c != '"' then Move(1, None, m) else if d == Some('"') then Move(2, None, m) else Move(1, Some(' '), Normal)
    case Normal =>
      if c == '-' && d == Some('-') then Move(2, None, LineComment)
      else if c == '/' && d == Some('*') then Move(2, None, BlockComment)
      else if c == '\'' then Move(1, Some(' '), SingleQuoted)
      else if c == '"' then Move(1, Some(' '), DoubleQuoted)
      else Move(1, Some(c), Normal)
  }

  function Peek(q: string, i: nat): Option<char> {
    if i < |q| then Some(q[i]) else None
  }

  function Next(q: string, i: nat, m: Mode): (r: Move)
    requires i < |q|
    ensures 1 <= r.len <= |q| - i
  {
    Act(q[i], Peek(q, i + 1), m)
  }

  function Emit(out: Option<char>, rest: string): string {
    if out.Some? then [out.value] + rest else rest
  }

  /** What is written from offset i on. */
  function Strip(q: string, i: nat, m: Mode): string
    requires i <= |q|
    decreases |q| - i
  {
    if i == |q| then "" else
      var a := Next(q, i, m);
      Emit(a.out, Strip(q, i + a.len, a.mode))
  }

  function Stripped(q: string): string {
    Strip(q, 0, Normal)
  }

  // ---------- the scanners, flag by flag ----------

  function ModeOf(single: bool, double: bool, line: bool, block: bool): Mode {
    if line then LineComment else if block then BlockComment
    else if single then SingleQuoted else if double then DoubleQuoted else Normal
  }

  /** The scanners agree: a second statement is seen exactly when the stripped text keeps a semicolon. */
  method HasMultipleStatements(query: string) returns (multiple: bool)
    ensures multiple <==> ';' in Stripped(query)
  {
    var inSingle, inDouble, inLine, inBlock := false, false, false, false;
    var i := 0;
    while i < |query|
      invariant 0 <= i <= |query|
      invariant ';' in Stripped(query) <==> ';' in Strip(query, i, ModeOf(inSingle, inDouble, inLine, inBlock))
      invariant !(inSingle && (inDouble || inLine || inBlock)) && !(inDouble && (inLine || inBlock))
                && !(inLine && inBlock)
    {
      var ch := query[i];
      var two := i + 1 < |query|;
      ghost var a := Next(query, i, ModeOf(inSingle, inDouble, inLine, inBlock));
      ghost var at := i + a.len;
      i := i + 1;
      if inLine {
        if ch == '\n' { inLine := false; }
      } else if inBlock {
        if ch == '*' && two && query[i] == '/' { inBlock := false; i := i + 1; }
      } else if inSingle {
        if ch == '\'' {
          if two && query[i] == '\'' { i := i + 1; } else { inSingle := false; }
        }
      } else if inDouble {
        if ch == '"' {
          if two && query[i] == '"' { i := i + 1; } else { inDouble := false; }
        }
      } else if ch == '-' && two && query[i] == '-' {
        inLine := true; i := i + 1;
      } else if ch == '/' && two && query[i] == '*' {
        inBlock := true; i := i + 1;
      } else if ch == '\'' {
        inSingle := true;
      } else if ch == '"' {
        inDouble := true;
      } else if ch == ';' {
        return true;
      }
      assert i == at && ModeOf(inSingle, inDouble, inLine, inBlock) == a.mode && a.out != Some(';');
    }
    return false;
  }

  method StripSQLStringsAndComments(query: string) returns (b: string)
    ensures b == Stripped(query)
  {
    var inSingle, inDouble, inLine, inBlock := false, false, false, false;
    var i := 0;
    b := "";
    while i < |query|
      invariant 0 <= i <= |query|
      invariant Stripped(query) == b + Strip(query, i, ModeOf(inSingle, inDouble, inLine, inBlock))
      invariant !(inSingle && (inDouble || inLine || inBlock)) && !(inDouble && (inLine || inBlock))
                && !(inLine && inBlock)
    {
      ghost var a := Next(query, i, ModeOf(inSingle, inDouble, inLine, inBlock));
      AppendStep(query, i, ModeOf(inSingle, inDouble, inLine, inBlock), b);
      var out;
      inSingle, inDouble, inLine, inBlock, i, out := ScanOne(query, i, inSingle, inDouble, inLine, inBlock);
      if out.Some? { b := b + [out.value]; }
    }
  }

  lemma AppendStep(q: string, i: nat, m: Mode, b: string)
    requires i < |q|
    ensures var a := Next(q, i, m);
            b + Strip(q, i, m) == (if a.out.Some? then b + [a.out.value] else b) + Strip(q, i + a.len, a.mode)
  {
  }

  /** The body of the stripping loop: new flags, next offset, and the character written. */
  method ScanOne(query: string, i: nat, single: bool, double: bool, line: bool, block: bool)
    returns (inSingle: bool, inDouble: bool, inLine: bool, inBlock: bool, next: nat, out: Option<char>)
    requires i < |query| && !(single && (double || line || block)) && !(double && (line || block)) && !(line && block)
    ensures i < next && Move(next - i, out, ModeOf(inSingle, inDouble, inLine, inBlock))
            == Next(query, i, ModeOf(single, double, line, block))
    ensures !(inSingle && (inDouble || inLine || inBlock)) && !(inDouble && (inLine || inBlock)) && !(inLine && inBlock)
  {
    inSingle, inDouble, inLine, inBlock, next, out := single, double, line, block, i + 1, None;
    var ch := query[i];
    var two := i + 1 < |query|;
    if inLine {
      if ch == '\n' { inLine := false; out := Some(' '); }
    } else if inBlock {
      if ch == '*' && two && query[i + 1] == '/' { inBlock := false; next := i + 2; out := Some(' '); }
    } else if inSingle {
      if ch == '\'' {
        if two && query[i + 1] == '\'' { next := i + 2; } else { inSingle := false; out := Some(' '); }
      }
    } else if inDouble {
      if ch == '"' {
        if two && query[i + 1] == '"' { next := i + 2; } else { inDouble := false; out := Some(' '); }
      }
    } else if ch == '-' && two && query[i + 1] == '-' {
      inLine := true; next := i + 2;
    } else if ch == '/' && two && query[i + 1] == '*' {
      inBlock := true; next := i + 2;
    } else if ch == '\'' {
      inSingle := true; out := Some(' ');
    } else if ch == '"' {
      inDouble := true; out := Some(' ');
    } else {
      out := Some(ch);
    }
  }

  // ---------- shape of the stripped text ----------

  /** No quotes, and no comment opener. */
  predicate Clean(s: string) {
    && (forall i :: 0 <= i < |s| ==> s[i] != '\'' && s[i] != '"')
    && (forall i :: 0 < i < |s| ==> !(s[i - 1] == '-' && s[i] == '-') && !(s[i - 1] == '/' && s[i] == '*'))
  }

  predicate Joins(c: char, d: char) {
    (c == '-' && d == '-') || (c == '/' && d == '*')
  }

  lemma CleanCons(c: char, rest: string)
    requires Clean(rest) && c != '\'' && c != '"' && (rest != [] ==> !Joins(c, rest[0]))
    ensures Clean([c] + rest)
  {
    var s := [c] + rest;
    forall i | 0 < i < |s|
      ensures !(s[i - 1] == '-' && s[i] == '-') && !(s[i - 1] == '/' && s[i] == '*')
    {
      assert s[i] == rest[i - 1];
    }
  }

  lemma {:induction false} StripIsClean(q: string, i: nat, m: Mode)
    requires i <= |q|
    ensures |Strip(q, i, m)| <= |q| - i && Clean(Strip(q, i, m))
    ensures Strip(q, i, m) != [] ==> Strip(q, i, m)[0] == ' ' || (m == Normal && i < |q| && Strip(q, i, m)[0] == q[i])
    decreases |q| - i
  {
    if i < |q| {
      var a := Next(q, i, m);
      var rest := Strip(q, i + a.len, a.mode);
      StripIsClean(q, i + a.len, a.mode);
      if a.out.Some? { CleanCons(a.out.value, rest); }
    }
  }

  lemma {:induction false} CleanIsFixed(s: string, i: nat)
    requires Clean(s) && i <= |s|
    ensures Strip(s, i, Normal) == s[i..]
    decreases |s| - i
  {
    if i < |s| {
      CleanIsFixed(s, i + 1);
      assert i + 1 < |s| ==> !(s[i] == '-' && s[i + 1] == '-') && !(s[i] == '/' && s[i + 1] == '*');
      assert s[i..] == [s[i]] + s[i + 1..];
    }
  }

  /** Main result: the stripped text is no longer, has no quote or comment opener, and strips to itself. */
  lemma StripIdempotent(q: string)
    ensures |Stripped(q)| <= |q| && Clean(Stripped(q)) && Stripped(Stripped(q)) == Stripped(q)
  {
    StripIsClean(q, 0, Normal);
    CleanIsFixed(Stripped(q), 0);
  }

  // ---------- the inside of a literal or comment does not matter ----------

  /** The scanner at offset i in mode m comes to stand outside literals and comments at offset n. */
  predicate Reaches(q: string, i: nat, m: Mode, n: nat)
    requires i <= |q|
    decreases |q| - i
  {
    if i >= n then i == n && m == Normal else
      i < |q| && Reaches(q, i + Next(q, i, m).len, Next(q, i, m).mode, n)
  }

  /** What the scanner has written on its way to offset n. */
  function Written(q: string, i: nat, m: Mode, n: nat): string
    requires i <= |q| && Reaches(q, i, m, n)
    decreases |q| - i
  {
    if i == n then "" else
      var a := Next(q, i, m);
      Emit(a.out, Written(q, i + a.len, a.mode, n))
  }

  predicate Agree(q: string, q': string, n: nat) {
    n < |q| && n < |q'| && forall k :: 0 <= k <= n ==> q[k] == q'[k]
  }

  lemma ReachesInside(q: string, i: nat, m: Mode, n: nat)
    requires i < n < |q| && Reaches(q, i, m, n)
    ensures i + Next(q, i, m).len <= n
  {
  }

  /** One character of look-ahead decides everything the scanner did up to offset n. */
  lemma {:induction false} ScanIsLocal(q: string, q': string, i: nat, m: Mode, n: nat)
    requires Agree(q, q', n) && i <= n && Reaches(q, i, m, n)
    ensures Reaches(q', i, m, n) && Written(q', i, m, n) == Written(q, i, m, n)
    decreases n - i
  {
    if i < n {
      ReachesInside(q, i, m, n);
      assert Peek(q', i + 1) == Peek(q, i + 1);
      ScanIsLocal(q, q', i + Next(q, i, m).len, Next(q, i, m).mode, n);
    }
  }

  lemma {:induction false} StripSplits(q: string, i: nat, m: Mode, n: nat)
    requires i <= n < |q| && Reaches(q, i, m, n)
    ensures Strip(q, i, m) == Written(q, i, m, n) + Strip(q, n, Normal)
    decreases n - i
  {
    if i < n {
      var a := Next(q, i, m);
      ReachesInside(q, i, m, n);
      StripSplits(q, i + a.len, a.mode, n);
    }
  }

  lemma NextSuffix(p: string, q: string, i: nat, m: Mode)
    requires i < |q|
    ensures Next(p + q, |p| + i, m) == Next(q, i, m)
  {
    assert (p + q)[|p| + i] == q[i] && Peek(p + q, |p| + i + 1) == Peek(q, i + 1);
  }

  /** Scanning a suffix does not depend on what stands before it. */
  lemma {:induction false} StripSuffix(p: string, q: string, i: nat, m: Mode)
    requires i <= |q|
    ensures Strip(p + q, |p| + i, m) == Strip(q, i, m)
    decreases |q| - i
  {
    if i < |q| {
      var a := Next(q, i, m);
      NextSuffix(p, q, i, m);
      StripSuffix(p, q, i + a.len, a.mode);
    }
  }

  /** A literal or comment the scanners skip. */
  datatype Region = Quoted(quote: char) | Line | Block {
    predicate Valid() { Quoted? ==> quote == '\'' || quote == '"' }
    function Open(): string { match this case Quoted(c) => [c] case Line => "--" case Block => "/*" }
    function Close(): string { match this case Quoted(c) => [c] case Line => "\n" case Block => "*/" }
    function Inside(): Mode {
      match this
      case Quoted(c) => if c == '\'' then SingleQuoted else DoubleQuoted
      case Line => LineComment
      case Block => BlockComment
    }
    /** The text from offset i can stand inside the region without closing it. */
    predicate Holds(body: string, i: nat) {
      match this
      case Quoted(c) => Escaped(body, i, c)
      case Line => '\n' !in body
      case Block => forall k :: 0 < k < |body| ==> !(body[k - 1] == '*' && body[k] == '/')
    }
    /** The text after the closer does not turn the closer into an escape. */
    predicate Ends(post: string) {
      Quoted? ==> post == [] || post[0] != quote
    }
    function Text(body: string): string { Open() + body + Close() }
  }

  /** Every quote from offset i on is doubled. */
  predicate Escaped(body: string, i: nat, c: char)
    decreases |body| - i
  {
    i >= |body| || (body[i] != c && Escaped(body, i + 1, c))
    || (i + 1 < |body| && body[i] == c && body[i + 1] == c && Escaped(body, i + 2, c))
  }

  lemma {:induction false} InsideIsSkipped(r: Region, body: string, rest: string, i: nat)
    requires r.Valid() && r.Holds(body, i) && i <= |body| && rest != "" && rest[0] == r.Close()[0]
    ensures Strip(body + rest, i, r.Inside()) == Strip(rest, 0, r.Inside())
    decreases |body| - i
  {
    if i == |body| {
      StripSuffix(body, rest, 0, r.Inside());
    } else {
      InsideIsSkipped(r, body, rest, i + Next(body + rest, i, r.Inside()).len);
    }
  }

  lemma CloserIsABlank(r: Region, post: string)
    requires r.Valid() && r.Ends(post)
    ensures Strip(r.Close() + post, 0, r.Inside()) == " " + Stripped(post)
  {
    var q := r.Close() + post;
    assert q[0] == r.Close()[0];
    assert r.Block? ==> q[1] == '/';
    assert r.Quoted? && post != "" ==> q[1] == post[0];
    assert Next(q, 0, r.Inside()) == Move(|r.Close()|, Some(' '), Normal);
    StripSuffix(r.Close(), post, 0, Normal);
  }

  /** What the scanners write for a whole region. */
  function Trace(r: Region): Option<char> { if r.Quoted? then Some(' ') else None }

  lemma OpenerIsSkipped(r: Region, rest: string)
    requires r.Valid()
    ensures Strip(r.Open() + rest, 0, Normal) == Emit(Trace(r), Strip(rest, 0, r.Inside()))
  {
    var q := r.Open() + rest;
    assert q[0] == r.Open()[0];
    assert !r.Quoted? ==> q[1] == r.Open()[1];
    assert Next(q, 0, Normal) == Move(|r.Open()|, Trace(r), r.Inside());
    StripSuffix(r.Open(), rest, 0, r.Inside());
  }

  lemma RegionIsSkipped(r: Region, body: string, post: string)
    requires r.Valid() && r.Holds(body, 0) && r.Ends(post)
    ensures Stripped(r.Text(body) + post) == Emit(Trace(r), " " + Stripped(post))
  {
    var rest := r.Close() + post;
    TextSplits(r, body, post);
    OpenerIsSkipped(r, body + rest);
    InsideIsSkipped(r, body, rest, 0);
    CloserIsABlank(r, post);
  }

  lemma TextSplits(r: Region, body: string, post: string)
    ensures r.Text(body) + post == r.Open() + (body + (r.Close() + post))
  {
  }

  lemma PlainMove(pre: string, rest: string, i: nat)
    requires Clean(pre) && i < |pre| && (rest != [] ==> !Joins(pre[|pre| - 1], rest[0]))
    ensures Next(pre + rest, i, Normal) == Move(1, Some(pre[i]), Normal)
  {
    var q := pre + rest;
    assert i + 1 < |q| ==> q[i + 1] == if i + 1 < |pre| then pre[i + 1] else rest[0];
  }

  /** Plain text in front is kept as it is. */
  lemma {:induction false} CleanPrefixIsKept(pre: string, rest: string, i: nat)
    requires Clean(pre) && i <= |pre| && (pre != [] && rest != [] ==> !Joins(pre[|pre| - 1], rest[0]))
    ensures Strip(pre + rest, i, Normal) == pre[i..] + Stripped(rest)
    decreases |pre| - i
  {
    var q := pre + rest;
    if i == |pre| {
      StripSuffix(pre, rest, 0, Normal);
    } else {
      CleanPrefixIsKept(pre, rest, i + 1);
      PlainMove(pre, rest, i);
      assert pre[i..] == [pre[i]] + pre[i + 1..];
    }
  }

  /** Main result: plain text stays, a comment becomes one blank and a literal two, and the rest is stripped in turn. */
  lemma PlainThenRegion(pre: string, r: Region, body: string, post: string)
    requires Clean(pre) && (pre != [] ==> !Joins(pre[|pre| - 1], r.Open()[0]))
    requires r.Valid() && r.Holds(body, 0) && r.Ends(post)
    ensures Stripped(pre + r.Text(body) + post) == pre + (if r.Quoted? then "  " else " ") + Stripped(post)
  {
    Assoc(pre, r.Text(body), post);
    CleanPrefixIsKept(pre, r.Text(body) + post, 0);
    RegionIsSkipped(r, body, post);
    assert pre[0..] == pre;
  }

  /** The region starts at the end of pre when the query is scanned. */
  predicate StartsAt(pre: string, r: Region, body: string, post: string) {
    Reaches(pre + r.Text(body) + post, 0, Normal, |pre|)
  }

  lemma SameUpToOpener(pre: string, r: Region, body: string, post: string, body': string, post': string)
    ensures Agree(pre + r.Text(body) + post, pre + r.Text(body') + post', |pre|)
  {
    var q, q' := pre + r.Text(body) + post, pre + r.Text(body') + post';
    assert q[|pre|] == r.Open()[0] == q'[|pre|];
    assert forall k :: 0 <= k < |pre| ==> q[k] == pre[k] == q'[k];
  }

  lemma StripAroundRegion(pre: string, r: Region, body: string, post: string)
    requires r.Valid() && r.Holds(body, 0) && r.Ends(post) && StartsAt(pre, r, body, post)
    ensures var q := pre + r.Text(body) + post;
            Stripped(q) == Written(q, 0, Normal, |pre|) + Emit(Trace(r), " " + Stripped(post))
  {
    var q := pre + r.Text(body) + post;
    Assoc(pre, r.Text(body), post);
    SameUpToOpener(pre, r, body, post, body, post);
    StripSplits(q, 0, Normal, |pre|);
    StripSuffix(pre, r.Text(body) + post, 0, Normal);
    RegionIsSkipped(r, body, post);
  }

  lemma StripIgnoresInside(pre: string, r: Region, body: string, body': string, post: string)
    requires r.Valid() && r.Holds(body, 0) && r.Holds(body', 0) && r.Ends(post) && StartsAt(pre, r, body, post)
    ensures StartsAt(pre, r, body', post)
    ensures Stripped(pre + r.Text(body') + post) == Stripped(pre + r.Text(body) + post)
  {
    SameUpToOpener(pre, r, body, post, body', post);
    ScanIsLocal(pre + r.Text(body) + post, pre + r.Text(body') + post, 0, Normal, |pre|);
    StripAroundRegion(pre, r, body, post);
    StripAroundRegion(pre, r, body', post);
  }

  // ---------- the read-only gate ----------

  datatype Verdict = Accepted | EmptyQuery | SeveralStatements | NotASelect | ForbiddenKeyword

  const FORBIDDEN: set<string> := {
    "INSERT", "UPDATE", "DELETE", "ALTER", "DROP", "CREATE", "ATTACH", "DETACH",
    "REINDEX", "VACUUM", "PRAGMA", "REPLACE", "MERGE", "UPSERT", "TRUNCATE" }

  /** The keyword stands at offset i of s between word boundaries. */
  predicate WordAt(s: string, i: nat, w: string) {
    && i + |w| <= |s| && s[i..i + |w|] == w
    && (i == 0 || !WordChar(s[i - 1])) && (i + |w| == |s| || !WordChar(s[i + |w|]))
  }

  predicate HasForbiddenKeyword(upper: string) {
    exists i, w :: 0 <= i < |upper| && w in FORBIDDEN && WordAt(upper, i, w)
  }

  /** The words of a query, as a regular expression sees them. */
  function SqlWords(s: string): seq<string> {
    Runs(s, WordChar)
  }

  lemma KeywordsAreWords(w: string)
    requires w in FORBIDDEN
    ensures w != [] && Solid(w, WordChar)
  {
  }

  /** Main result: a keyword is forbidden as a whole word, and only as a whole word. */
  lemma KeywordIsWholeWord(upper: string)
    ensures HasForbiddenKeyword(upper) <==> exists w :: w in FORBIDDEN && w in SqlWords(upper)
  {
    forall w | w in FORBIDDEN ensures w in SqlWords(upper) <==> exists i: nat :: i < |upper| && WordAt(upper, i, w) {
      KeywordsAreWords(w);
      RunsAreWholeWords(upper, w, WordChar);
      WordIsWhole(upper, w);
    }
  }

  lemma WordIsWhole(upper: string, w: string)
    requires w != []
    ensures (exists i: nat :: WholeAt(upper, i, w, WordChar)) <==> exists i: nat :: i < |upper| && WordAt(upper, i, w)
  {
    forall i: nat ensures WholeAt(upper, i, w, WordChar) <==> i < |upper| && WordAt(upper, i, w) { }
  }

  /** The query the gate inspects: trimmed, without one trailing semicolon. */
  function Core(query: string): string {
    Trim(TrimSuffix(Trim(query), ';'))
  }

  function Judge(stripped: string): Verdict {
    var upper := ToUpper(Trim(stripped));
    if ';' in stripped then SeveralStatements
    else if !HasPrefix(upper, "SELECT") && !HasPrefix(upper, "WITH") then NotASelect
    else if HasForbiddenKeyword(upper) then ForbiddenKeyword
    else Accepted
  }

  function GateVerdict(query: string): Verdict {
    if Core(query) == "" then EmptyQuery else Judge(Stripped(Core(query)))
  }

  /** Main result: the queries the gate lets through, in terms of what is left outside literals and comments. */
  lemma AcceptedIff(query: string)
    ensures var text := Stripped(Core(query));
            var upper := ToUpper(Trim(text));
            GateVerdict(query).Accepted? <==>
              && Core(query) != "" && ';' !in text && ("SELECT" <= upper || "WITH" <= upper)
              && forall w :: w in SqlWords(upper) ==> w !in FORBIDDEN
  {
    KeywordIsWholeWord(ToUpper(Trim(Stripped(Core(query)))));
  }

  /** normalizeReadOnlyQuery: the verdict, and the query to run when it is accepted. */
  method NormalizeReadOnlyQuery(query: string) returns (verdict: Verdict, normalized: string)
    ensures verdict == GateVerdict(query)
    ensures verdict.Accepted? ==> normalized == Core(query) && normalized != "" && ';' !in Stripped(normalized)
  {
    normalized := "";
    var trimmed := Trim(query);
    if trimmed == "" {
      assert Core(query) == "";
      return EmptyQuery, normalized;
    }
    trimmed := Trim(TrimSuffix(trimmed, ';'));
    if trimmed == "" { return EmptyQuery, normalized; }
    var multiple := HasMultipleStatements(trimmed);
    if multiple { return SeveralStatements, normalized; }
    var inspection := StripSQLStringsAndComments(trimmed);
    var upper := ToUpper(Trim(inspection));
    if !HasPrefix(upper, "SELECT") && !HasPrefix(upper, "WITH") { return NotASelect, normalized; }
    if HasForbiddenKeyword(upper) { return ForbiddenKeyword, normalized; }
    return Accepted, trimmed;
  }

  // How trimming acts on a query with a region in it.

  function CutTail(post: string): string {
    TrimRight(TrimSuffix(TrimRight(post), ';'))
  }

  lemma CoreAsTails(query: string)
    ensures Core(query) == CutTail(TrimLeft(query))
  {
    var t := TrimLeft(query);
    TrimLeftSplits(query);
    TrimRightIsPrefix(t);
    var u := TrimSuffix(TrimRight(t), ';');
    if u != [] { assert u[0] == t[0]; }
    assert TrimLeft(u) == u;
  }

  lemma SpacesAreCut(b: string, d: string)
    requires AllSpace(b) && AllSpace(d)
    ensures CutTail(b) == "" && CutTail(b + ";" + d) == ""
  {
    TrimRightOfSpaces(b);
    TrimRightAppend(b + ";", d);
    assert !IsSpace(';') && (b + ";")[..|b|] == b;
  }

  /** Space around the query, and one semicolon behind it, make no difference. */
  lemma CoreOfPadded(a: string, c: string, b: string, d: string)
    requires AllSpace(a) && AllSpace(b) && AllSpace(d)
    requires c != "" && !IsSpace(c[0]) && !IsSpace(c[|c| - 1]) && c[|c| - 1] != ';'
    ensures Core(a + (c + b)) == c && Core(a + (c + (b + ";" + d))) == c
  {
    SpacesAreCut(b, d);
    LeadIsCut(a, c + b);
    LeadIsCut(a, c + (b + ";" + d));
    CoreAsTails(a + (c + b));
    CoreAsTails(a + (c + (b + ";" + d)));
    CutTailAppend(c, b);
    CutTailAppend(c, b + ";" + d);
  }

  lemma {:induction false} LeadIsCut(a: string, s: string)
    requires AllSpace(a) && s != "" && !IsSpace(s[0])
    ensures TrimLeft(a + s) == s
  {
    if a == "" {
      assert a + s == s;
    } else {
      assert (a + s)[1..] == a[1..] + s;
      LeadIsCut(a[1..], s);
    }
  }

  lemma CutTailIsPrefix(s: string)
    ensures CutTail(s) <= s
  {
    TrimRightIsPrefix(s);
    TrimRightIsPrefix(TrimSuffix(TrimRight(s), ';'));
  }

  /** Cutting the tail only touches the last part, unless it removes that part completely. */
  lemma CutTailAppend(a: string, b: string)
    ensures CutTail(b) != [] ==> CutTail(a + b) == a + CutTail(b)
    ensures CutTail(b) == [] ==> CutTail(a + b) <= a
    ensures a != [] && !IsSpace(a[|a| - 1]) && a[|a| - 1] != ';' ==> CutTail(a + b) == a + CutTail(b)
  {
    TrimRightAppend(a, b);
    TrimRightIsPrefix(b);
    if AllSpace(b) {
      TrimRightOfSpaces(b);
      CutTailIsPrefix(a);
    } else {
      var b1 := TrimRight(b);
      assert b[0..] == b;
      var b2 := TrimSuffix(b1, ';');
      assert TrimSuffix(a + b1, ';') == a + b2;
      TrimRightAppend(a, b2);
      TrimRightIsPrefix(a);
      TrimRightIsPrefix(b2);
      if AllSpace(b2) { TrimRightOfSpaces(b2); }
      assert b2[0..] == b2;
    }
  }

  lemma {:induction false} ReachesAfterSpace(q: string, i: nat, n: nat)
    requires i <= n <= |q| && AllSpace(q[..i]) && Reaches(q, 0, Normal, n)
    ensures Reaches(q, i, Normal, n)
    decreases i
  {
    if i > 0 {
      assert AllSpace(q[..i - 1]) && IsSpace(q[..i][i - 1]);
      ReachesAfterSpace(q, i - 1, n);
    }
  }

  lemma {:induction false} ReachesSuffix(p: string, q: string, i: nat, m: Mode, n: nat)
    requires i <= |q| && n <= |q| && Reaches(p + q, |p| + i, m, |p| + n)
    ensures Reaches(q, i, m, n)
    decreases |q| - i
  {
    if i < n {
      NextSuffix(p, q, i, m);
      ReachesSuffix(p, q, i + Next(q, i, m).len, Next(q, i, m).mode, n);
    }
  }

  /** Dropping leading space does not change where a region starts. */
  lemma StartsAfterTrim(pre: string, r: Region, body: string, post: string)
    requires StartsAt(pre, r, body, post)
    ensures StartsAt(TrimLeft(pre), r, body, post)
  {
    TrimLeftSplits(pre);
    Assoc(pre, r.Text(body), post);
    Assoc(TrimLeft(pre), r.Text(body), post);
    StartsAfterSpace(pre[..|pre| - |TrimLeft(pre)|], TrimLeft(pre), r.Text(body) + post);
  }

  lemma StartsAfterSpace(space: string, pre: string, rest: string)
    requires AllSpace(space) && Reaches(space + pre + rest, 0, Normal, |space + pre|)
    ensures Reaches(pre + rest, 0, Normal, |pre|)
  {
    Assoc(space, pre, rest);
    assert (space + (pre + rest))[..|space|] == space;
    ReachesAfterSpace(space + (pre + rest), |space|, |space + pre|);
    ReachesSuffix(space, pre + rest, 0, Normal, |pre|);
  }

  /** An unfinished line comment writes nothing. */
  lemma {:induction false} UnfinishedLineComment(c: string, i: nat)
    requires '\n' !in c && i <= |c|
    ensures Strip(c, i, LineComment) == ""
    decreases |c| - i
  {
    if i < |c| { UnfinishedLineComment(c, i + 1); }
  }

  /** The gate keeps everything from the first character kept before the region. */
  lemma CoreFrom(pre: string, r: Region, body: string, post: string)
    requires r.Valid()
    ensures Core(pre + r.Text(body) + post) == CutTail(TrimLeft(pre) + (r.Text(body) + post))
  {
    var rest := r.Text(body) + post;
    Assoc(pre, r.Text(body), post);
    TextSplits(r, body, post);
    assert !IsSpace(rest[0]);
    TrimLeftAppend(pre, rest);
    CoreAsTails(pre + rest);
  }

  lemma CoreKeepsRegion(pre: string, r: Region, body: string, post: string)
    requires r.Valid() && !(r.Line? && CutTail(post) == [])
    ensures Core(pre + r.Text(body) + post) == TrimLeft(pre) + r.Text(body) + CutTail(post)
  {
    var p, t := TrimLeft(pre), r.Text(body);
    CoreFrom(pre, r, body, post);
    Assoc(p, t, post);
    CutTailAppend(p + t, post);
    assert (p + t)[|p + t| - 1] == t[|t| - 1] == r.Close()[|r.Close()| - 1];
  }

  lemma CoreOpensComment(pre: string, body: string, post: string) returns (c: string)
    requires CutTail(post) == []
    ensures c <= body && Core(pre + Line.Text(body) + post) == TrimLeft(pre) + "--" + c
  {
    var p := TrimLeft(pre);
    CoreFrom(pre, Line, body, post);
    CommentTail(p, body, post);
    c :| c <= body && CutTail(p + "--" + (body + ("\n" + post))) == p + "--" + c;
    TextSplits(Line, body, post);
    Assoc(body, "\n", post);
    Assoc(p, "--", body + ("\n" + post));
  }

  /** When the text after a line comment cuts to nothing, the comment loses its line break. */
  lemma CommentTail(p: string, body: string, post: string)
    requires CutTail(post) == []
    ensures exists c :: c <= body && CutTail(p + "--" + (body + ("\n" + post))) == p + "--" + c
  {
    var tail := body + ("\n" + post);
    CutOfBlank(post);
    CutTailAppend(body, "\n" + post);
    CutTailAppend(p + "--", tail);
    assert CutTail(tail) <= body;
  }

  /** A tail that cuts to nothing still cuts to nothing after a line break. */
  lemma CutOfBlank(post: string)
    requires CutTail(post) == []
    ensures CutTail("\n" + post) == []
  {
    CutTailAppend("\n", post);
    var u := CutTail("\n" + post);
    assert u <= "\n";
    TrimRightIsPrefix(TrimSuffix(TrimRight("\n" + post), ';'));
    assert u == [] || u == "\n";
  }

  lemma StartIgnoresTail(p: string, r: Region, body: string, post: string, cut: string)
    requires StartsAt(p, r, body, post)
    ensures StartsAt(p, r, body, cut)
  {
    SameUpToOpener(p, r, body, post, body, cut);
    ScanIsLocal(p + r.Text(body) + post, p + r.Text(body) + cut, 0, Normal, |p|);
  }

  /** A comment that lost its line break leaves what was written before it. */
  lemma OpenComment(p: string, body: string, post: string, c: string)
    requires Line.Holds(body, 0) && c <= body && StartsAt(p, Line, body, post)
    ensures Stripped(p + "--" + c) == Written(p + Line.Text(body) + post, 0, Normal, |p|)
  {
    var q, q' := p + Line.Text(body) + post, p + "--" + c;
    Assoc(p, "--", c);
    assert Agree(q, q', |p|) by {
      assert q[|p|] == '-' == q'[|p|];
      assert forall k :: 0 <= k < |p| ==> q[k] == p[k] == q'[k];
    }
    ScanIsLocal(q, q', 0, Normal, |p|);
    StripSplits(q', 0, Normal, |p|);
    StripSuffix(p, "--" + c, 0, Normal);
    OpenerIsSkipped(Line, c);
    UnfinishedLineComment(c, 0);
  }

  lemma CutCommentVerdict(pre: string, body: string, body': string, post: string)
    requires Line.Holds(body, 0) && Line.Holds(body', 0) && StartsAt(pre, Line, body, post) && CutTail(post) == []
    ensures Stripped(Core(pre + Line.Text(body) + post)) == Stripped(Core(pre + Line.Text(body') + post))
    ensures Core(pre + Line.Text(body) + post) != "" && Core(pre + Line.Text(body') + post) != ""
  {
    var p := TrimLeft(pre);
    var c := CoreOpensComment(pre, body, post);
    var c' := CoreOpensComment(pre, body', post);
    StartsAfterTrim(pre, Line, body, post);
    SameUpToOpener(p, Line, body, post, body', post);
    ScanIsLocal(p + Line.Text(body) + post, p + Line.Text(body') + post, 0, Normal, |p|);
    OpenComment(p, body, post, c);
    OpenComment(p, body', post, c');
  }

  lemma KeptRegionVerdict(pre: string, r: Region, body: string, body': string, post: string)
    requires r.Valid() && r.Holds(body, 0) && r.Holds(body', 0) && r.Ends(post) && StartsAt(pre, r, body, post)
    requires !(r.Line? && CutTail(post) == [])
    ensures Stripped(Core(pre + r.Text(body) + post)) == Stripped(Core(pre + r.Text(body') + post))
    ensures Core(pre + r.Text(body) + post) != "" && Core(pre + r.Text(body') + post) != ""
  {
    var p, cut := TrimLeft(pre), CutTail(post);
    CoreKeepsRegion(pre, r, body, post);
    CoreKeepsRegion(pre, r, body', post);
    CutTailIsPrefix(post);
    StartsAfterTrim(pre, r, body, post);
    StartIgnoresTail(p, r, body, post, cut);
    StripIgnoresInside(p, r, body, body', cut);
  }

  /** Main result: other well-escaped text inside a closed literal or comment gets the same verdict. */
  lemma VerdictIgnoresInside(pre: string, r: Region, body: string, body': string, post: string)
    requires r.Valid() && r.Holds(body, 0) && r.Holds(body', 0) && r.Ends(post)
    requires StartsAt(pre, r, body, post)
    ensures GateVerdict(pre + r.Text(body) + post) == GateVerdict(pre + r.Text(body') + post)
  {
    if r.Line? && CutTail(post) == [] {
      CutCommentVerdict(pre, body, body', post);
    } else {
      KeptRegionVerdict(pre, r, body, body', post);
    }
  }
}
