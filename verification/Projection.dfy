/**
 * The text projection of server/tools/report_guardrails.go: what a reader sees of a block, and where it stands in the
 * raw text.
 */
module Projection {
  import opened Text

  /** One visible rune and the raw span it comes from. */
  datatype Projected = Projected(value: char, rawStart: nat, rawEnd: nat)

  /** html.UnescapeString; nothing is assumed about it. */
  type Decoder = string -> string

  const MAX_ENTITY := 32

  // ---------- specification ----------

  function Find(runes: string, start: nat, target: char): (r: int)
    ensures r == -1 || start <= r < |runes|
    decreases |runes| - start
  {
    if start >= |runes| then -1 else if runes[start] == target then start else Find(runes, start + 1, target)
  }

  lemma {:induction false} FindIsFirst(runes: string, start: nat, target: char)
    ensures var r := Find(runes, start, target);
            && (r >= 0 ==> runes[r] == target)
            && forall k :: start <= k < |runes| && (r == -1 || k < r) ==> runes[k] != target
    decreases |runes| - start
  {
    if start < |runes| && runes[start] != target { FindIsFirst(runes, start + 1, target); }
  }

  datatype Entity = Entity(text: string, rawEnd: nat)

  /** The decoded entity that starts here, if the decoder changes it. */
  function EntityAt(u: Decoder, runes: string, start: nat): (r: Option<Entity>)
    ensures r.Some? ==> start < |runes| && runes[start] == '&' && start < r.value.rawEnd <= |runes|
                        && r.value.text == u(runes[start..r.value.rawEnd])
  {
    if start >= |runes| || runes[start] != '&' then None else
      var end := Find(runes, start + 1, ';');
      if end < 0 || end - start > MAX_ENTITY || u(runes[start..end + 1]) == runes[start..end + 1] then None
      else Some(Entity(u(runes[start..end + 1]), end + 1))
  }

  function Expand(text: string, a: nat, b: nat): seq<Projected> {
    seq(|text|, i requires 0 <= i < |text| => Projected(text[i], a, b))
  }

  /** Link text: entities that end inside the range are decoded, the rest is kept as it is. */
  function InRange(u: Decoder, runes: string, i: nat, end: nat): seq<Projected>
    requires end <= |runes|
    decreases end - i
  {
    if i >= end then [] else
      var e := EntityAt(u, runes, i);
      if e.Some? && e.value.rawEnd <= end then
        Expand(e.value.text, i, e.value.rawEnd) + InRange(u, runes, e.value.rawEnd, end)
      else [Projected(runes[i], i, i + 1)] + InRange(u, runes, i + 1, end)
  }

  /** `text](target)` from offset i: the ends of text and target. */
  function LinkAt(runes: string, i: nat): (r: Option<(nat, nat)>)
    ensures r.Some? ==> i <= r.value.0 < r.value.1 < |runes|
  {
    var textEnd := Find(runes, i, ']');
    if textEnd < 0 || textEnd + 1 >= |runes| || runes[textEnd + 1] != '(' then None else
      var linkEnd := Find(runes, textEnd + 2, ')');
      if linkEnd < 0 then None else Some((textEnd, linkEnd))
  }

  predicate MarkdownSyntax(runes: string, i: nat)
    requires i < |runes|
  {
    runes[i] == '*' || runes[i] == '`'
    || (runes[i] == '#' && (i == 0 || runes[i - 1] == '\n') && i + 1 < |runes|
      && (runes[i + 1] == ' ' || runes[i + 1] == '#'))
  }

  /** What one iteration projects, and where the next one starts. */
  datatype Chunk = Chunk(out: seq<Projected>, next: nat)

  function ChunkAt(u: Decoder, runes: string, i: nat): (c: Chunk)
    requires i < |runes|
    ensures i < c.next <= |runes|
  {
    var e := EntityAt(u, runes, i);
    var image := if runes[i] == '!' && i + 1 < |runes| && runes[i + 1] == '[' then LinkAt(runes, i + 2) else None;
    var link := if runes[i] == '[' then LinkAt(runes, i + 1) else None;
    if e.Some? then Chunk(Expand(e.value.text, i, e.value.rawEnd), e.value.rawEnd)
    else if runes[i] == '<' && Find(runes, i + 1, '>') >= 0 then Chunk([], Find(runes, i + 1, '>') + 1)
    else if image.Some? then Chunk(InRange(u, runes, i + 2, image.value.0), image.value.1 + 1)
    else if link.Some? then Chunk(InRange(u, runes, i + 1, link.value.0), link.value.1 + 1)
    else if MarkdownSyntax(runes, i) then Chunk([], i + 1)
    else Chunk([Projected(runes[i], i, i + 1)], i + 1)
  }

  function Project(u: Decoder, runes: string, i: nat): seq<Projected>
    decreases |runes| - i
  {
    if i >= |runes| then [] else ChunkAt(u, runes, i).out + Project(u, runes, ChunkAt(u, runes, i).next)
  }

  // ---------- the loops ----------

  method FindRuneForward(runes: string, start: nat, target: char) returns (r: int)
    ensures r == Find(runes, start, target)
  {
    var i := start;
    while i < |runes|
      invariant start <= i && Find(runes, start, target) == Find(runes, i, target)
      decreases |runes| - i
    {
      if runes[i] == target { return i; }
      i := i + 1;
    }
    return -1;
  }

  method AppendProjectedRuneRange(u: Decoder, projected: seq<Projected>, runes: string, start: nat, end: nat)
    returns (r: seq<Projected>)
    requires end <= |runes|
    ensures r == projected + InRange(u, runes, start, end)
  {
    r := projected;
    var i := start;
    while i < end
      invariant r + InRange(u, runes, i, end) == projected + InRange(u, runes, start, end)
      decreases end - i
    {
      var e := EntityAt(u, runes, i);
      if e.Some? && e.value.rawEnd <= end {
        Assoc(r, Expand(e.value.text, i, e.value.rawEnd), InRange(u, runes, e.value.rawEnd, end));
        r := r + Expand(e.value.text, i, e.value.rawEnd);
        i := e.value.rawEnd;
      } else {
        Assoc(r, [Projected(runes[i], i, i + 1)], InRange(u, runes, i + 1, end));
        r := r + [Projected(runes[i], i, i + 1)];
        i := i + 1;
      }
    }
    assert r + [] == r;
  }

  method ProjectReportContentText(u: Decoder, runes: string) returns (r: seq<Projected>)
    ensures r == Project(u, runes, 0)
    ensures Spans(r, 0, |runes|)
  {
    r := [];
    var i := 0;
    assert r + Project(u, runes, 0) == Project(u, runes, 0);
    while i < |runes|
      invariant 0 <= i <= |runes| && r + Project(u, runes, i) == Project(u, runes, 0)
    {
      ghost var c := ChunkAt(u, runes, i);
      Assoc(r, c.out, Project(u, runes, c.next));
      r, i := ProjectNext(u, r, runes, i);
    }
    assert r + [] == r;
    ProjectSpans(u, runes, 0);
  }

  /** The body of the projection loop. */
  method ProjectNext(u: Decoder, projected: seq<Projected>, runes: string, i: nat)
    returns (r: seq<Projected>, next: nat)
    requires i < |runes|
    ensures r == projected + ChunkAt(u, runes, i).out && next == ChunkAt(u, runes, i).next
  {
    var ch := runes[i];
    assert projected + [] == projected;
    if ch == '&' {
      var e := EntityAt(u, runes, i);
      if e.Some? { return projected + Expand(e.value.text, i, e.value.rawEnd), e.value.rawEnd; }
    }
    if ch == '<' {
      var end := FindRuneForward(runes, i + 1, '>');
      if end >= 0 { return projected, end + 1; }
    }
    if ch == '!' && i + 1 < |runes| && runes[i + 1] == '[' {
      var l := FindLink(runes, i + 2);
      if l.Some? {
        r := AppendProjectedRuneRange(u, projected, runes, i + 2, l.value.0);
        return r, l.value.1 + 1;
      }
    }
    if ch == '[' {
      var l := FindLink(runes, i + 1);
      if l.Some? {
        r := AppendProjectedRuneRange(u, projected, runes, i + 1, l.value.0);
        return r, l.value.1 + 1;
      }
    }
    if MarkdownSyntax(runes, i) { return projected, i + 1; }
    return projected + [Projected(ch, i, i + 1)], i + 1;
  }

  method FindLink(runes: string, i: nat) returns (r: Option<(nat, nat)>)
    ensures r == LinkAt(runes, i)
  {
    var textEnd := FindRuneForward(runes, i, ']');
    if textEnd >= 0 && textEnd + 1 < |runes| && runes[textEnd + 1] == '(' {
      var linkEnd := FindRuneForward(runes, textEnd + 2, ')');
      if linkEnd >= 0 { return Some((textEnd, linkEnd)); }
    }
    return None;
  }

  // ---------- spans ----------

  /** Nonempty spans within [lo, hi), in order: two runes share an entity or do not overlap. */
  predicate Spans(p: seq<Projected>, lo: nat, hi: nat) {
    && (forall k :: 0 <= k < |p| ==> lo <= p[k].rawStart < p[k].rawEnd <= hi)
    && (forall j, k :: 0 <= j < k < |p| ==> SameSpan(p[j], p[k]) || p[j].rawEnd <= p[k].rawStart)
  }

  predicate SameSpan(a: Projected, b: Projected) {
    a.rawStart == b.rawStart && a.rawEnd == b.rawEnd
  }

  lemma SpansJoin(a: seq<Projected>, b: seq<Projected>, lo: nat, mid: nat, hi: nat)
    requires Spans(a, lo, mid) && Spans(b, mid, hi) && lo <= mid <= hi
    ensures Spans(a + b, lo, hi)
  {
  }

  lemma ExpandSpans(text: string, a: nat, b: nat)
    requires a < b
    ensures Spans(Expand(text, a, b), a, b)
  {
  }

  lemma {:induction false} InRangeSpans(u: Decoder, runes: string, i: nat, end: nat)
    requires i <= end <= |runes|
    ensures Spans(InRange(u, runes, i, end), i, end)
    decreases end - i
  {
    if i < end {
      var e := EntityAt(u, runes, i);
      if e.Some? && e.value.rawEnd <= end {
        InRangeSpans(u, runes, e.value.rawEnd, end);
        ExpandSpans(e.value.text, i, e.value.rawEnd);
        SpansJoin(Expand(e.value.text, i, e.value.rawEnd), InRange(u, runes, e.value.rawEnd, end),
                  i, e.value.rawEnd, end);
      } else {
        InRangeSpans(u, runes, i + 1, end);
        SpansJoin([Projected(runes[i], i, i + 1)], InRange(u, runes, i + 1, end), i, i + 1, end);
      }
    }
  }

  lemma LinkSpans(u: Decoder, runes: string, lo: nat, i: nat, a: nat, b: nat)
    requires LinkAt(runes, i) == Some((a, b)) && lo <= i
    ensures Spans(InRange(u, runes, i, a), lo, b + 1)
  {
    InRangeSpans(u, runes, i, a);
  }

  lemma LinkChunk(u: Decoder, runes: string, i: nat, a: nat, b: nat)
    requires i < |runes| && runes[i] == '[' && LinkAt(runes, i + 1) == Some((a, b))
    ensures ChunkAt(u, runes, i) == Chunk(InRange(u, runes, i + 1, a), b + 1)
  {
  }

  lemma ImageChunk(u: Decoder, runes: string, i: nat, a: nat, b: nat)
    requires i + 1 < |runes| && runes[i] == '!' && runes[i + 1] == '[' && LinkAt(runes, i + 2) == Some((a, b))
    ensures ChunkAt(u, runes, i) == Chunk(InRange(u, runes, i + 2, a), b + 1)
  {
  }

  lemma ChunkSpans(u: Decoder, runes: string, i: nat)
    requires i < |runes|
    ensures Spans(ChunkAt(u, runes, i).out, i, ChunkAt(u, runes, i).next)
  {
    if runes[i] == '!' && i + 1 < |runes| && runes[i + 1] == '[' && LinkAt(runes, i + 2).Some? {
      var (a, b) := LinkAt(runes, i + 2).value;
      ImageChunk(u, runes, i, a, b);
      LinkSpans(u, runes, i, i + 2, a, b);
    } else if runes[i] == '[' && LinkAt(runes, i + 1).Some? {
      var (a, b) := LinkAt(runes, i + 1).value;
      LinkChunk(u, runes, i, a, b);
      LinkSpans(u, runes, i, i + 1, a, b);
    } else {
      ShortChunkSpans(u, runes, i);
    }
  }

  lemma ShortChunkSpans(u: Decoder, runes: string, i: nat)
    requires i < |runes| && !(runes[i] == '[' && LinkAt(runes, i + 1).Some?)
    requires !(runes[i] == '!' && i + 1 < |runes| && runes[i + 1] == '[' && LinkAt(runes, i + 2).Some?)
    ensures Spans(ChunkAt(u, runes, i).out, i, ChunkAt(u, runes, i).next)
  {
    var e := EntityAt(u, runes, i);
    if e.Some? { ExpandSpans(e.value.text, i, e.value.rawEnd); }
  }

  /** Main result: every content projects to nonempty, ordered spans inside the raw text. */
  lemma {:induction false} ProjectSpans(u: Decoder, runes: string, i: nat)
    requires i <= |runes|
    ensures Spans(Project(u, runes, i), i, |runes|)
    decreases |runes| - i
  {
    if i < |runes| {
      var c := ChunkAt(u, runes, i);
      ChunkSpans(u, runes, i);
      ProjectSpans(u, runes, c.next);
      SpansJoin(c.out, Project(u, runes, c.next), i, c.next, |runes|);
    }
  }

  // ---------- what the runes mean ----------

  /** The rune is the raw rune of its span, or part of what the entity in its span decodes to. */
  predicate Reads(u: Decoder, runes: string, p: Projected) {
    && p.rawStart < p.rawEnd <= |runes|
    && ((p.rawEnd == p.rawStart + 1 && p.value == runes[p.rawStart])
        || (runes[p.rawStart] == '&' && p.value in u(runes[p.rawStart..p.rawEnd])))
  }

  predicate AllRead(u: Decoder, runes: string, s: seq<Projected>) {
    forall k :: 0 <= k < |s| ==> Reads(u, runes, s[k])
  }

  lemma {:induction false} InRangeReads(u: Decoder, runes: string, i: nat, end: nat)
    requires end <= |runes|
    ensures AllRead(u, runes, InRange(u, runes, i, end))
    decreases end - i
  {
    if i < end {
      var e := EntityAt(u, runes, i);
      if e.Some? && e.value.rawEnd <= end {
        InRangeReads(u, runes, e.value.rawEnd, end);
      } else {
        InRangeReads(u, runes, i + 1, end);
      }
    }
  }

  lemma ChunkReads(u: Decoder, runes: string, i: nat)
    requires i < |runes|
    ensures AllRead(u, runes, ChunkAt(u, runes, i).out)
  {
    if runes[i] == '!' && i + 1 < |runes| && runes[i + 1] == '[' && LinkAt(runes, i + 2).Some? {
      InRangeReads(u, runes, i + 2, LinkAt(runes, i + 2).value.0);
    }
    if runes[i] == '[' && LinkAt(runes, i + 1).Some? {
      InRangeReads(u, runes, i + 1, LinkAt(runes, i + 1).value.0);
    }
  }

  /** Every visible rune is readable off its raw span. */
  lemma {:induction false} ProjectReads(u: Decoder, runes: string, i: nat)
    ensures AllRead(u, runes, Project(u, runes, i))
    decreases |runes| - i
  {
    if i < |runes| {
      var c := ChunkAt(u, runes, i);
      ChunkReads(u, runes, i);
      ProjectReads(u, runes, c.next);
    }
  }

  /** Every rune as its own span, from offset i. */
  function Itself(runes: string, i: nat): seq<Projected>
    requires i <= |runes|
  {
    seq(|runes| - i, k requires 0 <= k < |runes| - i => Projected(runes[i + k], i + k, i + k + 1))
  }

  predicate Plain(c: char) {
    c != '&' && c != '<' && c != '!' && c != '[' && c != '*' && c != '`' && c != '#'
  }

  lemma ItselfStep(runes: string, i: nat)
    requires i < |runes|
    ensures Itself(runes, i) == [Projected(runes[i], i, i + 1)] + Itself(runes, i + 1)
  {
  }

  /** Text without markup or entities projects to itself. */
  lemma {:induction false} PlainTextIsItself(u: Decoder, runes: string, i: nat)
    requires i <= |runes| && forall k :: 0 <= k < |runes| ==> Plain(runes[k])
    ensures Project(u, runes, i) == Itself(runes, i)
    decreases |runes| - i
  {
    if i < |runes| {
      ItselfStep(runes, i);
      PlainTextIsItself(u, runes, i + 1);
    }
  }

  // ---------- documents and what is seen of them ----------

  /** s is spelled in the text from offset i on. */
  predicate Spelled(runes: string, i: nat, s: string) {
    i + |s| <= |runes| && forall k :: 0 <= k < |s| ==> s[k] == runes[i + k]
  }

  /** The rune c does not stand between two offsets. */
  predicate Lacks(runes: string, a: nat, b: nat, c: char) {
    b <= |runes| && forall k :: a <= k < b ==> runes[k] != c
  }

  /** The text of a link: characters and entities. */
  datatype Piece = Chars(text: string) | Ref(name: string) {
    function Raw(): string { if Chars? then text else "&" + name + ";" }
    function Len(): nat { if Chars? then |text| else |name| + 2 }
    function Seen(u: Decoder): string { if Chars? then text else u("&" + name + ";") }
  }

  function RawPieces(ps: seq<Piece>): string {
    if ps == [] then "" else ps[0].Raw() + RawPieces(ps[1..])
  }

  function LenPieces(ps: seq<Piece>): nat {
    if ps == [] then 0 else ps[0].Len() + LenPieces(ps[1..])
  }

  function SeenPieces(u: Decoder, ps: seq<Piece>): string {
    if ps == [] then "" else ps[0].Seen(u) + SeenPieces(u, ps[1..])
  }

  /** Parts of a block's text: words, emphasis and heading marks, HTML tags, entities, links and images. */
  datatype Part = Word(text: string) | Mark(c: char) | Tag(inner: string) | EntityRef(name: string)
    | Link(caption: seq<Piece>, target: string) | Image(caption: seq<Piece>, target: string)
  {
    function Raw(): string {
      match this
      case Word(t) => t
      case Mark(c) => [c]
      case Tag(inner) => "<" + inner + ">"
      case EntityRef(n) => "&" + n + ";"
      case Link(t, d) => "[" + RawPieces(t) + "](" + d + ")"
      case Image(t, d) => "![" + RawPieces(t) + "](" + d + ")"
    }
    function Len(): nat {
      match this
      case Word(t) => |t|
      case Mark(_) => 1
      case Tag(inner) => |inner| + 2
      case EntityRef(n) => |n| + 2
      case Link(t, d) => LenPieces(t) + |d| + 4
      case Image(t, d) => LenPieces(t) + |d| + 5
    }
    /** What the reader sees. */
    function Seen(u: Decoder): string {
      match this
      case Word(t) => t
      case Mark(_) => ""
      case Tag(_) => ""
      case EntityRef(n) => u("&" + n + ";")
      case Link(t, _) => SeenPieces(u, t)
      case Image(t, _) => SeenPieces(u, t)
    }
  }

  function RawAll(parts: seq<Part>): string {
    if parts == [] then "" else parts[0].Raw() + RawAll(parts[1..])
  }

  function SeenAll(u: Decoder, parts: seq<Part>): string {
    if parts == [] then "" else parts[0].Seen(u) + SeenAll(u, parts[1..])
  }

  /** An entity that the decoder knows stands at offset j. */
  predicate RefAt(u: Decoder, runes: string, j: nat, n: string) {
    && j + |n| + 2 <= |runes| && runes[j] == '&' && Spelled(runes, j + 1, n) && runes[j + 1 + |n|] == ';'
    && Lacks(n, 0, |n|, ';') && |n| + 1 <= MAX_ENTITY && u("&" + n + ";") != "&" + n + ";"
  }

  ghost predicate RefStands(u: Decoder, runes: string, j: nat, end: nat) {
    exists n {:trigger RefAt(u, runes, j, n)} :: RefAt(u, runes, j, n) && j + |n| + 2 <= end
  }

  ghost predicate NoRefs(u: Decoder, runes: string, a: nat, b: nat, end: nat) {
    forall j: nat :: a <= j < b ==> !RefStands(u, runes, j, end)
  }

  ghost predicate PieceFits(u: Decoder, runes: string, j: nat, end: nat, p: Piece) {
    match p
    case Chars(t) => Spelled(runes, j, t) && NoRefs(u, runes, j, j + |t|, end)
    case Ref(n) => RefAt(u, runes, j, n)
  }

  /** The pieces read the text between two offsets: every entity is a Ref. */
  ghost predicate PiecesFit(u: Decoder, runes: string, j: nat, end: nat, ps: seq<Piece>)
    decreases |ps|
  {
    if ps == [] then j == end
    else PieceFits(u, runes, j, end, ps[0]) && PiecesFit(u, runes, j + ps[0].Len(), end, ps[1..])
  }

  /** n runes of text from offset i on, then `](target)`. */
  predicate Enclosed(runes: string, i: nat, n: nat, d: string) {
    var a := i + n;
    && a + |d| + 3 <= |runes| && Lacks(runes, i, a, ']') && runes[a] == ']' && runes[a + 1] == '('
    && Spelled(runes, a + 2, d) && Lacks(runes, a + 2, a + 2 + |d|, ')') && runes[a + 2 + |d|] == ')'
  }

  /** `text](target)` from offset i on. */
  ghost predicate CaptionAt(u: Decoder, runes: string, i: nat, t: seq<Piece>, d: string) {
    Enclosed(runes, i, LenPieces(t), d) && PiecesFit(u, runes, i, i + LenPieces(t), t)
  }

  /** A piece of markup stands at offset i. */
  ghost predicate Stands(u: Decoder, runes: string, i: nat, p: Part) {
    i < |runes| &&
    match p
    case Word(_) => false
    case Mark(c) =>
      && runes[i] == c
      && (c == '*' || c == '`'
          || (c == '#' && (i == 0 || runes[i - 1] == '\n') && i + 1 < |runes|
            && (runes[i + 1] == ' ' || runes[i + 1] == '#')))
    case Tag(inner) =>
      && i + |inner| + 2 <= |runes| && runes[i] == '<' && Spelled(runes, i + 1, inner)
      && Lacks(runes, i + 1, i + 1 + |inner|, '>') && runes[i + 1 + |inner|] == '>'
    case EntityRef(n) => RefAt(u, runes, i, n)
    case Link(t, d) => runes[i] == '[' && CaptionAt(u, runes, i + 1, t, d)
    case Image(t, d) => i + 1 < |runes| && runes[i] == '!' && runes[i + 1] == '[' && CaptionAt(u, runes, i + 2, t, d)
  }

  ghost predicate Opens(u: Decoder, runes: string, i: nat) {
    exists p :: Stands(u, runes, i, p)
  }

  ghost predicate Inert(u: Decoder, runes: string, a: nat, b: nat) {
    forall i: nat :: a <= i < b ==> !Opens(u, runes, i)
  }

  /** The part stands at offset i; a word is text in which no markup opens. */
  ghost predicate Fits(u: Decoder, runes: string, i: nat, p: Part) {
    if p.Word? then Spelled(runes, i, p.text) && Inert(u, runes, i, i + |p.text|) else Stands(u, runes, i, p)
  }

  /** The parts stand one after the other, from offset i to the end. */
  ghost predicate FitAll(u: Decoder, runes: string, i: nat, parts: seq<Part>)
    decreases |parts|
  {
    if parts == [] then i == |runes|
    else Fits(u, runes, i, parts[0]) && FitAll(u, runes, i + parts[0].Len(), parts[1..])
  }

  // The parts are what the text is made of.

  lemma SpelledJoin(runes: string, i: nat, a: string, b: string)
    requires Spelled(runes, i, a) && Spelled(runes, i + |a|, b)
    ensures Spelled(runes, i, a + b)
  {
    forall k | 0 <= k < |a + b| ensures (a + b)[k] == runes[i + k] {
      if k >= |a| { assert b[k - |a|] == runes[i + |a| + (k - |a|)]; }
    }
  }

  lemma SpelledChar(runes: string, i: nat, c: char)
    requires i < |runes| && runes[i] == c
    ensures Spelled(runes, i, [c])
  {
  }

  lemma SpelledTwo(runes: string, i: nat, a: char, b: char)
    requires i + 1 < |runes| && runes[i] == a && runes[i + 1] == b
    ensures Spelled(runes, i, [a, b])
  {
  }

  lemma RefSpelled(u: Decoder, runes: string, j: nat, n: string)
    requires RefAt(u, runes, j, n)
    ensures Spelled(runes, j, "&" + n + ";")
  {
    SpelledChar(runes, j, '&');
    SpelledJoin(runes, j, "&", n);
    SpelledChar(runes, j + 1 + |n|, ';');
    SpelledJoin(runes, j, "&" + n, ";");
  }

  lemma {:induction false} PiecesSpelled(u: Decoder, runes: string, j: nat, end: nat, ps: seq<Piece>)
    requires PiecesFit(u, runes, j, end, ps) && end <= |runes|
    ensures |RawPieces(ps)| == LenPieces(ps) && Spelled(runes, j, RawPieces(ps)) && j + LenPieces(ps) == end
    decreases |ps|
  {
    if ps != [] {
      if ps[0].Ref? { RefSpelled(u, runes, j, ps[0].name); }
      PiecesSpelled(u, runes, j + ps[0].Len(), end, ps[1..]);
      SpelledJoin(runes, j, ps[0].Raw(), RawPieces(ps[1..]));
    }
  }

  lemma CaptionText(u: Decoder, runes: string, i: nat, t: seq<Piece>, d: string) returns (text: string)
    requires CaptionAt(u, runes, i, t, d)
    ensures text == RawPieces(t) && |text| == LenPieces(t) && Spelled(runes, i, text) && Enclosed(runes, i, |text|, d)
  {
    PiecesSpelled(u, runes, i, i + LenPieces(t), t);
    text := RawPieces(t);
  }

  lemma BracketsSpelled(runes: string, i: nat, open: string, text: string, d: string, start: nat)
    requires start == i + |open| && Spelled(runes, i, open)
    requires Spelled(runes, start, text) && Enclosed(runes, start, |text|, d)
    ensures Spelled(runes, i, open + text + "](" + d + ")")
  {
    SpelledTwo(runes, start + |text|, ']', '(');
    SpelledChar(runes, start + |text| + 2 + |d|, ')');
    SpelledJoin(runes, i, open, text);
    SpelledJoin(runes, i, open + text, "](");
    SpelledJoin(runes, i, open + text + "](", d);
    SpelledJoin(runes, i, open + text + "](" + d, ")");
  }

  lemma LinkSpelled(u: Decoder, runes: string, i: nat, t: seq<Piece>, d: string)
    requires i < |runes| && runes[i] == '[' && CaptionAt(u, runes, i + 1, t, d)
    ensures Spelled(runes, i, Link(t, d).Raw()) && |Link(t, d).Raw()| == Link(t, d).Len()
  {
    SpelledChar(runes, i, '[');
    var text := CaptionText(u, runes, i + 1, t, d);
    BracketsSpelled(runes, i, "[", text, d, i + 1);
  }

  lemma ImageSpelled(u: Decoder, runes: string, i: nat, t: seq<Piece>, d: string)
    requires i + 1 < |runes| && runes[i] == '!' && runes[i + 1] == '[' && CaptionAt(u, runes, i + 2, t, d)
    ensures Spelled(runes, i, Image(t, d).Raw()) && |Image(t, d).Raw()| == Image(t, d).Len()
  {
    SpelledTwo(runes, i, '!', '[');
    var text := CaptionText(u, runes, i + 2, t, d);
    BracketsSpelled(runes, i, "![", text, d, i + 2);
  }

  lemma TagSpelled(runes: string, i: nat, inner: string)
    requires i + |inner| + 2 <= |runes| && runes[i] == '<' && Spelled(runes, i + 1, inner)
             && runes[i + 1 + |inner|] == '>'
    ensures Spelled(runes, i, "<" + inner + ">")
  {
    SpelledChar(runes, i, '<');
    SpelledJoin(runes, i, "<", inner);
    SpelledChar(runes, i + 1 + |inner|, '>');
    SpelledJoin(runes, i, "<" + inner, ">");
  }

  lemma PartSpelled(u: Decoder, runes: string, i: nat, p: Part)
    requires Fits(u, runes, i, p)
    ensures Spelled(runes, i, p.Raw()) && |p.Raw()| == p.Len()
  {
    match p
    case Word(_) =>
    case Mark(c) =>
    case Tag(inner) => TagSpelled(runes, i, inner);
    case EntityRef(n) => RefSpelled(u, runes, i, n);
    case Link(t, d) => LinkSpelled(u, runes, i, t, d);
    case Image(t, d) => ImageSpelled(u, runes, i, t, d);
  }

  lemma {:induction false} PartsSpelled(u: Decoder, runes: string, i: nat, parts: seq<Part>)
    requires FitAll(u, runes, i, parts)
    ensures Spelled(runes, i, RawAll(parts)) && i + |RawAll(parts)| == |runes|
    decreases |parts|
  {
    if parts != [] {
      PartSpelled(u, runes, i, parts[0]);
      PartsSpelled(u, runes, i + parts[0].Len(), parts[1..]);
      SpelledJoin(runes, i, parts[0].Raw(), RawAll(parts[1..]));
    }
  }

  // The code's searches find exactly the markup that stands.

  /** The code takes the rune for the start of some markup. */
  predicate Marked(u: Decoder, runes: string, i: nat)
    requires i < |runes|
  {
    || EntityAt(u, runes, i).Some?
    || (runes[i] == '<' && Find(runes, i + 1, '>') >= 0)
    || (runes[i] == '!' && i + 1 < |runes| && runes[i + 1] == '[' && LinkAt(runes, i + 2).Some?)
    || (runes[i] == '[' && LinkAt(runes, i + 1).Some?)
    || MarkdownSyntax(runes, i)
  }

  lemma FindIs(runes: string, start: nat, r: nat, target: char)
    requires start <= r < |runes| && Lacks(runes, start, r, target) && runes[r] == target
    ensures Find(runes, start, target) == r
  {
    FindIsFirst(runes, start, target);
  }

  lemma RefIsFound(u: Decoder, runes: string, i: nat, n: string)
    requires RefAt(u, runes, i, n)
    ensures EntityAt(u, runes, i) == Some(Entity(u("&" + n + ";"), i + |n| + 2))
  {
    forall k | i + 1 <= k < i + 1 + |n| ensures runes[k] != ';' { assert n[k - i - 1] == runes[i + 1 + (k - i - 1)]; }
    FindIs(runes, i + 1, i + 1 + |n|, ';');
    RefSlice(u, runes, i, n);
  }

  lemma RefSlice(u: Decoder, runes: string, i: nat, n: string)
    requires RefAt(u, runes, i, n)
    ensures runes[i..i + 1 + |n| + 1] == "&" + n + ";"
  {
    RefSpelled(u, runes, i, n);
    var s := "&" + n + ";";
    forall k | 0 <= k < |s| ensures runes[i..i + 1 + |n| + 1][k] == s[k] { }
  }

  /** And an entity the code finds is one that stands. */
  lemma FoundIsRef(u: Decoder, runes: string, i: nat) returns (n: string)
    requires EntityAt(u, runes, i).Some?
    ensures RefAt(u, runes, i, n) && EntityAt(u, runes, i).value == Entity(u("&" + n + ";"), i + |n| + 2)
  {
    var end := Find(runes, i + 1, ';');
    FindIsFirst(runes, i + 1, ';');
    n := runes[i + 1..end];
    assert runes[i..end + 1] == "&" + n + ";";
  }

  lemma NoRefNoEntity(u: Decoder, runes: string, j: nat, end: nat)
    ensures RefStands(u, runes, j, end) <==> EntityAt(u, runes, j).Some? && EntityAt(u, runes, j).value.rawEnd <= end
  {
    if RefStands(u, runes, j, end) {
      var n :| RefAt(u, runes, j, n) && j + |n| + 2 <= end;
      RefIsFound(u, runes, j, n);
    } else if EntityAt(u, runes, j).Some? {
      var n := FoundIsRef(u, runes, j);
    }
  }

  lemma EnclosedIsFound(runes: string, i: nat, n: nat, d: string)
    requires Enclosed(runes, i, n, d)
    ensures LinkAt(runes, i) == Some((i + n, i + n + 2 + |d|))
  {
    FindIs(runes, i, i + n, ']');
    FindIs(runes, i + n + 2, i + n + 2 + |d|, ')');
  }

  // What is seen of link text.

  /** w gives what is seen of the range from each offset on. */
  ghost predicate ShowsRange(u: Decoder, runes: string, end: nat, w: nat -> string) {
    && end <= |runes| && w(end) == ""
    && forall j: nat {:trigger EntityAt(u, runes, j)} :: j < end ==>
         var e := EntityAt(u, runes, j);
         w(j) == if e.Some? && e.value.rawEnd <= end then e.value.text + w(e.value.rawEnd) else [runes[j]] + w(j + 1)
  }

  function RangeView(u: Decoder, runes: string, end: nat): nat -> string
    requires end <= |runes|
  {
    (j: nat) => Values(InRange(u, runes, j, end))
  }

  lemma RangeStep(u: Decoder, runes: string, j: nat, end: nat)
    requires j < end <= |runes|
    ensures var e := EntityAt(u, runes, j);
            Values(InRange(u, runes, j, end)) == if e.Some? && e.value.rawEnd <= end
                                                 then e.value.text + Values(InRange(u, runes, e.value.rawEnd, end))
                                                 else [runes[j]] + Values(InRange(u, runes, j + 1, end))
  {
    var e := EntityAt(u, runes, j);
    if e.Some? && e.value.rawEnd <= end {
      var rest := RangeEntity(u, runes, j, end, e.value);
      ExpandedValues(e.value.text, j, e.value.rawEnd, rest);
    } else {
      var rest := RangeRune(u, runes, j, end);
      ValuesJoin([Projected(runes[j], j, j + 1)], rest);
    }
  }

  lemma RangeEntity(u: Decoder, runes: string, j: nat, end: nat, e: Entity) returns (rest: seq<Projected>)
    requires j < end <= |runes| && EntityAt(u, runes, j) == Some(e) && e.rawEnd <= end
    ensures rest == InRange(u, runes, e.rawEnd, end) && InRange(u, runes, j, end) == Expand(e.text, j, e.rawEnd) + rest
  {
    rest := InRange(u, runes, e.rawEnd, end);
  }

  lemma RangeRune(u: Decoder, runes: string, j: nat, end: nat) returns (rest: seq<Projected>)
    requires j < end <= |runes| && !(EntityAt(u, runes, j).Some? && EntityAt(u, runes, j).value.rawEnd <= end)
    ensures rest == InRange(u, runes, j + 1, end)
    ensures InRange(u, runes, j, end) == [Projected(runes[j], j, j + 1)] + rest
  {
    rest := InRange(u, runes, j + 1, end);
  }

  lemma ExpandedValues(text: string, a: nat, b: nat, rest: seq<Projected>)
    ensures Values(Expand(text, a, b) + rest) == text + Values(rest)
  {
    ValuesJoin(Expand(text, a, b), rest);
    assert Values(Expand(text, a, b)) == text;
  }

  lemma SomeRangeView(u: Decoder, runes: string, start: nat, end: nat) returns (w: nat -> string)
    requires end <= |runes|
    ensures ShowsRange(u, runes, end, w) && w(start) == Values(InRange(u, runes, start, end))
  {
    w := RangeView(u, runes, end);
    forall j: nat | j < end
      ensures var e := EntityAt(u, runes, j);
              w(j) == if e.Some? && e.value.rawEnd <= end then e.value.text + w(e.value.rawEnd)
                else [runes[j]] + w(j + 1)
    {
      RangeStep(u, runes, j, end);
    }
  }

  lemma RangeChar(u: Decoder, runes: string, w: nat -> string, j: nat, end: nat)
    requires ShowsRange(u, runes, end, w) && j < end && !RefStands(u, runes, j, end)
    ensures w(j) == [runes[j]] + w(j + 1)
  {
    NoRefNoEntity(u, runes, j, end);
  }

  lemma FirstOfSlice(runes: string, j: nat, b: nat, rest: string)
    requires j < b <= |runes|
    ensures runes[j..b] + rest == [runes[j]] + (runes[j + 1..b] + rest)
  {
  }

  lemma {:induction false} RangeChars(u: Decoder, runes: string, w: nat -> string, j: nat, b: nat, end: nat)
    requires ShowsRange(u, runes, end, w) && j <= b <= end && NoRefs(u, runes, j, b, end)
    ensures w(j) == runes[j..b] + w(b)
    decreases b - j
  {
    if j < b {
      RangeChar(u, runes, w, j, end);
      RangeChars(u, runes, w, j + 1, b, end);
      FirstOfSlice(runes, j, b, w(b));
    }
  }

  lemma SpelledSlice(runes: string, i: nat, s: string)
    requires Spelled(runes, i, s)
    ensures runes[i..i + |s|] == s
  {
  }

  lemma PieceIsSeen(u: Decoder, runes: string, w: nat -> string, j: nat, end: nat, p: Piece)
    requires ShowsRange(u, runes, end, w) && j + p.Len() <= end && PieceFits(u, runes, j, end, p)
    ensures w(j) == p.Seen(u) + w(j + p.Len())
  {
    match p
    case Chars(t) => RangeChars(u, runes, w, j, j + |t|, end); SpelledSlice(runes, j, t);
    case Ref(n) => RefIsFound(u, runes, j, n);
  }

  lemma {:induction false} PiecesFitWithin(u: Decoder, runes: string, j: nat, end: nat, ps: seq<Piece>)
    requires PiecesFit(u, runes, j, end, ps)
    ensures j <= end && (ps != [] ==> j + ps[0].Len() <= end)
    decreases |ps|
  {
    if ps != [] { PiecesFitWithin(u, runes, j + ps[0].Len(), end, ps[1..]); }
  }

  lemma {:induction false} PiecesShow(u: Decoder, runes: string, w: nat -> string, j: nat, end: nat, ps: seq<Piece>)
    requires ShowsRange(u, runes, end, w) && PiecesFit(u, runes, j, end, ps)
    ensures w(j) == SeenPieces(u, ps)
    decreases |ps|
  {
    if ps != [] {
      PiecesFitWithin(u, runes, j, end, ps);
      PieceIsSeen(u, runes, w, j, end, ps[0]);
      PiecesShow(u, runes, w, j + ps[0].Len(), end, ps[1..]);
    }
  }

  lemma NextPiece(u: Decoder, runes: string, j: nat, end: nat) returns (p: Piece)
    requires j < end <= |runes|
    ensures PieceFits(u, runes, j, end, p) && 0 < p.Len() <= end - j
  {
    NoRefNoEntity(u, runes, j, end);
    if RefStands(u, runes, j, end) {
      var n :| RefAt(u, runes, j, n) && j + |n| + 2 <= end;
      p := Ref(n);
    } else {
      p := Chars([runes[j]]);
    }
  }

  /** Every range of text is made of pieces. */
  lemma {:induction false} SplitRange(u: Decoder, runes: string, j: nat, end: nat) returns (ps: seq<Piece>)
    requires j <= end <= |runes|
    ensures PiecesFit(u, runes, j, end, ps) && LenPieces(ps) == end - j
    decreases end - j
  {
    ps := [];
    if j < end {
      var p := NextPiece(u, runes, j, end);
      var rest := SplitRange(u, runes, j + p.Len(), end);
      ps := [p] + rest;
      assert ps[0] == p && ps[1..] == rest;
    }
  }

  // What is seen of one part.

  /** v gives what is seen from each offset on, chunk by chunk. */
  ghost predicate Shows(u: Decoder, runes: string, v: nat -> string) {
    && v(|runes|) == ""
    && forall i: nat {:trigger ChunkAt(u, runes, i)} :: i < |runes| ==>
         v(i) == Values(ChunkAt(u, runes, i).out) + v(ChunkAt(u, runes, i).next)
  }

  function View(u: Decoder, runes: string): nat -> string {
    (i: nat) => Values(Project(u, runes, i))
  }

  lemma ViewShows(u: Decoder, runes: string)
    ensures Shows(u, runes, View(u, runes))
  {
    forall i: nat | i < |runes|
      ensures View(u, runes)(i) == Values(ChunkAt(u, runes, i).out) + View(u, runes)(ChunkAt(u, runes, i).next)
    {
      ValuesJoin(ChunkAt(u, runes, i).out, Project(u, runes, ChunkAt(u, runes, i).next));
    }
  }

  lemma ValuesJoin(a: seq<Projected>, b: seq<Projected>)
    ensures Values(a + b) == Values(a) + Values(b)
  {
  }

  lemma LinkStep(u: Decoder, runes: string, v: nat -> string, i: nat, a: nat, b: nat)
    requires Shows(u, runes, v) && i < |runes| && runes[i] == '[' && LinkAt(runes, i + 1) == Some((a, b))
    ensures v(i) == Values(InRange(u, runes, i + 1, a)) + v(b + 1)
  {
    LinkChunk(u, runes, i, a, b);
  }

  lemma ImageStep(u: Decoder, runes: string, v: nat -> string, i: nat, a: nat, b: nat)
    requires Shows(u, runes, v) && i + 1 < |runes| && runes[i] == '!' && runes[i + 1] == '['
    requires LinkAt(runes, i + 2) == Some((a, b))
    ensures v(i) == Values(InRange(u, runes, i + 2, a)) + v(b + 1)
  {
    ImageChunk(u, runes, i, a, b);
  }

  /** A link or image shows its text, w, and then what follows it. */
  lemma LinkFound(u: Decoder, runes: string, v: nat -> string, i: nat, start: nat, a: nat, b: nat)
    returns (w: nat -> string)
    requires Shows(u, runes, v) && i < |runes| && LinkAt(runes, start) == Some((a, b))
    requires (runes[i] == '[' && start == i + 1)
             || (runes[i] == '!' && start == i + 2 <= |runes| && runes[i + 1] == '[')
    ensures ShowsRange(u, runes, a, w) && v(i) == w(start) + v(b + 1)
  {
    if runes[i] == '[' { LinkStep(u, runes, v, i, a, b); } else { ImageStep(u, runes, v, i, a, b); }
    w := SomeRangeView(u, runes, start, a);
  }

  lemma CaptionIsSeen(u: Decoder, runes: string, v: nat -> string, i: nat, start: nat, t: seq<Piece>, d: string)
    returns (seen: string, next: nat)
    requires Shows(u, runes, v) && i < |runes| && CaptionAt(u, runes, start, t, d)
    requires (runes[i] == '[' && start == i + 1)
             || (runes[i] == '!' && start == i + 2 <= |runes| && runes[i + 1] == '[')
    ensures seen == SeenPieces(u, t) && next == start + LenPieces(t) + |d| + 3 && v(i) == seen + v(next)
  {
    var w := EnclosedIsSeen(u, runes, v, i, start, LenPieces(t), d);
    PiecesShow(u, runes, w, start, start + LenPieces(t), t);
    seen, next := w(start), start + LenPieces(t) + |d| + 3;
  }

  lemma EnclosedIsSeen(u: Decoder, runes: string, v: nat -> string, i: nat, start: nat, n: nat, d: string)
    returns (w: nat -> string)
    requires Shows(u, runes, v) && i < |runes| && Enclosed(runes, start, n, d)
    requires (runes[i] == '[' && start == i + 1)
             || (runes[i] == '!' && start == i + 2 <= |runes| && runes[i + 1] == '[')
    ensures ShowsRange(u, runes, start + n, w) && v(i) == w(start) + v(start + n + |d| + 3)
  {
    EnclosedIsFound(runes, start, n, d);
    w := LinkFound(u, runes, v, i, start, start + n, start + n + 2 + |d|);
  }

  lemma MarkIsSeen(u: Decoder, runes: string, v: nat -> string, i: nat)
    requires Shows(u, runes, v) && i < |runes| && MarkdownSyntax(runes, i)
    ensures v(i) == v(i + 1)
  {
    assert ChunkAt(u, runes, i) == Chunk([], i + 1);
  }

  lemma TagIsSeen(u: Decoder, runes: string, v: nat -> string, i: nat, n: nat)
    requires Shows(u, runes, v) && i + n + 1 < |runes| && runes[i] == '<' && Lacks(runes, i + 1, i + 1 + n, '>')
    requires runes[i + 1 + n] == '>'
    ensures v(i) == v(i + n + 2)
  {
    FindIs(runes, i + 1, i + 1 + n, '>');
    assert ChunkAt(u, runes, i) == Chunk([], i + n + 2);
  }

  lemma EntityIsSeen(u: Decoder, runes: string, v: nat -> string, i: nat, n: string)
    requires Shows(u, runes, v) && RefAt(u, runes, i, n)
    ensures v(i) == u("&" + n + ";") + v(i + |n| + 2)
  {
    RefIsFound(u, runes, i, n);
    var text := u("&" + n + ";");
    assert ChunkAt(u, runes, i) == Chunk(Expand(text, i, i + |n| + 2), i + |n| + 2);
    assert Values(Expand(text, i, i + |n| + 2)) == text;
  }

  /** Markup that stands shows what it should. */
  lemma StandsIsSeen(u: Decoder, runes: string, v: nat -> string, i: nat, p: Part) returns (seen: string, next: nat)
    requires Shows(u, runes, v) && Stands(u, runes, i, p)
    ensures seen == p.Seen(u) && next == i + p.Len() && v(i) == seen + v(next)
  {
    match p
    case Link(t, d) => seen, next := CaptionIsSeen(u, runes, v, i, i + 1, t, d);
    case Image(t, d) => seen, next := CaptionIsSeen(u, runes, v, i, i + 2, t, d);
    case _ => seen, next := ShortMarkupIsSeen(u, runes, v, i, p);
  }

  lemma ShortMarkupIsSeen(u: Decoder, runes: string, v: nat -> string, i: nat, p: Part)
    returns (seen: string, next: nat)
    requires Shows(u, runes, v) && Stands(u, runes, i, p) && (p.Mark? || p.Tag? || p.EntityRef?)
    ensures seen == p.Seen(u) && next == i + p.Len() && v(i) == seen + v(next)
  {
    seen, next := p.Seen(u), i + p.Len();
    match p
    case Mark(_) => MarkIsSeen(u, runes, v, i);
    case Tag(inner) => TagIsSeen(u, runes, v, i, |inner|);
    case EntityRef(n) => EntityIsSeen(u, runes, v, i, n);
  }

  /** Markup that stands is found. */
  lemma StandsIsMarked(u: Decoder, runes: string, i: nat, p: Part)
    requires Stands(u, runes, i, p)
    ensures i < |runes| && Marked(u, runes, i)
  {
    match p
    case Mark(_) =>
    case Tag(inner) => FindIs(runes, i + 1, i + 1 + |inner|, '>');
    case EntityRef(n) => RefIsFound(u, runes, i, n);
    case Link(t, d) => EnclosedIsFound(runes, i + 1, LenPieces(t), d);
    case Image(t, d) => EnclosedIsFound(runes, i + 2, LenPieces(t), d);
  }

  lemma SliceSpelled(runes: string, a: nat, b: nat)
    requires a <= b <= |runes|
    ensures Spelled(runes, a, runes[a..b])
  {
  }

  lemma FoundIsCaption(u: Decoder, runes: string, i: nat) returns (t: seq<Piece>, d: string)
    requires LinkAt(runes, i).Some?
    ensures CaptionAt(u, runes, i, t, d)
  {
    var (a, b) := LinkAt(runes, i).value;
    FindIsFirst(runes, i, ']');
    FindIsFirst(runes, a + 2, ')');
    t := SplitRange(u, runes, i, a);
    d := runes[a + 2..b];
    SliceSpelled(runes, a + 2, b);
  }

  lemma TagStands(u: Decoder, runes: string, i: nat) returns (p: Part)
    requires i < |runes| && runes[i] == '<' && Find(runes, i + 1, '>') >= 0
    ensures Stands(u, runes, i, p)
  {
    var end := Find(runes, i + 1, '>');
    FindIsFirst(runes, i + 1, '>');
    p := Tag(runes[i + 1..end]);
    SliceSpelled(runes, i + 1, end);
  }

  /** And what the code finds stands there. */
  lemma MarkedStands(u: Decoder, runes: string, i: nat) returns (p: Part)
    requires i < |runes| && Marked(u, runes, i)
    ensures Stands(u, runes, i, p)
  {
    if EntityAt(u, runes, i).Some? {
      var n := FoundIsRef(u, runes, i);
      p := EntityRef(n);
    } else if runes[i] == '<' && Find(runes, i + 1, '>') >= 0 {
      p := TagStands(u, runes, i);
    } else if runes[i] == '!' && i + 1 < |runes| && runes[i + 1] == '[' && LinkAt(runes, i + 2).Some? {
      var t, d := FoundIsCaption(u, runes, i + 2);
      p := Image(t, d);
    } else if runes[i] == '[' && LinkAt(runes, i + 1).Some? {
      var t, d := FoundIsCaption(u, runes, i + 1);
      p := Link(t, d);
    } else {
      p := Mark(runes[i]);
    }
  }

  /** The code takes a rune for markup exactly when markup stands there. */
  lemma OpensIffMarked(u: Decoder, runes: string, i: nat)
    ensures Opens(u, runes, i) <==> i < |runes| && Marked(u, runes, i)
  {
    if i < |runes| && Marked(u, runes, i) {
      var p := MarkedStands(u, runes, i);
    } else if Opens(u, runes, i) {
      var p :| Stands(u, runes, i, p);
      StandsIsMarked(u, runes, i, p);
    }
  }

  // What is seen of the whole text.

  lemma CharIsSeen(u: Decoder, runes: string, v: nat -> string, i: nat)
    requires Shows(u, runes, v) && i < |runes| && !Marked(u, runes, i)
    ensures v(i) == [runes[i]] + v(i + 1)
  {
    assert ChunkAt(u, runes, i) == Chunk([Projected(runes[i], i, i + 1)], i + 1);
  }

  lemma {:induction false} WordIsSeen(u: Decoder, runes: string, v: nat -> string, i: nat, b: nat)
    requires Shows(u, runes, v) && i <= b <= |runes| && Inert(u, runes, i, b)
    ensures v(i) == runes[i..b] + v(b)
    decreases b - i
  {
    if i < b {
      OpensIffMarked(u, runes, i);
      CharIsSeen(u, runes, v, i);
      WordIsSeen(u, runes, v, i + 1, b);
      FirstOfSlice(runes, i, b, v(b));
    }
  }

  lemma PartIsSeen(u: Decoder, runes: string, v: nat -> string, i: nat, p: Part) returns (seen: string, next: nat)
    requires Shows(u, runes, v) && Fits(u, runes, i, p)
    ensures seen == p.Seen(u) && next == i + p.Len() && v(i) == seen + v(next)
  {
    if p.Word? {
      WordIsSeen(u, runes, v, i, i + |p.text|);
      SpelledSlice(runes, i, p.text);
      seen, next := p.text, i + |p.text|;
    } else {
      seen, next := StandsIsSeen(u, runes, v, i, p);
    }
  }

  lemma {:induction false} PartsAreSeen(u: Decoder, runes: string, v: nat -> string, i: nat, parts: seq<Part>)
    requires Shows(u, runes, v) && FitAll(u, runes, i, parts)
    ensures v(i) == SeenAll(u, parts)
    decreases |parts|
  {
    if parts != [] {
      var seen, next := PartIsSeen(u, runes, v, i, parts[0]);
      PartsAreSeen(u, runes, v, next, parts[1..]);
    }
  }

  /**
   * Main result: a text made of these parts shows exactly what the parts show: the words, the decoded entities and the
   * texts of links and images, and nothing of marks, tags and targets.
   */
  lemma DocumentIsSeen(u: Decoder, runes: string, parts: seq<Part>)
    requires FitAll(u, runes, 0, parts)
    ensures RawAll(parts) == runes && Values(Project(u, runes, 0)) == SeenAll(u, parts)
  {
    PartsSpelled(u, runes, 0, parts);
    ViewShows(u, runes);
    PartsAreSeen(u, runes, View(u, runes), 0, parts);
  }

  lemma NextPart(u: Decoder, runes: string, i: nat) returns (p: Part)
    requires i < |runes|
    ensures Fits(u, runes, i, p) && 0 < p.Len() <= |runes| - i
  {
    if Opens(u, runes, i) {
      p :| Stands(u, runes, i, p);
      PartSpelled(u, runes, i, p);
    } else {
      p := Word([runes[i]]);
    }
  }

  lemma {:induction false} SplitText(u: Decoder, runes: string, i: nat) returns (parts: seq<Part>)
    requires i <= |runes|
    ensures FitAll(u, runes, i, parts)
    decreases |runes| - i
  {
    parts := [];
    if i < |runes| {
      var p := NextPart(u, runes, i);
      var rest := SplitText(u, runes, i + p.Len());
      parts := [p] + rest;
      assert parts[0] == p && parts[1..] == rest;
    }
  }

  /** Main result: every text is made of such parts. */
  lemma EveryTextIsADocument(u: Decoder, runes: string) returns (parts: seq<Part>)
    ensures FitAll(u, runes, 0, parts)
    ensures RawAll(parts) == runes && Values(Project(u, runes, 0)) == SeenAll(u, parts)
  {
    parts := SplitText(u, runes, 0);
    DocumentIsSeen(u, runes, parts);
  }

  function Hashes(n: nat): string {
    seq(n, _ => '#')
  }

  lemma AfterMark(u: Decoder, runes: string)
    requires |runes| > 1 && runes[0] == '#' && (runes[1] == ' ' || runes[1] == '#') && Inert(u, runes, 1, |runes|)
    ensures Values(Project(u, runes, 0)) == runes[1..]
  {
    var v := View(u, runes);
    ViewShows(u, runes);
    MarkIsSeen(u, runes, v, 0);
    WordIsSeen(u, runes, v, 1, |runes|);
    assert runes[1..|runes|] == runes[1..] && runes[1..] + "" == runes[1..];
  }

  lemma HeadingInert(u: Decoder, n: nat, title: string)
    requires n > 0 && forall k :: 0 <= k < |title| ==> Plain(title[k])
    ensures Inert(u, Hashes(n) + " " + title, 1, |Hashes(n) + " " + title|)
  {
    var runes := Hashes(n) + " " + title;
    forall i: nat | 1 <= i < |runes| ensures !Opens(u, runes, i) {
      OpensIffMarked(u, runes, i);
    }
  }

  lemma HeadingSplits(n: nat, title: string)
    requires n > 0
    ensures var runes := Hashes(n) + " " + title;
            runes[0] == '#' && (runes[1] == ' ' || runes[1] == '#') && runes[1..] == Hashes(n - 1) + " " + title
  {
    var runes := Hashes(n) + " " + title;
    assert n == 1 ==> runes[1] == ' ';
    assert Hashes(n)[1..] == Hashes(n - 1);
  }

  /** A heading loses only the first of its number signs. */
  lemma HeadingKeepsHashes(u: Decoder, n: nat, title: string)
    requires n > 0 && forall k :: 0 <= k < |title| ==> Plain(title[k])
    ensures Values(Project(u, Hashes(n) + " " + title, 0)) == Hashes(n - 1) + " " + title
  {
    HeadingInert(u, n, title);
    HeadingSplits(n, title);
    AfterMark(u, Hashes(n) + " " + title);
  }

  // ---------- selections ----------

  /** normalizeSelectionCompareText: runs of space become one blank, none at the ends. */
  function Normalize(s: string): string {
    if s == [] then "" else
      var n := |s| - 1;
      var front := Normalize(s[..n]);
      if IsSpace(s[n]) then front
      else front + (if n > 0 && IsSpace(s[n - 1]) && front != "" then " " else "") + [s[n]]
  }

  predicate Visible(c: char) { !IsSpace(c) }

  /** The words of a text: its maximal runs of characters other than space. */
  function Words(s: string): seq<string> {
    Runs(s, Visible)
  }

  /** Words with one blank between them. */
  function Join(words: seq<string>): string {
    if words == [] then "" else if |words| == 1 then words[0]
    else Join(words[..|words| - 1]) + " " + words[|words| - 1]
  }

  lemma JoinSnoc(words: seq<string>, w: string)
    ensures Join(words + [w]) == if words == [] then w else Join(words) + " " + w
  {
    assert (words + [w])[..|words|] == words;
  }

  lemma JoinExtended(words: seq<string>, c: char)
    requires words != []
    ensures Join(Extended(words, c)) == Join(words) + [c]
  {
    var n := |words| - 1;
    assert words == words[..n] + [words[n]];
    JoinSnoc(words[..n], words[n]);
    JoinSnoc(words[..n], words[n] + [c]);
  }

  lemma JoinEmpty(words: seq<string>)
    requires forall w :: w in words ==> w != ""
    ensures Join(words) == "" <==> words == []
  {
    if words != [] { assert words[|words| - 1] in words; }
  }

  /** Normalizing keeps the words and writes one blank between them. */
  lemma {:induction false} NormalizeJoinsWords(s: string)
    ensures Normalize(s) == Join(Words(s))
  {
    if s != [] {
      var n := |s| - 1;
      var front := Words(s[..n]);
      NormalizeJoinsWords(s[..n]);
      RunsAreSolid(s[..n], Visible);
      JoinEmpty(front);
      if Visible(s[n]) {
        if n > 0 && Visible(s[n - 1]) {
          assert s[..n] != [] && Visible(s[..n][n - 1]);
          JoinExtended(front, s[n]);
        } else {
          JoinSnoc(front, [s[n]]);
          if n == 0 { assert s[..0] == []; }
        }
      }
    }
  }

  lemma WordsOfPair(front: seq<string>, last: string)
    requires Words(Join(front)) == front && last != "" && Solid(last, Visible)
    ensures Words(Join(front) + " " + last) == front + [last]
  {
    RunsOne(last, Visible);
    RunsSplit(Join(front), ' ', last, Visible);
  }

  lemma {:induction false} WordsOfJoin(words: seq<string>)
    requires forall w :: w in words ==> w != "" && Solid(w, Visible)
    ensures Words(Join(words)) == words
  {
    if |words| == 1 {
      assert words[0] in words;
      RunsOne(words[0], Visible);
    } else if words != [] {
      var n := |words| - 1;
      var front, last := words[..n], words[n];
      assert last in words && forall w :: w in front ==> w in words;
      WordsOfJoin(front);
      WordsOfPair(front, last);
      assert words == front + [last];
    }
  }

  /** Main result: two texts normalize to the same text exactly when they have the same words. */
  lemma NormalizeComparesWords(x: string, y: string)
    ensures Normalize(x) == Normalize(y) <==> Words(x) == Words(y)
    ensures Normalize(x) == "" <==> Words(x) == []
  {
    NormalizeJoinsWords(x);
    NormalizeJoinsWords(y);
    RunsAreSolid(x, Visible);
    RunsAreSolid(y, Visible);
    WordsOfJoin(Words(x));
    WordsOfJoin(Words(y));
    JoinEmpty(Words(x));
  }

  method NormalizeSelectionCompareText(value: string) returns (b: string)
    ensures b == Normalize(value)
  {
    b := "";
    var inSpace := false;
    for i := 0 to |value|
      invariant b == Normalize(value[..i])
      invariant inSpace <==> i > 0 && IsSpace(value[i - 1])
    {
      assert value[..i + 1][..i] == value[..i];
      if IsSpace(value[i]) {
        inSpace := true;
      } else {
        if inSpace && b != "" { b := b + " "; }
        inSpace := false;
        b := b + [value[i]];
      }
    }
    assert value[..|value|] == value;
  }

  function Values(p: seq<Projected>): string {
    seq(|p|, k requires 0 <= k < |p| => p[k].value)
  }

  datatype Selection = Selection(text: string, start: int, end: int, rangeSet: bool)

  /** The raw range of a selection in a projection; None when the selection does not match it. */
  function BoundsIn(p: seq<Projected>, s: Selection): (r: Option<(nat, nat)>)
    ensures r.Some? ==> 0 <= s.start < s.end <= |p| && r.value == (p[s.start].rawStart, p[s.end - 1].rawEnd)
  {
    if p == [] || Normalize(s.text) == "" then None
    else if !s.rangeSet || s.end <= s.start || s.start < 0 || s.end > |p| then None
    else if Normalize(Values(p[s.start..s.end])) != Normalize(s.text) then None
    else Some((p[s.start].rawStart, p[s.end - 1].rawEnd))
  }

  lemma BoundsAreProper(p: seq<Projected>, hi: nat, s: Selection)
    requires Spans(p, 0, hi) && BoundsIn(p, s).Some?
    ensures BoundsIn(p, s).value.0 < BoundsIn(p, s).value.1 <= hi
  {
  }

  /** The raw range of a selection, never empty. */
  function SelectionBounds(u: Decoder, original: string, s: Selection): (r: Option<(nat, nat)>)
    ensures r.Some? ==> r.value.0 < r.value.1 <= |original|
  {
    var p := Project(u, original, 0);
    ProjectSpans(u, original, 0);
    if BoundsIn(p, s).Some? then BoundsAreProper(p, |original|, s); BoundsIn(p, s) else None
  }

  /**
   * Main result: a selection is accepted, with the raw span of its first and last rune, if and only if its range is set
   * and proper, it has a word, and the words seen in the range are its words.
   */
  lemma SelectionMatches(u: Decoder, original: string, s: Selection, p: seq<Projected>, a: nat, b: nat)
    requires p == Project(u, original, 0)
    ensures SelectionBounds(u, original, s) == Some((a, b)) <==>
              && s.rangeSet && 0 <= s.start < s.end <= |p| && Words(s.text) != []
              && Words(Values(p[s.start..s.end])) == Words(s.text)
              && a == p[s.start].rawStart && b == p[s.end - 1].rawEnd
  {
    BoundsAre(u, original, s, p);
    MatchesIn(p, s, a, b);
  }

  lemma MatchesIn(p: seq<Projected>, s: Selection, a: nat, b: nat)
    ensures BoundsIn(p, s) == Some((a, b)) <==>
              && s.rangeSet && 0 <= s.start < s.end <= |p| && Words(s.text) != []
              && Words(Values(p[s.start..s.end])) == Words(s.text)
              && a == p[s.start].rawStart && b == p[s.end - 1].rawEnd
  {
    if 0 <= s.start < s.end <= |p| { NormalizeComparesWords(Values(p[s.start..s.end]), s.text); }
    NormalizeComparesWords(s.text, s.text);
  }

  lemma BoundsAre(u: Decoder, original: string, s: Selection, p: seq<Projected>)
    requires p == Project(u, original, 0)
    ensures SelectionBounds(u, original, s) == BoundsIn(p, s)
  {
  }

  method SelectionBoundsFromProjectedText(u: Decoder, original: string, s: Selection) returns (r: Option<(nat, nat)>)
    ensures r == SelectionBounds(u, original, s)
    ensures r.Some? ==> r.value.0 < r.value.1 <= |original|
  {
    var p := ProjectReportContentText(u, original);
    r := BoundsOfSelection(p, s);
  }

  /** The checks on the projected text. */
  method BoundsOfSelection(p: seq<Projected>, s: Selection) returns (r: Option<(nat, nat)>)
    ensures r == BoundsIn(p, s)
  {
    if |p| == 0 { return None; }
    var needle := NormalizeSelectionCompareText(s.text);
    if needle == "" { return None; }
    if !s.rangeSet || s.end <= s.start || s.start < 0 || s.end > |p| { return None; }
    var selected := NormalizeSelectionCompareText(Values(p[s.start..s.end]));
    if selected != needle { return None; }
    return Some((p[s.start].rawStart, p[s.end - 1].rawEnd));
  }

  /**
   * Main result: everything visible outside the selection stands in the raw prefix or suffix, unless it shares an
   * entity with it.
   */
  lemma RestOfTextIsOutside(u: Decoder, original: string, s: Selection, p: seq<Projected>, a: nat, b: nat, k: nat)
    requires p == Project(u, original, 0) && SelectionBounds(u, original, s) == Some((a, b)) && k < |p|
    ensures 0 <= s.start < s.end <= |p|
    ensures k < s.start ==> p[k].rawEnd <= a || SameSpan(p[k], p[s.start])
    ensures s.start <= k < s.end ==> a <= p[k].rawStart && p[k].rawEnd <= b
    ensures s.end <= k ==> b <= p[k].rawStart || SameSpan(p[k], p[s.end - 1])
  {
    ProjectSpans(u, original, 0);
    OutsideBounds(p, |original|, s, a, b, k);
  }

  lemma OutsideBounds(p: seq<Projected>, hi: nat, s: Selection, a: nat, b: nat, k: nat)
    requires Spans(p, 0, hi) && BoundsIn(p, s) == Some((a, b)) && k < |p|
    ensures 0 <= s.start < s.end <= |p|
    ensures k < s.start ==> p[k].rawEnd <= a || SameSpan(p[k], p[s.start])
    ensures s.start <= k < s.end ==> a <= p[k].rawStart && p[k].rawEnd <= b
    ensures s.end <= k ==> b <= p[k].rawStart || SameSpan(p[k], p[s.end - 1])
  {
    OutsideSpans(p, hi, s.start, s.end, k);
  }

  lemma OutsideSpans(p: seq<Projected>, hi: nat, start: int, end: int, k: nat)
    requires Spans(p, 0, hi) && 0 <= start < end <= |p| && k < |p|
    ensures k < start ==> p[k].rawEnd <= p[start].rawStart || SameSpan(p[k], p[start])
    ensures start <= k < end ==> p[start].rawStart <= p[k].rawStart && p[k].rawEnd <= p[end - 1].rawEnd
    ensures end <= k ==> p[end - 1].rawEnd <= p[k].rawStart || SameSpan(p[k], p[end - 1])
  {
  }
}
