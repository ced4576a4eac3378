/** Time-column inference of server/data/schema.go: its answer does not depend on the order in which Go walks a map. */
module TimeColumns {
  import opened Text

  datatype Grain = Day | Month | Quarter | Year

  datatype Info = Info(grain: Grain, start: string, end: string, distinctPeriods: int, samples: seq<string>)

  // ---------- one value ----------

  predicate Digit(c: char) { '0' <= c <= '9' }

  /** The pattern's 'd' stands for a digit, every other character for itself. */
  predicate Matches(s: string, pattern: string) {
    |s| == |pattern| && forall i :: 0 <= i < |s| ==> if pattern[i] == 'd' then Digit(s[i]) else s[i] == pattern[i]
  }

  function Dashes(s: string): string {
    seq(|s|, i requires 0 <= i < |s| => if s[i] == '/' then '-' else s[i])
  }

  /** A normalized value: its grain and canonical form. */
  datatype Period = Period(grain: Grain, canonical: string)

  predicate IsQuarter(s: string) {
    var n := |s|;
    n >= 6 && '1' <= s[n - 1] <= '4' && s[n - 2] == 'Q' && Matches(s[..4], "dddd")
      && (n == 6 || (n == 7 && s[4] in "-/ "))
  }

  /**
   * The texts that stand for a period, in upper case: with either separator or none, and with none only if the name
   * suggests a time column.
   */
  function Spellings(nameHint: bool, p: Period): set<string> {
    var c := p.canonical;
    if !Matches(c, Shape(p.grain)) then {} else
    match p.grain
    case Day =>
      {c, c[..4] + "/" + c[5..7] + "/" + c[8..]} + if nameHint then {c[..4] + c[5..7] + c[8..]} else {}
    case Month => {c, c[..4] + "/" + c[5..]} + if nameHint then {c[..4] + c[5..]} else {}
    case Quarter =>
      if '1' <= c[6] <= '4' then {c, c[..4] + c[5..], c[..4] + "/" + c[5..], c[..4] + " " + c[5..]} else {}
    case Year => if nameHint && 1900 <= Num(c) <= 2100 then {c} else {}
  }

  /** The value of a digit string, and of a date read as digits. */
  function Num(s: string): nat {
    if s == "" then 0 else
      var n := |s| - 1;
      if Digit(s[n]) then 10 * Num(s[..n]) + (s[n] - '0') as nat else Num(s[..n])
  }

  /** normalizeTimeValue; nameHint is what the column's name suggests. */
  function Normalize(nameHint: bool, raw: string): Option<Period> {
    var s := Trim(raw);
    var upper := ToUpper(s);
    if s == "" then None
    else if Matches(s, "dddd-dd-dd") then Some(Period(Day, s))
    else if Matches(s, "dddd/dd/dd") then Some(Period(Day, Dashes(s)))
    else if Matches(s, "dddddddd") && nameHint then Some(Period(Day, s[..4] + "-" + s[4..6] + "-" + s[6..8]))
    else if Matches(s, "dddd-dd") then Some(Period(Month, s))
    else if Matches(s, "dddd/dd") then Some(Period(Month, Dashes(s)))
    else if Matches(s, "dddddd") && nameHint then Some(Period(Month, s[..4] + "-" + s[4..6]))
    else if IsQuarter(upper) then Some(Period(Quarter, upper[..4] + "-Q" + upper[|upper| - 1..]))
    else if Matches(s, "dddd") && nameHint then (if 1900 <= Num(s) <= 2100 then Some(Period(Year, s)) else None)
    else None
  }

  function Shape(g: Grain): string {
    match g
    case Day => "dddd-dd-dd"
    case Month => "dddd-dd"
    case Quarter => "dddd-Qd"
    case Year => "dddd"
  }

  /** Canonical forms of one grain all have the same shape. */
  lemma CanonicalShape(nameHint: bool, raw: string)
    ensures Normalize(nameHint, raw).Some? ==>
              var p := Normalize(nameHint, raw).value; Matches(p.canonical, Shape(p.grain))
  {
    if Normalize(nameHint, raw).Some? { RecognisedIffSpelled(nameHint, raw, Normalize(nameHint, raw).value); }
  }

  /** Main result: a value is recognised as a period exactly when, in upper case, it is a spelling of that period. */
  lemma RecognisedIffSpelled(nameHint: bool, raw: string, p: Period)
    ensures Normalize(nameHint, raw) == Some(p) <==> ToUpper(Trim(raw)) in Spellings(nameHint, p)
  {
    if p.grain == Day { DaySpelled(nameHint, raw, p); }
    else if p.grain == Month { MonthSpelled(nameHint, raw, p); }
    else if p.grain == Quarter { QuarterSpelled(nameHint, raw, p); }
    else { YearSpelled(nameHint, raw, p); }
  }

  predicate Capital(c: char) { 'A' <= c <= 'Z' }

  /** Only letters change when a text is put in upper case. */
  lemma UpperKeeps(s: string)
    requires forall i :: 0 <= i < |s| ==> !Capital(Upper(s[i]))
    ensures ToUpper(s) == s
  {
    assert forall i :: 0 <= i < |s| ==> Upper(s[i]) == s[i];
  }

  lemma UpperMatches(s: string, pattern: string)
    requires forall i :: 0 <= i < |pattern| ==> pattern[i] == 'd' || pattern[i] < 'A'
    ensures Matches(ToUpper(s), pattern) <==> Matches(s, pattern)
    ensures Matches(s, pattern) ==> ToUpper(s) == s
  {
    if Matches(s, pattern) || Matches(ToUpper(s), pattern) {
      assert forall i :: 0 <= i < |s| ==> !Capital(Upper(s[i]));
      UpperKeeps(s);
    }
  }

  /** One pattern of digits and separators is spelled by one rearrangement. */
  lemma SlashDay(s: string, c: string)
    ensures Matches(s, "dddd/dd/dd") && Dashes(s) == c <==>
            Matches(c, "dddd-dd-dd") && s == c[..4] + "/" + c[5..7] + "/" + c[8..]
  {
    if Matches(s, "dddd/dd/dd") && Dashes(s) == c {
      DashesShape(s, "dddd/dd/dd", "dddd-dd-dd");
    }
  }

  /** The parts of a date with and without separators. */
  lemma DayParts(y: string, m: string, d: string)
    requires |y| == 4 && |m| == 2 && |d| == 2
    ensures var c := y + "-" + m + "-" + d; c[..4] == y && c[5..7] == m && c[8..] == d
    ensures var s := y + m + d; s[..4] == y && s[4..6] == m && s[6..8] == d
  {
  }

  lemma DayIsParts(c: string)
    requires Matches(c, "dddd-dd-dd")
    ensures c == c[..4] + "-" + c[5..7] + "-" + c[8..] && |c| == 10
    ensures Matches(c[..4] + c[5..7] + c[8..], "dddddddd")
  {
    assert c[4] == '-' && c[7] == '-';
    assert forall i :: 0 <= i < 10 && i != 4 && i != 7 ==> Digit(c[i]);
  }

  lemma BareDay(s: string, c: string)
    ensures Matches(s, "dddddddd") && c == s[..4] + "-" + s[4..6] + "-" + s[6..8] <==>
            Matches(c, "dddd-dd-dd") && s == c[..4] + c[5..7] + c[8..]
  {
    if Matches(s, "dddddddd") && c == s[..4] + "-" + s[4..6] + "-" + s[6..8] {
      CompactDay(s);
      DayParts(s[..4], s[4..6], s[6..8]);
      assert s == s[..4] + s[4..6] + s[6..8];
    } else if Matches(c, "dddd-dd-dd") && s == c[..4] + c[5..7] + c[8..] {
      DayIsParts(c);
      DayParts(c[..4], c[5..7], c[8..]);
    }
  }

  lemma SlashMonth(s: string, c: string)
    ensures Matches(s, "dddd/dd") && Dashes(s) == c <==> Matches(c, "dddd-dd") && s == c[..4] + "/" + c[5..]
  {
    if Matches(s, "dddd/dd") && Dashes(s) == c { DashesShape(s, "dddd/dd", "dddd-dd"); }
  }

  lemma BareMonth(s: string, c: string)
    ensures Matches(s, "dddddd") && c == s[..4] + "-" + s[4..6] <==> Matches(c, "dddd-dd") && s == c[..4] + c[5..]
  {
    if Matches(s, "dddddd") { CompactMonth(s); }
    if Matches(c, "dddd-dd") && s == c[..4] + c[5..] { assert s[4..6] == c[5..7]; }
  }

  lemma DayForms(nameHint: bool, s: string, p: Period)
    requires p.grain == Day
    ensures s in Spellings(nameHint, p) <==>
            var c := p.canonical;
            || (Matches(s, "dddd-dd-dd") && s == c) || (Matches(s, "dddd/dd/dd") && Dashes(s) == c)
            || (nameHint && Matches(s, "dddddddd") && c == s[..4] + "-" + s[4..6] + "-" + s[6..8])
  {
    SlashDay(s, p.canonical);
    BareDay(s, p.canonical);
  }

  lemma DaySpelled(nameHint: bool, raw: string, p: Period)
    requires p.grain == Day
    ensures Normalize(nameHint, raw) == Some(p) <==> ToUpper(Trim(raw)) in Spellings(nameHint, p)
  {
    var s := Trim(raw);
    DayForms(nameHint, ToUpper(s), p);
    UpperMatches(s, "dddd-dd-dd");
    UpperMatches(s, "dddd/dd/dd");
    UpperMatches(s, "dddddddd");
  }

  lemma MonthForms(nameHint: bool, s: string, p: Period)
    requires p.grain == Month
    ensures s in Spellings(nameHint, p) <==>
            var c := p.canonical;
            || (Matches(s, "dddd-dd") && s == c) || (Matches(s, "dddd/dd") && Dashes(s) == c)
            || (nameHint && Matches(s, "dddddd") && c == s[..4] + "-" + s[4..6])
  {
    SlashMonth(s, p.canonical);
    BareMonth(s, p.canonical);
  }

  lemma MonthSpelled(nameHint: bool, raw: string, p: Period)
    requires p.grain == Month
    ensures Normalize(nameHint, raw) == Some(p) <==> ToUpper(Trim(raw)) in Spellings(nameHint, p)
  {
    var s := Trim(raw);
    MonthForms(nameHint, ToUpper(s), p);
    UpperMatches(s, "dddd-dd");
    UpperMatches(s, "dddd/dd");
    UpperMatches(s, "dddddd");
  }

  lemma QuarterRead(u: string, c: string)
    requires IsQuarter(u) && c == u[..4] + "-Q" + u[|u| - 1..]
    ensures Matches(c, "dddd-Qd") && '1' <= c[6] <= '4'
    ensures u in {c, c[..4] + c[5..], c[..4] + "/" + c[5..], c[..4] + " " + c[5..]}
  {
    QuarterShape(u);
    var year, k := u[..4], u[|u| - 1..];
    assert c[..4] == year && c[5..] == "Q" + k && c == year + "-" + ("Q" + k);
    assert u == year + u[4..|u| - 2] + ("Q" + k);
    if |u| == 6 {
      assert u == year + ("Q" + k);
    } else {
      assert u[4..5] == [u[4]];
    }
  }

  lemma QuarterSpells(u: string, c: string)
    requires Matches(c, "dddd-Qd") && '1' <= c[6] <= '4'
    requires u in {c, c[..4] + c[5..], c[..4] + "/" + c[5..], c[..4] + " " + c[5..]}
    ensures IsQuarter(u) && c == u[..4] + "-Q" + u[|u| - 1..]
  {
    assert u[..4] == c[..4] && u[|u| - 1..] == c[6..];
  }

  lemma QuarterForm(u: string, c: string)
    ensures IsQuarter(u) && c == u[..4] + "-Q" + u[|u| - 1..] <==>
            && Matches(c, "dddd-Qd") && '1' <= c[6] <= '4'
            && u in {c, c[..4] + c[5..], c[..4] + "/" + c[5..], c[..4] + " " + c[5..]}
  {
    if IsQuarter(u) && c == u[..4] + "-Q" + u[|u| - 1..] {
      QuarterRead(u, c);
    } else if Matches(c, "dddd-Qd") && '1' <= c[6] <= '4'
              && u in {c, c[..4] + c[5..], c[..4] + "/" + c[5..], c[..4] + " " + c[5..]} {
      QuarterSpells(u, c);
    }
  }

  lemma QuarterIsNoDate(s: string)
    requires IsQuarter(ToUpper(s))
    ensures !Matches(s, "dddddd") && !Matches(s, "dddd-dd") && !Matches(s, "dddd/dd") && |s| in {6, 7}
  {
    assert Upper(s[|s| - 2]) == 'Q' && !Digit(s[|s| - 2]);
  }

  lemma QuarterSpelled(nameHint: bool, raw: string, p: Period)
    requires p.grain == Quarter
    ensures Normalize(nameHint, raw) == Some(p) <==> ToUpper(Trim(raw)) in Spellings(nameHint, p)
  {
    var s, c := Trim(raw), p.canonical;
    var u := ToUpper(s);
    QuarterForm(u, c);
    assert u in Spellings(nameHint, p) <==> IsQuarter(u) && c == u[..4] + "-Q" + u[|u| - 1..];
    if IsQuarter(u) { QuarterIsNoDate(s); }
  }

  lemma YearSpelled(nameHint: bool, raw: string, p: Period)
    requires p.grain == Year
    ensures Normalize(nameHint, raw) == Some(p) <==> ToUpper(Trim(raw)) in Spellings(nameHint, p)
  {
    UpperMatches(Trim(raw), "dddd");
  }

  lemma DashesShape(s: string, from: string, to: string)
    requires Matches(s, from) && |from| == |to|
    requires forall i :: 0 <= i < |to| ==> if from[i] == '/' then to[i] == '-' else to[i] == from[i] == 'd'
    ensures Matches(Dashes(s), to)
  {
  }

  lemma CompactDay(s: string)
    requires Matches(s, "dddddddd")
    ensures Matches(s[..4] + "-" + s[4..6] + "-" + s[6..8], "dddd-dd-dd")
  {
    assert forall i :: 0 <= i < 8 ==> Digit(s[i]);
  }

  lemma CompactMonth(s: string)
    requires Matches(s, "dddddd")
    ensures Matches(s[..4] + "-" + s[4..6], "dddd-dd")
  {
    assert forall i :: 0 <= i < 6 ==> Digit(s[i]);
  }

  lemma QuarterShape(s: string)
    requires IsQuarter(s)
    ensures Matches(s[..4] + "-Q" + s[|s| - 1..], "dddd-Qd")
  {
    assert forall i :: 0 <= i < 4 ==> Digit(s[..4][i]);
  }

  /** A character that is no digit does not count. */
  lemma {:induction false} NumSkip(a: string, c: char, b: string)
    requires !Digit(c)
    ensures Num(a + [c] + b) == Num(a + b)
    decreases |b|
  {
    if b == "" {
      assert (a + [c] + b)[..|a|] == a && a + b == a;
    } else {
      var n := |b| - 1;
      NumSkip(a, c, b[..n]);
      assert (a + [c] + b)[..|a| + 1 + n] == a + [c] + b[..n] && (a + b)[..|a| + n] == a + b[..n];
    }
  }

  /** Texts whose characters are equal or both no digits spell the same number. */
  lemma {:induction false} NumSame(a: string, b: string)
    requires |a| == |b| && forall i :: 0 <= i < |a| ==> a[i] == b[i] || (!Digit(a[i]) && !Digit(b[i]))
    ensures Num(a) == Num(b)
    decreases |a|
  {
    if a != "" { NumSame(a[..|a| - 1], b[..|a| - 1]); }
  }

  lemma CompactDayNum(s: string)
    requires |s| == 8
    ensures Num(s[..4] + "-" + s[4..6] + "-" + s[6..8]) == Num(s)
  {
    NumSkip(s[..4] + "-" + s[4..6], '-', s[6..8]);
    NumSkip(s[..4], '-', s[4..6] + s[6..8]);
    assert s[..4] + "-" + s[4..6] + s[6..8] == s[..4] + "-" + (s[4..6] + s[6..8]);
    assert s[..4] + (s[4..6] + s[6..8]) == s;
  }

  lemma CompactMonthNum(s: string)
    requires |s| == 6
    ensures Num(s[..4] + "-" + s[4..6]) == Num(s)
  {
    NumSkip(s[..4], '-', s[4..6]);
    assert s[..4] + s[4..6] == s;
  }

  predicate NoDigits(s: string) {
    forall i :: 0 <= i < |s| ==> !Digit(s[i])
  }

  lemma {:induction false} NumDrop(y: string, sep: string, d: string)
    requires NoDigits(sep)
    ensures Num(y + sep + d) == Num(y + d)
    decreases |sep|
  {
    if sep == "" {
      assert y + sep == y;
    } else {
      var n := |sep| - 1;
      NumSkip(y + sep[..n], sep[n], d);
      NumDrop(y, sep[..n], d);
      assert y + sep == y + sep[..n] + [sep[n]];
    }
  }

  lemma QuarterParts(q: string)
    requires IsQuarter(q)
    ensures NoDigits(q[4..|q| - 1]) && q == q[..4] + q[4..|q| - 1] + q[|q| - 1..]
  {
    assert q[4..|q| - 1][0] == q[4];
    assert |q| == 7 ==> q[4..|q| - 1][1] == q[5];
  }

  lemma QuarterNum(s: string)
    requires IsQuarter(ToUpper(s))
    ensures Num(ToUpper(s)[..4] + "-Q" + ToUpper(s)[|s| - 1..]) == Num(s)
  {
    var q := ToUpper(s);
    QuarterParts(q);
    NumDrop(q[..4], q[4..|q| - 1], q[|q| - 1..]);
    assert NoDigits("-Q");
    NumDrop(q[..4], "-Q", q[|q| - 1..]);
    UpperNum(s);
  }

  lemma UpperNum(s: string)
    ensures Num(ToUpper(s)) == Num(s)
  {
    NumSame(ToUpper(s), s);
  }

  /** Main result: normalizing changes separators only; the canonical form spells the digits of the value. */
  lemma NormalizeKeepsDigits(nameHint: bool, raw: string)
    ensures Normalize(nameHint, raw).Some? ==> Num(Normalize(nameHint, raw).value.canonical) == Num(Trim(raw))
  {
    var s := Trim(raw);
    NumSame(Dashes(s), s);
    if |s| == 8 { CompactDayNum(s); }
    if |s| == 6 { CompactMonthNum(s); }
    if IsQuarter(ToUpper(s)) { QuarterNum(s); }
  }

  /** The sort key: a quarter sorts without its letter. */
  function Key(p: Period): string {
    if p.grain == Quarter && |p.canonical| >= 6 then p.canonical[..5] + p.canonical[6..] else p.canonical
  }

  // ---------- order ----------

  predicate Less(a: string, b: string) {
    if b == "" then false else if a == "" then true else a[0] < b[0] || (a[0] == b[0] && Less(a[1..], b[1..]))
  }

  lemma {:induction false} LessTotal(a: string, b: string)
    ensures Less(a, b) || a == b || Less(b, a)
    ensures !(Less(a, b) && Less(b, a)) && !(Less(a, a))
  {
    if a != "" { LessTotal(a[1..], if b == "" then "" else b[1..]); }
    if a != "" && b != "" && a[0] == b[0] && a[1..] == b[1..] { assert a == [a[0]] + a[1..] && b == [b[0]] + b[1..]; }
  }

  lemma {:induction false} LessTransitive(a: string, b: string, c: string)
    requires Less(a, b) && Less(b, c)
    ensures Less(a, c)
  {
    if a != "" && a[0] == b[0] == c[0] { LessTransitive(a[1..], b[1..], c[1..]); }
  }

  /** Order of the final sort: by key, then by canonical form. */
  predicate Before(p: Period, q: Period) {
    Less(Key(p), Key(q)) || (Key(p) == Key(q) && Less(p.canonical, q.canonical))
  }

  lemma BeforeTotal(p: Period, q: Period)
    ensures Before(p, q) || p.canonical == q.canonical || Before(q, p)
    ensures !(Before(p, q) && Before(q, p)) && !Before(p, p)
  {
    LessTotal(Key(p), Key(q));
    LessTotal(Key(p), Key(p));
    LessTotal(p.canonical, q.canonical);
    LessTotal(p.canonical, p.canonical);
  }

  lemma BeforeTransitive(p: Period, q: Period, r: Period)
    requires Before(p, q) && Before(q, r)
    ensures Before(p, r)
  {
    if Less(Key(p), Key(q)) && Less(Key(q), Key(r)) { LessTransitive(Key(p), Key(q), Key(r)); }
    else if Key(p) == Key(q) == Key(r) { LessTransitive(p.canonical, q.canonical, r.canonical); }
  }

  predicate SameForm(a: string, b: string) {
    |a| == |b| && forall i :: 0 <= i < |a| ==> (Digit(a[i]) && Digit(b[i])) || (a[i] == b[i] && !Digit(a[i]))
  }

  lemma {:induction false} LessByLast(a: string, b: string)
    requires |a| == |b| > 0
    ensures var n := |a| - 1;
            Less(a, b) <==> Less(a[..n], b[..n]) || (a[..n] == b[..n] && a[n] < b[n])
    decreases |a|
  {
    var n := |a| - 1;
    if n > 0 {
      LessByLast(a[1..], b[1..]);
      assert a[1..][..n - 1] == a[..n][1..] && b[1..][..n - 1] == b[..n][1..];
      assert a[..n] == b[..n] <==> a[0] == b[0] && a[..n][1..] == b[..n][1..] by {
        assert a[..n] == [a[0]] + a[..n][1..] && b[..n] == [b[0]] + b[..n][1..];
      }
    }
  }

  lemma EqualByLast(a: string, b: string)
    requires |a| == |b| > 0
    ensures var n := |a| - 1;
            a == b <==> a[..n] == b[..n] && a[n] == b[n]
  {
    var n := |a| - 1;
    assert a == a[..n] + [a[n]] && b == b[..n] + [b[n]];
  }

  /** Texts of one form sort as the numbers they spell: the order of the sort is chronological. */
  lemma {:induction false} FormOrderIsNumeric(a: string, b: string)
    requires SameForm(a, b)
    ensures (Less(a, b) <==> Num(a) < Num(b)) && (a == b <==> Num(a) == Num(b))
    decreases |a|
  {
    if a != "" {
      var n := |a| - 1;
      assert SameForm(a[..n], b[..n]);
      FormOrderIsNumeric(a[..n], b[..n]);
      LessByLast(a, b);
      EqualByLast(a, b);
    }
  }

  lemma KeyForm(p: Period, q: Period)
    requires p.grain == q.grain && Matches(p.canonical, Shape(p.grain)) && Matches(q.canonical, Shape(q.grain))
    ensures SameForm(Key(p), Key(q))
  {
  }

  // ---------- all values ----------

  function Count(nameHint: bool, values: seq<string>, g: Grain): nat {
    if values == [] then 0 else
      var n := |values| - 1;
      Count(nameHint, values[..n], g) + if HasGrain(nameHint, values[n], g) then 1 else 0
  }

  predicate HasGrain(nameHint: bool, raw: string, g: Grain) {
    Normalize(nameHint, raw).Some? && Normalize(nameHint, raw).value.grain == g
  }

  /** Three fifths of the values when the name suggests a time column, four fifths otherwise. */
  predicate Accepted(nameHint: bool, values: seq<string>, g: Grain) {
    Count(nameHint, values, g) > 0 && 5 * Count(nameHint, values, g) >= (if nameHint then 3 else 4) * |values|
  }

  lemma {:induction false} TwoGrainsShare(nameHint: bool, values: seq<string>, g: Grain, h: Grain)
    requires g != h
    ensures Count(nameHint, values, g) + Count(nameHint, values, h) <= |values|
  {
    if values != [] { TwoGrainsShare(nameHint, values[..|values| - 1], g, h); }
  }

  /** At most one grain is accepted, and it is the most frequent one. */
  lemma AcceptedIsUnique(nameHint: bool, values: seq<string>, g: Grain, h: Grain)
    requires Accepted(nameHint, values, g) && g != h
    ensures !Accepted(nameHint, values, h) && Count(nameHint, values, h) < Count(nameHint, values, g)
  {
    TwoGrainsShare(nameHint, values, g, h);
  }

  function Periods(nameHint: bool, values: seq<string>, g: Grain): set<Period> {
    set i | 0 <= i < |values| && HasGrain(nameHint, values[i], g) :: Normalize(nameHint, values[i]).value
  }

  /** The values of a grain, by their places. */
  function Places(nameHint: bool, values: seq<string>, g: Grain): set<nat> {
    set i: nat | i < |values| && HasGrain(nameHint, values[i], g)
  }

  lemma PlacesSnoc(nameHint: bool, values: seq<string>, g: Grain)
    requires values != []
    ensures var n := |values| - 1;
            var front := Places(nameHint, values[..n], g);
            && n !in front
            && Places(nameHint, values, g) == if HasGrain(nameHint, values[n], g) then front + {n} else front
  {
    var n := |values| - 1;
    var front := Places(nameHint, values[..n], g);
    forall i: nat
      ensures i in Places(nameHint, values, g) <==> i in front || (i == n && HasGrain(nameHint, values[n], g))
    {
      if i < n { assert values[..n][i] == values[i]; }
    }
  }

  lemma {:induction false} CountIsPlaces(nameHint: bool, values: seq<string>, g: Grain)
    ensures Count(nameHint, values, g) == |Places(nameHint, values, g)|
  {
    if values != [] {
      var n := |values| - 1;
      CountIsPlaces(nameHint, values[..n], g);
      PlacesSnoc(nameHint, values, g);
    }
  }

  /** A column has a grain exactly when 60 percent of its values have it, 80 if the name suggests no time column. */
  lemma AcceptedIffShare(nameHint: bool, values: seq<string>, g: Grain)
    ensures Accepted(nameHint, values, g) <==>
              && values != []
              && |Places(nameHint, values, g)| as real / |values| as real >= if nameHint then 0.6 else 0.8
  {
    CountIsPlaces(nameHint, values, g);
    if values != [] {
      ShareIs(|Places(nameHint, values, g)|, |values|, 3);
      ShareIs(|Places(nameHint, values, g)|, |values|, 4);
    }
  }

  lemma ShareIs(k: nat, n: nat, fifths: nat)
    requires n > 0
    ensures k as real / n as real >= fifths as real / 5.0 <==> 5 * k >= fifths * n
  {
    var share := k as real / n as real;
    assert share * n as real == k as real;
    assert 5.0 * (share * n as real) == (5.0 * share) * n as real;
    if 5.0 * share >= fifths as real { assert (5.0 * share) * n as real >= fifths as real * n as real; }
    else { assert (5.0 * share) * n as real < fifths as real * n as real; }
  }

  predicate Sorted(s: seq<Period>) {
    forall i, j :: 0 <= i < j < |s| ==> Before(s[i], s[j])
  }

  /** The list is the periods in order, without repetition. */
  ghost predicate Lists(s: seq<Period>, periods: set<Period>) {
    Sorted(s) && forall p :: p in s <==> p in periods
  }

  lemma {:induction false} SortedIsUnique(a: seq<Period>, b: seq<Period>)
    requires Sorted(a) && Sorted(b) && (forall p :: p in a <==> p in b)
    ensures a == b
    decreases |a|
  {
    assert b == [] || b[0] in b;
    if a != [] {
      assert a[0] in a && a[0] in b;
      assert b[0] in b && b[0] in a;
      BeforeTotal(a[0], b[0]);
      assert a[0] == b[0];
      forall p ensures p in a[1..] <==> p in b[1..] {
        TailIn(a, p);
        TailIn(b, p);
      }
      SortedIsUnique(a[1..], b[1..]);
      assert a == [a[0]] + a[1..] && b == [b[0]] + b[1..];
    }
  }

  lemma TailIn(a: seq<Period>, p: Period)
    requires Sorted(a) && a != []
    ensures p in a[1..] <==> p in a && p != a[0]
  {
    if p in a[1..] {
      var i :| 0 <= i < |a[1..]| && a[1..][i] == p;
      assert Before(a[0], a[i + 1]);
      BeforeTotal(a[0], a[0]);
    }
  }

  function Canonicals(s: seq<Period>): seq<string> {
    seq(|s|, i requires 0 <= i < |s| => s[i].canonical)
  }

  /** The answer for a grain whose periods are listed by s. */
  function InfoFor(g: Grain, s: seq<Period>, uniqueCount: int): Info
    requires s != []
  {
    Info(g, s[0].canonical, s[|s| - 1].canonical, if uniqueCount <= 0 then |s| else uniqueCount,
         Canonicals(if |s| <= 5 then s else s[..5]))
  }

  /** What the result must be, without any order of traversal. */
  ghost predicate Correct(nameHint: bool, values: seq<string>, uniqueCount: int, r: Option<Info>) {
    match r
    case None => forall g :: !Accepted(nameHint, values, g)
    case Some(info) =>
      && Accepted(nameHint, values, info.grain)
      && exists s ::
           s != [] && Lists(s, Periods(nameHint, values, info.grain)) && info == InfoFor(info.grain, s, uniqueCount)
  }

  /** Main result: the requirement has one answer, so every map order gives it. */
  lemma AnswerIsUnique(nameHint: bool, values: seq<string>, uniqueCount: int, r: Option<Info>, q: Option<Info>)
    requires Correct(nameHint, values, uniqueCount, r) && Correct(nameHint, values, uniqueCount, q)
    ensures r == q
  {
    if r.Some? && q.Some? {
      if r.value.grain != q.value.grain {
        AcceptedIsUnique(nameHint, values, r.value.grain, q.value.grain);
        assert false;
      }
      var g := r.value.grain;
      var s :| s != [] && Lists(s, Periods(nameHint, values, g)) && r.value == InfoFor(g, s, uniqueCount);
      var t :| t != [] && Lists(t, Periods(nameHint, values, g)) && q.value == InfoFor(g, t, uniqueCount);
      SortedIsUnique(s, t);
    }
  }

  /** A listed period is the canonical form of some value. */
  lemma ListedIsObserved(nameHint: bool, values: seq<string>, g: Grain, s: seq<Period>, k: nat) returns (raw: string)
    requires Lists(s, Periods(nameHint, values, g)) && k < |s|
    ensures raw in values && Normalize(nameHint, raw) == Some(s[k])
    ensures s[k].grain == g && Matches(s[k].canonical, Shape(g))
  {
    assert s[k] in s;
    var i :| 0 <= i < |values| && HasGrain(nameHint, values[i], g) && Normalize(nameHint, values[i]).value == s[k];
    raw := values[i];
    CanonicalShape(nameHint, raw);
  }

  lemma Listing(nameHint: bool, values: seq<string>, uniqueCount: int, info: Info) returns (s: seq<Period>)
    requires Correct(nameHint, values, uniqueCount, Some(info))
    ensures s != [] && Lists(s, Periods(nameHint, values, info.grain))
    ensures info == InfoFor(info.grain, s, uniqueCount)
    ensures info.start == s[0].canonical && info.end == s[|s| - 1].canonical
  {
    s :| s != [] && Lists(s, Periods(nameHint, values, info.grain)) && info == InfoFor(info.grain, s, uniqueCount);
  }

  /** Main result: every matched value of the grain lies chronologically within the coverage. */
  lemma CoverageIsChronological(nameHint: bool, values: seq<string>, uniqueCount: int, info: Info, raw: string)
    requires Correct(nameHint, values, uniqueCount, Some(info)) && raw in values && HasGrain(nameHint, raw, info.grain)
    ensures Num(info.start) <= Num(Trim(raw)) <= Num(info.end)
  {
    NormalizeKeepsDigits(nameHint, raw);
    var s := Listing(nameHint, values, uniqueCount, info);
    var k := ValueIsListed(nameHint, values, info.grain, s, raw);
    ListOrder(nameHint, values, info.grain, s, k);
  }

  /** And both ends of the coverage are values of the column. */
  lemma CoverageIsObserved(nameHint: bool, values: seq<string>, uniqueCount: int, info: Info, last: bool)
    returns (raw: string)
    requires Correct(nameHint, values, uniqueCount, Some(info))
    ensures raw in values && Normalize(nameHint, raw) == Some(Period(info.grain, if last then info.end else info.start))
  {
    var s := Listing(nameHint, values, uniqueCount, info);
    raw := ListedIsObserved(nameHint, values, info.grain, s, if last then |s| - 1 else 0);
  }

  /**
   * Main result: the samples are the canonical forms of the earliest periods, at most five, in order, and the number of
   * periods is the one the profile counted, or that of the recognised ones.
   */
  lemma SamplesAreEarliest(nameHint: bool, values: seq<string>, uniqueCount: int, info: Info) returns (s: seq<Period>)
    requires Correct(nameHint, values, uniqueCount, Some(info))
    ensures var periods := Periods(nameHint, values, info.grain);
            && |info.samples| == (if |periods| < 5 then |periods| else 5) > 0 && info.samples[0] == info.start
            && info.distinctPeriods == (if uniqueCount > 0 then uniqueCount else |periods|)
            && |s| == |info.samples|
            && (forall k :: 0 <= k < |s| ==> s[k] in periods && info.samples[k] == s[k].canonical)
            && (forall k, p :: 0 <= k < |s| && p in periods && p !in s ==> Before(s[k], p))
            && forall j, k :: 0 <= j < k < |s| ==> Before(s[j], s[k])
  {
    var all := Listing(nameHint, values, uniqueCount, info);
    s := SamplesOf(all, Periods(nameHint, values, info.grain), uniqueCount, info);
  }

  lemma SamplesOf(all: seq<Period>, periods: set<Period>, uniqueCount: int, info: Info) returns (s: seq<Period>)
    requires all != [] && Lists(all, periods) && info == InfoFor(info.grain, all, uniqueCount)
    ensures |info.samples| == (if |periods| < 5 then |periods| else 5) > 0 && info.samples[0] == info.start
    ensures info.distinctPeriods == if uniqueCount > 0 then uniqueCount else |periods|
    ensures |s| == |info.samples|
    ensures forall k :: 0 <= k < |s| ==> s[k] in periods && info.samples[k] == s[k].canonical
    ensures forall k, p :: 0 <= k < |s| && p in periods && p !in s ==> Before(s[k], p)
    ensures forall j, k :: 0 <= j < k < |s| ==> Before(s[j], s[k])
  {
    ListedOnce(all, periods);
    s := if |all| <= 5 then all else all[..5];
    EarliestOf(all, s);
    assert forall k :: 0 <= k < |s| ==> all[k] in all;
  }

  lemma EarliestOf(all: seq<Period>, s: seq<Period>)
    requires Sorted(all) && s == if |all| <= 5 then all else all[..5]
    ensures forall k :: 0 <= k < |s| ==> s[k] == all[k]
    ensures forall k, p :: 0 <= k < |s| && p in all && p !in s ==> Before(s[k], p)
  {
    assert all[..|all|] == all;
    forall k, p | 0 <= k < |s| && p in all && p !in s ensures Before(s[k], p) {
      forall i | 0 <= i < |s| ensures all[i] != p { assert s[i] in s; }
      LaterIsAfter(all, |s|, k, p);
    }
  }

  lemma LaterIsAfter(all: seq<Period>, n: nat, k: nat, p: Period)
    requires Sorted(all) && k < n <= |all| && p in all && forall i :: 0 <= i < n ==> all[i] != p
    ensures Before(all[k], p)
  {
  }

  lemma {:induction false} ListedOnce(s: seq<Period>, periods: set<Period>)
    requires Lists(s, periods)
    ensures |periods| == |s|
    decreases |s|
  {
    if s == [] {
      assert periods == {};
    } else {
      var rest := periods - {s[0]};
      assert s[0] in s;
      forall p ensures p in s[1..] <==> p in rest { TailIn(s, p); }
      ListedOnce(s[1..], rest);
    }
  }

  lemma ListOrder(nameHint: bool, values: seq<string>, g: Grain, s: seq<Period>, k: nat)
    requires Lists(s, Periods(nameHint, values, g)) && k < |s|
    ensures Num(s[0].canonical) <= Num(s[k].canonical) <= Num(s[|s| - 1].canonical)
  {
    ListedShape(nameHint, values, g, s, 0);
    ListedShape(nameHint, values, g, s, k);
    ListedShape(nameHint, values, g, s, |s| - 1);
    PeriodOrder(s[0], s[k], k == 0);
    PeriodOrder(s[k], s[|s| - 1], k == |s| - 1);
  }

  lemma ListedShape(nameHint: bool, values: seq<string>, g: Grain, s: seq<Period>, k: nat)
    requires Lists(s, Periods(nameHint, values, g)) && k < |s|
    ensures s[k].grain == g && Matches(s[k].canonical, Shape(g))
  {
    var _ := ListedIsObserved(nameHint, values, g, s, k);
  }

  lemma ValueIsListed(nameHint: bool, values: seq<string>, g: Grain, s: seq<Period>, raw: string) returns (k: nat)
    requires Lists(s, Periods(nameHint, values, g)) && raw in values && HasGrain(nameHint, raw, g)
    ensures k < |s| && s[k] == Normalize(nameHint, raw).value
  {
    var i :| 0 <= i < |values| && values[i] == raw;
    assert Normalize(nameHint, values[i]).value in Periods(nameHint, values, g);
    k :| 0 <= k < |s| && s[k] == Normalize(nameHint, raw).value;
  }

  lemma PeriodOrder(p: Period, q: Period, same: bool)
    requires p.grain == q.grain && Matches(p.canonical, Shape(p.grain)) && Matches(q.canonical, Shape(q.grain))
    requires if same then p == q else Before(p, q)
    ensures Num(p.canonical) <= Num(q.canonical)
  {
    KeyForm(p, q);
    FormOrderIsNumeric(Key(p), Key(q));
    assert SameForm(p.canonical, q.canonical);
    FormOrderIsNumeric(p.canonical, q.canonical);
    KeyNum(p);
    KeyNum(q);
  }

  /** Dropping the letter of a quarter does not change the number it spells. */
  lemma KeyNum(p: Period)
    requires Matches(p.canonical, Shape(p.grain))
    ensures Num(Key(p)) == Num(p.canonical)
  {
    if p.grain == Quarter {
      var c, k := p.canonical, Key(p);
      assert c[..6][..5] == c[..5] && !Digit(c[5]) && k[..5] == c[..5] && k[5] == c[6];
      assert Num(c[..6]) == Num(c[..5]);
    }
  }

  // ---------- the code ----------

  /** The final sort; the code sorts a list without repeated canonical forms. */
  method SortPeriods(xs: seq<Period>, g: Grain) returns (r: seq<Period>)
    requires forall i, j :: 0 <= i < j < |xs| ==> xs[i].canonical != xs[j].canonical
    requires forall p :: p in xs ==> p.grain == g
    ensures Sorted(r) && forall p :: p in r <==> p in xs
  {
    r := [];
    for n := 0 to |xs|
      invariant Sorted(r) && forall p :: p in r <==> p in xs[..n]
    {
      assert xs[..n + 1] == xs[..n] + [xs[n]];
      forall p | p in r ensures p.canonical != xs[n].canonical {
        var i :| 0 <= i < n && xs[..n][i] == p;
        assert xs[i].canonical != xs[n].canonical;
      }
      r := Insert(r, xs[n]);
    }
    assert xs[..|xs|] == xs;
  }

  method Insert(s: seq<Period>, x: Period) returns (r: seq<Period>)
    requires Sorted(s) && forall p :: p in s ==> p.canonical != x.canonical
    ensures Sorted(r) && forall p :: p in r <==> p in s || p == x
  {
    var i := 0;
    while i < |s| && Before(s[i], x)
      invariant 0 <= i <= |s| && forall k :: 0 <= k < i ==> Before(s[k], x)
    {
      i := i + 1;
    }
    forall k | i <= k < |s| ensures Before(x, s[k]) {
      assert s[i] in s;
      BeforeTotal(s[i], x);
      if k > i { BeforeTransitive(x, s[i], s[k]); }
    }
    r := s[..i] + [x] + s[i..];
    InsertedIsSorted(s, x, i);
  }

  lemma InsertedAt(s: seq<Period>, x: Period, i: nat, k: nat)
    requires i <= |s| && k <= |s|
    ensures (s[..i] + [x] + s[i..])[k] == if k < i then s[k] else if k == i then x else s[k - 1]
  {
  }

  lemma InsertedIsSorted(s: seq<Period>, x: Period, i: nat)
    requires Sorted(s) && i <= |s| && (forall k :: 0 <= k < i ==> Before(s[k], x))
             && (forall k :: i <= k < |s| ==> Before(x, s[k]))
    ensures var r := s[..i] + [x] + s[i..];
            Sorted(r) && forall p :: p in r <==> p in s || p == x
  {
    var r := s[..i] + [x] + s[i..];
    forall j, k | 0 <= j < k < |r| ensures Before(r[j], r[k]) {
      InsertedAt(s, x, i, j);
      InsertedAt(s, x, i, k);
    }
    assert s == s[..i] + s[i..];
  }

  method CountGrains(nameHint: bool, values: seq<string>) returns (matched: seq<Period>, counts: map<Grain, nat>)
    ensures forall p :: p in matched <==> p in Periods(nameHint, values, p.grain)
    ensures forall g :: g in counts <==> Count(nameHint, values, g) > 0
    ensures forall g :: g in counts ==> counts[g] == Count(nameHint, values, g)
  {
    matched, counts := [], map[];
    for i := 0 to |values|
      invariant forall p :: p in matched <==> p in Periods(nameHint, values[..i], p.grain)
      invariant forall g :: g in counts <==> Count(nameHint, values[..i], g) > 0
      invariant forall g :: g in counts ==> counts[g] == Count(nameHint, values[..i], g)
    {
      assert values[..i + 1][..i] == values[..i];
      PeriodsStep(nameHint, values, i);
      var v := Normalize(nameHint, values[i]);
      if v.Some? {
        matched := matched + [v.value];
        counts := counts[v.value.grain := (if v.value.grain in counts then counts[v.value.grain] else 0) + 1];
      }
    }
    assert values[..|values|] == values;
  }

  lemma PeriodIn(nameHint: bool, values: seq<string>, k: nat, p: Period)
    requires k < |values| && Normalize(nameHint, values[k]) == Some(p)
    ensures p in Periods(nameHint, values, p.grain)
  {
  }

  lemma PeriodFrom(nameHint: bool, values: seq<string>, p: Period) returns (k: nat)
    requires p in Periods(nameHint, values, p.grain)
    ensures k < |values| && Normalize(nameHint, values[k]) == Some(p)
  {
    var i :| 0 <= i < |values| && HasGrain(nameHint, values[i], p.grain) && Normalize(nameHint, values[i]).value == p;
    k := i;
  }

  lemma PeriodStep(nameHint: bool, values: seq<string>, i: nat, p: Period)
    requires i < |values|
    ensures p in Periods(nameHint, values[..i + 1], p.grain) <==>
              p in Periods(nameHint, values[..i], p.grain) || Normalize(nameHint, values[i]) == Some(p)
  {
    if p in Periods(nameHint, values[..i + 1], p.grain) {
      var k := PeriodFrom(nameHint, values[..i + 1], p);
      if k < i { PeriodIn(nameHint, values[..i], k, p); }
    } else if p in Periods(nameHint, values[..i], p.grain) {
      var k := PeriodFrom(nameHint, values[..i], p);
      PeriodIn(nameHint, values[..i + 1], k, p);
    } else if Normalize(nameHint, values[i]) == Some(p) {
      PeriodIn(nameHint, values[..i + 1], i, p);
    }
  }

  lemma PeriodsStep(nameHint: bool, values: seq<string>, i: nat)
    requires i < |values|
    ensures forall p: Period :: p in Periods(nameHint, values[..i + 1], p.grain) <==>
              p in Periods(nameHint, values[..i], p.grain) || Normalize(nameHint, values[i]) == Some(p)
  {
    forall p: Period
      ensures p in Periods(nameHint, values[..i + 1], p.grain) <==>
                p in Periods(nameHint, values[..i], p.grain) || Normalize(nameHint, values[i]) == Some(p)
    {
      PeriodStep(nameHint, values, i, p);
    }
  }

  /** The loop over the map of counts, in any order. */
  method Dominant(counts: map<Grain, nat>) returns (best: Option<Grain>)
    requires forall g :: g in counts ==> counts[g] > 0
    ensures best.None? <==> counts == map[]
    ensures best.Some? ==> best.value in counts && forall g :: g in counts ==> counts[g] <= counts[best.value]
  {
    best := None;
    var bestCount := 0;
    var left := counts.Keys;
    while left != {}
      invariant left <= counts.Keys
      invariant best.None? ==> left == counts.Keys && bestCount == 0
      invariant best.Some? ==> best.value in counts && bestCount == counts[best.value]
      invariant forall g :: g in counts && g !in left ==> counts[g] <= bestCount
      decreases left
    {
      var g :| g in left;
      if counts[g] > bestCount { best, bestCount := Some(g), counts[g]; }
      left := left - {g};
    }
    if best.None? { assert counts.Keys == {}; }
  }

  method Distinct(matched: seq<Period>, g: Grain) returns (r: seq<Period>)
    ensures forall i, j :: 0 <= i < j < |r| ==> r[i].canonical != r[j].canonical
    ensures forall p :: p in r <==> p in matched && p.grain == g
  {
    r := [];
    var seen: set<string> := {};
    for n := 0 to |matched|
      invariant forall i, j :: 0 <= i < j < |r| ==> r[i].canonical != r[j].canonical
      invariant forall p :: p in r <==> p in matched[..n] && p.grain == g
      invariant forall c :: c in seen <==> exists i :: 0 <= i < |r| && r[i].canonical == c
    {
      var p := matched[n];
      assert matched[..n + 1] == matched[..n] + [p];
      if p.grain == g && p.canonical !in seen {
        seen := seen + {p.canonical};
        r := r + [p];
        assert r[|r| - 1] == p;
      } else if p.grain == g {
        var i :| 0 <= i < |r| && r[i].canonical == p.canonical;
        assert r[i] in r && r[i] == p;
      }
    }
    assert matched[..|matched|] == matched;
  }

  /** detectTimeColumnInfo: correct whatever grain the map walk meets first. */
  method DetectTimeColumnInfo(nameHint: bool, values: seq<string>, uniqueCount: int) returns (r: Option<Info>)
    ensures Correct(nameHint, values, uniqueCount, r)
  {
    if |values| == 0 { return None; }
    var matched, counts := CountGrains(nameHint, values);
    if |matched| == 0 {
      forall g ensures !Accepted(nameHint, values, g) { CountedHasPeriod(nameHint, values, g); }
      return None;
    }
    var best := Dominant(counts);
    if best.None? { return None; }
    var g := best.value;
    if 5 * counts[g] < (if nameHint then 3 else 4) * |values| {
      forall h ensures !Accepted(nameHint, values, h) { assert h in counts ==> counts[h] <= counts[g]; }
      return None;
    }
    var filtered := Distinct(matched, g);
    var sorted := SortPeriods(filtered, g);
    assert Lists(sorted, Periods(nameHint, values, g));
    // The code also checks for an empty list here; a counted grain has at least one period.
    CountedHasPeriod(nameHint, values, g);
    return Some(InfoFor(g, sorted, uniqueCount));
  }

  lemma {:induction false} CountedHasPeriod(nameHint: bool, values: seq<string>, g: Grain)
    ensures Count(nameHint, values, g) > 0 ==> exists p :: p in Periods(nameHint, values, g) && p.grain == g
  {
    if values != [] {
      var n := |values| - 1;
      CountedHasPeriod(nameHint, values[..n], g);
      if HasGrain(nameHint, values[n], g) {
        assert Normalize(nameHint, values[n]).value in Periods(nameHint, values, g);
      } else if Count(nameHint, values[..n], g) > 0 {
        var p :| p in Periods(nameHint, values[..n], g) && p.grain == g;
        var k :| 0 <= k < n && HasGrain(nameHint, values[..n][k], g) && Normalize(nameHint, values[..n][k]).value == p;
        assert HasGrain(nameHint, values[k], g) && Normalize(nameHint, values[k]).value == p;
        assert p in Periods(nameHint, values, g);
      }
    }
  }
}
