/**
 * The budgeted digest. Text is represented by the length of its lines; what matters here is how the
 * token budget is filled, what is left out, and whether the omissions are accounted for.
 */
module Digest {
  import opened Alignment

  /** Omissions are by budget (did not fit) or by relevance (left out on purpose). */
  datatype Reason = Budget | Relevance

  datatype Omission = Omission(section: nat, count: nat, reason: Reason)

  /** A section: its heading's length, the lengths of its entries, and entries left out as irrelevant. */
  datatype Section = Section(head: nat, entries: seq<nat>, overflow: Option<nat>)

  /**
   * The header: one inventory line per application in scope, the produce and consume lists, which are
   * dropped when the budget is too small for them, and the line naming a message scope.
   */
  datatype Header = Header(inventory: seq<nat>, detail: seq<nat>, scopeLine: Option<nat>)

  datatype Digest = Digest(parts: seq<nat>, estimatedTokens: nat, kept: seq<seq<nat>>, omitted: seq<Omission>)

  /** `Math.ceil(length / 3.5)`. */
  function Tokens(length: nat): nat { (2 * length + 6) / 7 }

  function Sum(xs: seq<nat>): nat { if xs == [] then 0 else Sum(xs[..|xs| - 1]) + xs[|xs| - 1] }

  /** Length of the lines joined by line feeds. */
  function Joined(lines: seq<nat>): nat { if lines == [] then 0 else Sum(lines) + |lines| - 1 }

  function LineCost(line: nat): nat { Tokens(line + 1) }

  function BodyLength(head: nat, entries: seq<nat>): nat { Joined([head] + entries) + 1 }

  // ---- Budget ---------------------------------------------------------------------------

  function Reserve(budget: nat): nat { Min(Max(80, budget / 10), 400) }

  function FillBudget(budget: nat): nat { if budget >= Reserve(budget) then budget - Reserve(budget) else 0 }

  /** How many entries fit one after another, starting from `cursor` tokens. */
  function FitCount(entries: seq<nat>, cursor: nat, fill: nat): (n: nat)
    ensures n <= |entries|
  {
    if entries == [] || cursor + LineCost(entries[0]) > fill then 0
    else 1 + FitCount(entries[1..], cursor + LineCost(entries[0]), fill)
  }

  function Costs(entries: seq<nat>): nat {
    if entries == [] then 0 else Costs(entries[..|entries| - 1]) + LineCost(entries[|entries| - 1])
  }

  /** Tokens used, the bodies emitted, and the entries shown of each section so far. */
  datatype Fill = Fill(used: nat, parts: seq<nat>, kept: seq<seq<nat>>)

  function FillOne(f: Fill, s: Section, fill: nat): Fill {
    var whole := BodyLength(s.head, s.entries);
    if f.used + Tokens(whole) <= fill then
      Fill(f.used + Tokens(whole), f.parts + [whole], f.kept + [s.entries])
    else
      var start := f.used + LineCost(s.head);
      var shown := s.entries[..FitCount(s.entries, start, fill)];
      if shown == [] then f.(kept := f.kept + [[]])
      else Fill(start + Costs(shown), f.parts + [BodyLength(s.head, shown)], f.kept + [shown])
  }

  function FillAll(start: Fill, sections: seq<Section>, fill: nat): (f: Fill)
    ensures |f.kept| == |start.kept| + |sections|
    decreases |sections|, 0
  {
    if sections == [] then start else FillLast(start, sections, fill)
  }

  function FillLast(start: Fill, sections: seq<Section>, fill: nat): (f: Fill)
    requires sections != []
    ensures |f.kept| == |start.kept| + |sections|
    decreases |sections| - 1, 1
  {
    FillOne(FillAll(start, sections[..|sections| - 1], fill), sections[|sections| - 1], fill)
  }

  /** A partly shown section withholds by budget, and any section may leave entries out by relevance. */
  function OmissionsOf(i: nat, s: Section, kept: seq<nat>): seq<Omission> {
    (if |kept| < |s.entries| then [Omission(i, |s.entries| - |kept|, Budget)] else [])
      + (if s.overflow.Some? then [Omission(i, s.overflow.value, Relevance)] else [])
  }

  function Omissions(sections: seq<Section>, kept: seq<seq<nat>>): seq<Omission>
    requires |sections| == |kept|
  {
    if sections == [] then []
    else
      var n := |sections| - 1;
      Omissions(sections[..n], kept[..n]) + OmissionsOf(n + 1, sections[n], kept[n])
  }

  // ---- Header and notice ------------------------------------------------------------------

  /** The title, a blank line and the heading of the inventory, then the inventory. */
  function HeaderLines(h: Header): seq<nat> { [22, 0, 15] + h.inventory }

  /** The text without any application: title, blank line and one sentence. */
  const EMPTY_SCOPE: seq<nat> := [22, 0, 34]

  predicate DetailFits(h: Header, budget: nat) {
    h.detail != [] && Tokens(Joined(HeaderLines(h) + h.detail)) <= budget
  }

  function HeaderLength(h: Header, budget: nat): nat {
    Joined(HeaderLines(h) + (if DetailFits(h, budget) then h.detail else [])
                          + (if h.scopeLine.Some? then [0, h.scopeLine.value] else [])) + 1
  }

  /** Section 0 stands for the produce and consume lists of the header. */
  function HeaderOmission(h: Header, budget: nat): seq<Omission> {
    if h.detail == [] || DetailFits(h, budget) then [] else [Omission(0, |h.detail|, Budget)]
  }

  const NOTICE_HEAD: seq<nat> := [0, 21, 79, 61]

  /** Rows are dropped from the end until the notice fits the reserve or none is left. */
  function TrimmedRows(rows: seq<nat>, reserve: nat): seq<nat> {
    if rows == [] || Tokens(Joined(NOTICE_HEAD + rows + [0])) <= reserve then rows
    else TrimmedRows(rows[..|rows| - 1], reserve)
  }

  function OverflowCount(sections: seq<Section>): nat {
    if sections == [] then 0
    else OverflowCount(sections[..|sections| - 1]) + (if sections[|sections| - 1].overflow.Some? then 1 else 0)
  }

  /**
   * What the section builder hands over: at most six sections, none without entries, one of them at
   * most with entries left out as irrelevant, and none at all if no application is in scope.
   */
  predicate Buildable(h: Header, sections: seq<Section>) {
    && |sections| <= 6 && OverflowCount(sections) <= 1
    && (forall i :: 0 <= i < |sections| ==> sections[i].entries != [])
    && (h.inventory == [] ==> sections == [])
  }

  // ---- The program --------------------------------------------------------------------------

  /** One turn of the fill loop: the whole section if it fits, else as many entries as do. */
  method FillSection(f: Fill, i: nat, s: Section, fill: nat) returns (next: Fill, shown: seq<nat>, omitted: seq<Omission>)
    requires s.entries != []
    ensures next == FillOne(f, s, fill) && next.kept == f.kept + [shown]
    ensures omitted == OmissionsOf(i, s, shown)
  {
    omitted := [];
    var body := BodyLength(s.head, s.entries);
    var cost := Tokens(body);
    if f.used + cost <= fill {
      shown := s.entries;
      next := Fill(f.used + cost, f.parts + [body], f.kept + [shown]);
    } else {
      var cursor;
      shown, cursor := KeepLines(s.entries, f.used + LineCost(s.head), fill);
      WholeIfAllFit(s, f.used, fill);
      next := f.(kept := f.kept + [shown]);
      if |shown| > 0 {
        next := Fill(cursor, f.parts + [BodyLength(s.head, shown)], next.kept);
      }
      omitted := omitted + [Omission(i, |s.entries| - |shown|, Budget)];
    }
    if s.overflow.Some? { omitted := omitted + [Omission(i, s.overflow.value, Relevance)]; }
  }

  lemma {:induction false} FillAllNext(start: Fill, sections: seq<Section>, i: nat, fill: nat)
    requires i < |sections|
    ensures FillAll(start, sections[..i + 1], fill) == FillOne(FillAll(start, sections[..i], fill), sections[i], fill)
  {
    assert sections[..i + 1][..i] == sections[..i];
  }

  lemma {:induction false} OmissionsNext(sections: seq<Section>, i: nat, kept: seq<seq<nat>>, shown: seq<nat>)
    requires i < |sections| && |kept| == i
    ensures Omissions(sections[..i + 1], kept + [shown])
         == Omissions(sections[..i], kept) + OmissionsOf(i + 1, sections[i], shown)
  {
    assert sections[..i + 1][..i] == sections[..i];
    assert (kept + [shown])[..i] == kept;
  }

  method FillSections(sections: seq<Section>, start: Fill, fill: nat, header: seq<Omission>)
    returns (f: Fill, omitted: seq<Omission>)
    requires start.kept == [] && forall i :: 0 <= i < |sections| ==> sections[i].entries != []
    ensures f == FillAll(start, sections, fill)
    ensures omitted == header + Omissions(sections, f.kept)
  {
    f, omitted := start, header;
    for i := 0 to |sections|
      invariant f == FillAll(start, sections[..i], fill) && |f.kept| == i
      invariant omitted == header + Omissions(sections[..i], f.kept)
    {
      ghost var before := f.kept;
      FillAllNext(start, sections, i, fill);
      var shown, more;
      f, shown, more := FillSection(f, i + 1, sections[i], fill);
      OmissionsNext(sections, i, before, shown);
      assert f.kept[..i] == before;
      omitted := omitted + more;
    }
    assert sections[..|sections|] == sections;
  }

  method KeepLines(entries: seq<nat>, start: nat, fill: nat) returns (shown: seq<nat>, cursor: nat)
    ensures shown == entries[..FitCount(entries, start, fill)]
    ensures cursor == start + Costs(shown)
  {
    shown, cursor := [], start;
    for i := 0 to |entries|
      invariant shown == entries[..i]
      invariant cursor == start + Costs(shown)
      invariant FitCount(entries, start, fill) == i + FitCount(entries[i..], cursor, fill)
    {
      var lineCost := LineCost(entries[i]);
      if cursor + lineCost > fill { break; }
      assert entries[..i + 1][..i] == shown;
      assert entries[i..][1..] == entries[i + 1..];
      shown, cursor := shown + [entries[i]], cursor + lineCost;
    }
  }

  method BuildDigest(h: Header, sections: seq<Section>, budget: nat, rowLength: Omission -> nat) returns (d: Digest)
    requires Buildable(h, sections)
    ensures d == DigestOf(h, sections, budget, rowLength)
  {
    if h.inventory == [] {
      return Digest([Joined(EMPTY_SCOPE)], Tokens(Joined(EMPTY_SCOPE)), [], []);
    }
    var lines := HeaderLines(h);
    var detailed := h.detail != [] && Tokens(Joined(lines + h.detail)) <= budget;
    var omitted: seq<Omission> := [];
    if detailed {
      lines := lines + h.detail;
    } else if h.detail != [] {
      omitted := omitted + [Omission(0, |h.detail|, Budget)];
    }
    if h.scopeLine.Some? { lines := lines + [0, h.scopeLine.value]; }
    assert HeaderLines(h) + [] == HeaderLines(h) && lines + [] == lines;
    var headerLength := Joined(lines) + 1;
    assert headerLength == HeaderLength(h, budget);
    assert omitted == HeaderOmission(h, budget);
    var f;
    f, omitted := FillSections(sections, Fill(Tokens(headerLength), [headerLength], []), FillBudget(budget), omitted);
    var parts := f.parts;
    if |omitted| > 0 {
      var rows := RowLengths(omitted, rowLength);
      ghost var all := rows;
      while |rows| > 0 && Tokens(Joined(NOTICE_HEAD + rows + [0])) > Reserve(budget)
        invariant TrimmedRows(rows, Reserve(budget)) == TrimmedRows(all, Reserve(budget))
        decreases |rows|
      {
        rows := rows[..|rows| - 1];
      }
      parts := parts + [Joined(NOTICE_HEAD + rows + [0])];
    }
    d := Digest(parts, Tokens(Joined(parts)), f.kept, omitted);
  }

  function RowLengths(omitted: seq<Omission>, rowLength: Omission -> nat): seq<nat> {
    if omitted == [] then []
    else RowLengths(omitted[..|omitted| - 1], rowLength) + [rowLength(omitted[|omitted| - 1])]
  }

  function Filled(h: Header, sections: seq<Section>, budget: nat): Fill {
    var length := HeaderLength(h, budget);
    FillAll(Fill(Tokens(length), [length], []), sections, FillBudget(budget))
  }

  /** Length of the notice for these rows, after trimming. */
  function NoticeLength(rows: seq<nat>, reserve: nat): nat {
    Joined(NOTICE_HEAD + TrimmedRows(rows, reserve) + [0])
  }

  function DigestOf(h: Header, sections: seq<Section>, budget: nat, rowLength: Omission -> nat): Digest {
    if h.inventory == [] then Digest([Joined(EMPTY_SCOPE)], Tokens(Joined(EMPTY_SCOPE)), [], [])
    else
      var f := Filled(h, sections, budget);
      var omitted := HeaderOmission(h, budget) + Omissions(sections, f.kept);
      var notice := NoticeLength(RowLengths(omitted, rowLength), Reserve(budget));
      var parts := if omitted == [] then f.parts else f.parts + [notice];
      Digest(parts, Tokens(Joined(parts)), f.kept, omitted)
  }

  // ---- Conservation ---------------------------------------------------------------------------

  lemma {:induction false} SumAppend(xs: seq<nat>, ys: seq<nat>)
    ensures Sum(xs + ys) == Sum(xs) + Sum(ys)
  {
    if ys == [] {
      assert xs + ys == xs;
    } else {
      SumAppend(xs, ys[..|ys| - 1]);
      assert (xs + ys)[..|xs + ys| - 1] == xs + ys[..|ys| - 1];
    }
  }

  /** Rounding line by line never comes out below rounding the whole. */
  lemma {:induction false} CostsCover(head: nat, entries: seq<nat>)
    ensures 2 * BodyLength(head, entries) <= 7 * (LineCost(head) + Costs(entries))
    ensures Tokens(BodyLength(head, entries)) <= LineCost(head) + Costs(entries)
  {
    SumAppend([head], entries);
    assert Sum([head]) == head by { assert [head][..0] == []; }
    CostsLength(entries);
  }

  lemma {:induction false} CostsLength(entries: seq<nat>)
    ensures 2 * (Sum(entries) + |entries|) <= 7 * Costs(entries)
  {
    if entries != [] { CostsLength(entries[..|entries| - 1]); }
  }

  lemma {:induction false} FitStaysInside(entries: seq<nat>, cursor: nat, fill: nat)
    ensures var n := FitCount(entries, cursor, fill); n > 0 ==> cursor + Costs(entries[..n]) <= fill
  {
    var n := FitCount(entries, cursor, fill);
    if n > 0 {
      var first := LineCost(entries[0]);
      FitStaysInside(entries[1..], cursor + first, fill);
      CostsFirst(entries[..n]);
      assert entries[..n][1..] == entries[1..][..n - 1];
    }
  }

  lemma {:induction false} CostsFirst(entries: seq<nat>)
    requires entries != []
    ensures Costs(entries) == LineCost(entries[0]) + Costs(entries[1..])
  {
    var n := |entries| - 1;
    if n == 0 {
      assert entries[..0] == [] && entries[1..] == [];
    } else {
      CostsFirst(entries[..n]);
      assert entries[..n][1..] == entries[1..][..n - 1];
    }
  }

  /** A section that fits entry by entry fits whole, so one that does not fit whole withholds something. */
  lemma WholeIfAllFit(s: Section, used: nat, fill: nat)
    requires used + Tokens(BodyLength(s.head, s.entries)) > fill && s.entries != []
    ensures FitCount(s.entries, used + LineCost(s.head), fill) < |s.entries|
  {
    FitStaysInside(s.entries, used + LineCost(s.head), fill);
    CostsCover(s.head, s.entries);
    assert s.entries[..|s.entries|] == s.entries;
  }

  /** Budget omissions recorded for section `i`, in all. */
  function Withheld(omitted: seq<Omission>, i: nat): nat {
    if omitted == [] then 0
    else
      var o := omitted[|omitted| - 1];
      Withheld(omitted[..|omitted| - 1], i) + (if o.section == i && o.reason.Budget? then o.count else 0)
  }

  lemma {:induction false} WithheldAppend(a: seq<Omission>, b: seq<Omission>, i: nat)
    ensures Withheld(a + b, i) == Withheld(a, i) + Withheld(b, i)
  {
    if b == [] {
      assert a + b == a;
    } else {
      WithheldAppend(a, b[..|b| - 1], i);
      assert (a + b)[..|a + b| - 1] == a + b[..|b| - 1];
    }
  }

  lemma {:induction false} WithheldOf(k: nat, s: Section, kept: seq<nat>, i: nat)
    ensures Withheld(OmissionsOf(k, s, kept), i) == if i == k && |kept| < |s.entries| then |s.entries| - |kept| else 0
  {
    var a := if |kept| < |s.entries| then [Omission(k, |s.entries| - |kept|, Budget)] else [];
    var b := if s.overflow.Some? then [Omission(k, s.overflow.value, Relevance)] else [];
    WithheldAppend(a, b, i);
    assert a != [] ==> a[..0] == [];
    assert b != [] ==> b[..0] == [];
  }

  lemma {:induction false} WithheldIn(sections: seq<Section>, kept: seq<seq<nat>>, i: nat)
    requires |sections| == |kept| && forall j :: 0 <= j < |kept| ==> |kept[j]| <= |sections[j].entries|
    ensures Withheld(Omissions(sections, kept), i)
      == if 1 <= i <= |sections| then |sections[i - 1].entries| - |kept[i - 1]| else 0
  {
    if sections != [] {
      var n := |sections| - 1;
      WithheldIn(sections[..n], kept[..n], i);
      WithheldAppend(Omissions(sections[..n], kept[..n]), OmissionsOf(n + 1, sections[n], kept[n]), i);
      WithheldOf(n + 1, sections[n], kept[n], i);
    }
  }

  lemma {:induction false} KeptArePrefixes(start: Fill, sections: seq<Section>, fill: nat, i: nat)
    requires start.kept == [] && i < |sections|
    ensures FillAll(start, sections, fill).kept[i] <= sections[i].entries
  {
    if i < |sections| - 1 { KeptArePrefixes(start, sections[..|sections| - 1], fill, i); }
  }

  /**
   * Nothing disappears: in every section the entries shown are a prefix of its entries, and what is
   * shown and what is recorded as withheld for the budget add up to all of them.
   */
  lemma {:induction false} ShownPlusWithheldIsAll(h: Header, sections: seq<Section>, budget: nat,
                                                  rowLength: Omission -> nat, i: nat)
    requires Buildable(h, sections) && i < |sections|
    ensures var d := DigestOf(h, sections, budget, rowLength);
            && |d.kept| == |sections| && d.kept[i] <= sections[i].entries
            && |d.kept[i]| + Withheld(d.omitted, i + 1) == |sections[i].entries|
  {
    var f := Filled(h, sections, budget);
    var start := Fill(Tokens(HeaderLength(h, budget)), [HeaderLength(h, budget)], []);
    forall j | 0 <= j < |sections| ensures f.kept[j] <= sections[j].entries {
      KeptArePrefixes(start, sections, FillBudget(budget), j);
    }
    WithheldIn(sections, f.kept, i + 1);
    WithheldAppend(HeaderOmission(h, budget), Omissions(sections, f.kept), i + 1);
    HeaderWithholdsNone(h, budget, i + 1);
  }

  lemma {:induction false} HeaderWithholdsNone(h: Header, budget: nat, i: nat)
    requires i > 0
    ensures Withheld(HeaderOmission(h, budget), i) == 0
  {
    var o := HeaderOmission(h, budget);
    assert o != [] ==> o[..0] == [];
  }

  ghost predicate CountsPositive(omitted: seq<Omission>) {
    forall k :: 0 <= k < |omitted| && omitted[k].reason.Budget? ==> omitted[k].count >= 1
  }

  lemma {:induction false} OmissionsPositive(sections: seq<Section>, kept: seq<seq<nat>>)
    requires |sections| == |kept|
    ensures CountsPositive(Omissions(sections, kept))
  {
    if sections != [] { OmissionsPositive(sections[..|sections| - 1], kept[..|sections| - 1]); }
  }

  /** Every budget omission on record withholds at least one entry. */
  lemma BudgetOmissionsWithhold(h: Header, sections: seq<Section>, budget: nat, rowLength: Omission -> nat)
    ensures CountsPositive(DigestOf(h, sections, budget, rowLength).omitted)
  {
    OmissionsPositive(sections, Filled(h, sections, budget).kept);
    PositiveAppend(HeaderOmission(h, budget), Omissions(sections, Filled(h, sections, budget).kept));
  }

  lemma PositiveAppend(a: seq<Omission>, b: seq<Omission>)
    requires CountsPositive(a) && CountsPositive(b)
    ensures CountsPositive(a + b)
  {
  }

  // ---- The bound ------------------------------------------------------------------------------

  /** The count in use never exceeds the fill budget unless the header alone did, and it covers the text so far. */
  lemma {:induction false} FillBounded(start: Fill, sections: seq<Section>, fill: nat)
    requires 2 * Sum(start.parts) <= 7 * start.used
    ensures var f := FillAll(start, sections, fill);
            && f.used <= Max(start.used, fill)
            && 2 * Sum(f.parts) <= 7 * f.used
            && |f.parts| <= |start.parts| + |sections|
  {
    if sections != [] {
      var n := |sections| - 1;
      FillBounded(start, sections[..n], fill);
      FillOneBounded(FillAll(start, sections[..n], fill), sections[n], fill);
    }
  }

  lemma FillOneBounded(f: Fill, s: Section, fill: nat)
    requires 2 * Sum(f.parts) <= 7 * f.used
    ensures var next := FillOne(f, s, fill);
            && next.used <= Max(f.used, fill) && 2 * Sum(next.parts) <= 7 * next.used
            && |next.parts| <= |f.parts| + 1
  {
    var next := FillOne(f, s, fill);
    if |next.parts| > |f.parts| {
      assert next.parts[..|f.parts|] == f.parts;
      var start := f.used + LineCost(s.head);
      FitStaysInside(s.entries, start, fill);
      CostsCover(s.head, s.entries[..FitCount(s.entries, start, fill)]);
    }
  }

  lemma {:induction false} NoticeFits(rows: seq<nat>, reserve: nat)
    requires reserve >= 48
    ensures Tokens(Joined(NOTICE_HEAD + TrimmedRows(rows, reserve) + [0])) <= reserve
  {
    if rows == [] {
      BareNotice();
    } else if Tokens(Joined(NOTICE_HEAD + rows + [0])) > reserve {
      NoticeFits(rows[..|rows| - 1], reserve);
    }
  }

  lemma BareNotice()
    ensures Tokens(Joined(NOTICE_HEAD + [] + [0])) == 48
  {
    assert NOTICE_HEAD + [] + [0] == [0, 21, 79, 61, 0];
    var a := [0, 21, 79, 61, 0];
    assert a[..4] == [0, 21, 79, 61] && a[..4][..3] == [0, 21, 79] && a[..4][..3][..2] == [0, 21];
    assert a[..4][..3][..2][..1] == [0] && [0][..0] == [];
    assert Sum([0]) == 0 && Sum([0, 21]) == 21 && Sum([0, 21, 79]) == 100 && Sum([0, 21, 79, 61]) == 161;
    assert Sum(a) == 161;
  }

  lemma HeaderSum(h: Header, budget: nat)
    ensures var length := HeaderLength(h, budget); Sum([length]) == length && 2 * length <= 7 * Tokens(length)
  {
    var length := HeaderLength(h, budget);
    assert [length][..0] == [];
  }

  lemma EmptyScopeTokens()
    ensures Joined(EMPTY_SCOPE) == 58 && Tokens(58) == 17
  {
    var a: seq<nat> := [22, 0, 34];
    assert a[..2] == [22, 0] && a[..2][..1] == [22] && [22][..0] == [];
    assert Sum([22]) == 22 && Sum([22, 0]) == 22 && Sum(a) == 56;
  }

  lemma {:induction false} JoinedAppend(parts: seq<nat>, last: nat)
    requires parts != []
    ensures Joined(parts + [last]) == Sum(parts) + last + |parts|
  {
    assert (parts + [last])[..|parts|] == parts;
  }

  /** Bounds on the filled parts: their tokens, their length against the count, and how many there are. */
  lemma FilledBounded(h: Header, sections: seq<Section>, budget: nat)
    requires Buildable(h, sections)
    ensures var f := Filled(h, sections, budget);
            && f.used <= Max(Tokens(HeaderLength(h, budget)), FillBudget(budget))
            && 2 * Sum(f.parts) <= 7 * f.used && 1 <= |f.parts| <= 7
  {
    var length := HeaderLength(h, budget);
    HeaderSum(h, budget);
    FillBounded(Fill(Tokens(length), [length], []), sections, FillBudget(budget));
    PartsGrow(Fill(Tokens(length), [length], []), sections, FillBudget(budget));
  }

  lemma {:induction false} PartsGrow(start: Fill, sections: seq<Section>, fill: nat)
    ensures |FillAll(start, sections, fill).parts| >= |start.parts|
  {
    if sections != [] { PartsGrow(start, sections[..|sections| - 1], fill); }
  }

  /**
   * For every input the estimate is at most the larger of the header's own tokens and the fill budget,
   * plus the notice reserve, plus two for the line feeds between parts.
   */
  lemma EstimateBounded(h: Header, sections: seq<Section>, budget: nat, rowLength: Omission -> nat)
    requires Buildable(h, sections)
    ensures DigestOf(h, sections, budget, rowLength).estimatedTokens
         <= Max(Tokens(HeaderLength(h, budget)), FillBudget(budget)) + Reserve(budget) + 2
  {
    EmptyScopeTokens();
    FilledBounded(h, sections, budget);
    var f, d := Filled(h, sections, budget), DigestOf(h, sections, budget, rowLength);
    if h.inventory != [] {
      NoticeFits(RowLengths(d.omitted, rowLength), Reserve(budget));
      JoinedAppend(f.parts, NoticeLength(RowLengths(d.omitted, rowLength), Reserve(budget)));
    }
  }

  /** Once the header fits what the reserve leaves, the digest exceeds the budget by two tokens at most. */
  lemma WithinTwoOfBudget(h: Header, sections: seq<Section>, budget: nat, rowLength: Omission -> nat)
    requires Buildable(h, sections) && Tokens(HeaderLength(h, budget)) <= FillBudget(budget)
    ensures DigestOf(h, sections, budget, rowLength).estimatedTokens <= budget + 2
  {
    EstimateBounded(h, sections, budget, rowLength);
  }

  // ---- When the digest stays within the budget -----------------------------------------------------

  function Bodies(sections: seq<Section>): nat {
    if sections == [] then 0
    else
      var last := sections[|sections| - 1];
      Bodies(sections[..|sections| - 1]) + Tokens(BodyLength(last.head, last.entries))
  }

  ghost predicate AllShown(sections: seq<Section>, kept: seq<seq<nat>>) {
    |kept| == |sections| && forall i :: 0 <= i < |sections| ==> |kept[i]| >= |sections[i].entries|
  }

  /** All entries are shown exactly if header and sections fit the fill budget together; then the count is their sum. */
  lemma {:induction false} ShownExactly(start: Fill, sections: seq<Section>, fill: nat)
    requires start.kept == [] && forall i :: 0 <= i < |sections| ==> sections[i].entries != []
    ensures var f := FillAll(start, sections, fill);
            && (AllShown(sections, f.kept) <==> sections == [] || start.used + Bodies(sections) <= fill)
            && (AllShown(sections, f.kept) ==> f.used == start.used + Bodies(sections))
  {
    if sections != [] {
      var n := |sections| - 1;
      var init, last := sections[..n], sections[n];
      ShownExactly(start, init, fill);
      var f := FillAll(start, init, fill);
      ShownNext(f, init, last, fill);
      assert sections == init + [last];
    }
  }

  lemma ShownNext(f: Fill, init: seq<Section>, last: Section, fill: nat)
    requires |f.kept| == |init| && last.entries != []
    ensures var next, used := FillOne(f, last, fill), f.used + Tokens(BodyLength(last.head, last.entries));
            && (AllShown(init + [last], next.kept) <==> AllShown(init, f.kept) && used <= fill)
            && (AllShown(init + [last], next.kept) ==> next.used == used)
  {
    var next := FillOne(f, last, fill);
    if f.used + Tokens(BodyLength(last.head, last.entries)) > fill {
      WholeIfAllFit(last, f.used, fill);
      assert next.kept[|init|] == last.entries[..FitCount(last.entries, f.used + LineCost(last.head), fill)];
    }
    assert (init + [last])[..|init|] == init && next.kept[..|init|] == f.kept;
    if AllShown(init + [last], next.kept) {
      forall i | 0 <= i < |init| ensures |f.kept[i]| >= |init[i].entries| {
        assert (init + [last])[i] == init[i] && next.kept[i] == f.kept[i];
      }
      assert (init + [last])[|init|] == last;
    }
  }

  lemma {:induction false} NoOmissionsExactly(sections: seq<Section>, kept: seq<seq<nat>>)
    requires |sections| == |kept|
    ensures Omissions(sections, kept) == [] <==> AllShown(sections, kept) && OverflowCount(sections) == 0
  {
    if sections != [] {
      var n := |sections| - 1;
      NoOmissionsExactly(sections[..n], kept[..n]);
      assert AllShown(sections, kept) <==> AllShown(sections[..n], kept[..n]) && |kept[n]| >= |sections[n].entries|;
    }
  }

  /** The digest leaves nothing out exactly if all of it fits and nothing was irrelevant. */
  predicate FitsWhole(h: Header, sections: seq<Section>, budget: nat) {
    && (h.detail == [] || DetailFits(h, budget)) && OverflowCount(sections) == 0
    && (sections == [] || Tokens(HeaderLength(h, budget)) + Bodies(sections) <= FillBudget(budget))
  }

  lemma NothingOmittedExactly(h: Header, sections: seq<Section>, budget: nat, rowLength: Omission -> nat)
    requires Buildable(h, sections) && h.inventory != []
    ensures DigestOf(h, sections, budget, rowLength).omitted == [] <==> FitsWhole(h, sections, budget)
  {
    var length := HeaderLength(h, budget);
    ShownExactly(Fill(Tokens(length), [length], []), sections, FillBudget(budget));
    NoOmissionsExactly(sections, Filled(h, sections, budget).kept);
  }

  /** A digest that leaves nothing out is within the budget exactly if its header is. */
  lemma WholeDigestWithinBudget(h: Header, sections: seq<Section>, budget: nat, rowLength: Omission -> nat)
    requires Buildable(h, sections) && h.inventory != [] && FitsWhole(h, sections, budget)
    ensures var d := DigestOf(h, sections, budget, rowLength);
            d.estimatedTokens <= budget <==> Tokens(HeaderLength(h, budget)) <= budget
  {
    var length := HeaderLength(h, budget);
    NothingOmittedExactly(h, sections, budget, rowLength);
    HeaderSum(h, budget);
    FilledBounded(h, sections, budget);
  }

  lemma {:induction false} TrimmedShorter(rows: seq<nat>, reserve: nat)
    ensures NoticeLength(rows, reserve) <= Joined(NOTICE_HEAD + rows + [0])
  {
    if rows != [] && Tokens(Joined(NOTICE_HEAD + rows + [0])) > reserve {
      TrimmedShorter(rows[..|rows| - 1], reserve);
      NoticeSum(rows);
      NoticeSum(rows[..|rows| - 1]);
    }
  }

  lemma {:induction false} NoticeSum(rows: seq<nat>)
    ensures Joined(NOTICE_HEAD + rows + [0]) == 165 + Sum(rows) + |rows|
  {
    HeadSum();
    SumBetween(NOTICE_HEAD, rows);
  }

  lemma HeadSum()
    ensures Sum(NOTICE_HEAD) == 161
  {
    var a: seq<nat> := [0, 21, 79, 61];
    assert a[..3] == [0, 21, 79] && a[..3][..2] == [0, 21] && a[..3][..2][..1] == [0] && [0][..0] == [];
    assert Sum([0]) == 0 && Sum([0, 21]) == 21 && Sum([0, 21, 79]) == 100;
  }

  lemma {:induction false} SumBetween(head: seq<nat>, rows: seq<nat>)
    ensures Joined(head + rows + [0]) == Sum(head) + Sum(rows) + |head| + |rows|
  {
    SumAppend(head, rows);
    assert (head + rows + [0])[..|head + rows|] == head + rows;
  }

  /** With the header inside the fill budget and two tokens of the reserve to spare, the budget holds. */
  lemma SpareReserveSuffices(h: Header, sections: seq<Section>, budget: nat, rowLength: Omission -> nat)
    requires Buildable(h, sections) && h.inventory != [] && Tokens(HeaderLength(h, budget)) <= FillBudget(budget)
    requires var rows := RowLengths(DigestOf(h, sections, budget, rowLength).omitted, rowLength);
             Tokens(Joined(NOTICE_HEAD + rows + [0])) + 2 <= Reserve(budget)
    ensures DigestOf(h, sections, budget, rowLength).estimatedTokens <= budget
  {
    var f, d := Filled(h, sections, budget), DigestOf(h, sections, budget, rowLength);
    var rows := RowLengths(d.omitted, rowLength);
    FilledBounded(h, sections, budget);
    TrimmedShorter(rows, Reserve(budget));
    JoinedAppend(f.parts, NoticeLength(rows, Reserve(budget)));
  }

  // ---- Exactly when, for budgets with room for every row -----------------------------------------------

  function NothingKept(n: nat): (r: seq<seq<nat>>)
    ensures |r| == n
  {
    if n == 0 then [] else NothingKept(n - 1) + [[]]
  }

  lemma {:induction false} HeaderFillsAll(start: Fill, sections: seq<Section>, fill: nat)
    requires start.used > fill && start.kept == []
    ensures FillAll(start, sections, fill) == start.(kept := NothingKept(|sections|))
  {
    if sections != [] { HeaderFillsAll(start, sections[..|sections| - 1], fill); }
  }

  /** Length of the digest that shows the header and no section. */
  function BareLength(h: Header, sections: seq<Section>, budget: nat, rowLength: Omission -> nat): nat {
    var omitted := HeaderOmission(h, budget) + Omissions(sections, NothingKept(|sections|));
    var length := HeaderLength(h, budget);
    if omitted == [] then length
    else length + 1 + NoticeLength(RowLengths(omitted, rowLength), Reserve(budget))
  }

  lemma BareDigest(h: Header, sections: seq<Section>, budget: nat, rowLength: Omission -> nat)
    requires Buildable(h, sections) && h.inventory != [] && Tokens(HeaderLength(h, budget)) > FillBudget(budget)
    ensures DigestOf(h, sections, budget, rowLength).estimatedTokens == Tokens(BareLength(h, sections, budget, rowLength))
  {
    var length, d := HeaderLength(h, budget), DigestOf(h, sections, budget, rowLength);
    HeaderFillsAll(Fill(Tokens(length), [length], []), sections, FillBudget(budget));
    HeaderSum(h, budget);
    JoinedAppend([length], NoticeLength(RowLengths(d.omitted, rowLength), Reserve(budget)));
  }

  ghost predicate CountsAtMost(omitted: seq<Omission>, limit: nat) {
    forall k :: 0 <= k < |omitted| ==> omitted[k].count <= limit
  }

  /** No list of the input is longer than `limit`. */
  predicate ListsAtMost(h: Header, sections: seq<Section>, limit: nat) {
    && |h.detail| <= limit
    && forall i :: 0 <= i < |sections| ==>
         |sections[i].entries| <= limit && (sections[i].overflow.Some? ==> sections[i].overflow.value <= limit)
  }

  lemma {:induction false} OmissionsFew(sections: seq<Section>, kept: seq<seq<nat>>, h: Header, limit: nat)
    requires |sections| == |kept| && ListsAtMost(h, sections, limit)
    ensures |Omissions(sections, kept)| <= |sections| + OverflowCount(sections)
    ensures CountsAtMost(Omissions(sections, kept), limit)
  {
    if sections != [] { OmissionsFew(sections[..|sections| - 1], kept[..|sections| - 1], h, limit); }
  }

  lemma {:induction false} RowsShort(omitted: seq<Omission>, rowLength: Omission -> nat, limit: nat, width: nat)
    requires CountsAtMost(omitted, limit) && forall o: Omission :: o.count <= limit ==> rowLength(o) <= width
    ensures |RowLengths(omitted, rowLength)| == |omitted|
    ensures Sum(RowLengths(omitted, rowLength)) <= |omitted| * width
  {
    if omitted != [] {
      var n := |omitted| - 1;
      RowsShort(omitted[..n], rowLength, limit, width);
      OneRowMore(RowLengths(omitted[..n], rowLength), rowLength(omitted[n]), n, width);
    }
  }

  lemma {:induction false} OneRowMore(rows: seq<nat>, row: nat, n: nat, width: nat)
    requires Sum(rows) <= n * width && row <= width
    ensures Sum(rows + [row]) <= (n + 1) * width
  {
    assert (rows + [row])[..|rows|] == rows;
    assert (n + 1) * width == n * width + width;
  }

  /** The rows a notice for this input can have: one per section, one for the lists, one for what was irrelevant. */
  function MostRows(h: Header, sections: seq<Section>): nat {
    |sections| + OverflowCount(sections) + (if h.detail == [] then 0 else 1)
  }

  /** So many rows of this width leave two tokens of the reserve to spare. */
  predicate RoomForRows(rows: nat, width: nat, budget: nat) {
    Tokens(165 + rows * (width + 1)) + 2 <= Reserve(budget)
  }

  lemma RowsLeaveRoom(h: Header, sections: seq<Section>, budget: nat, rowLength: Omission -> nat, limit: nat, width: nat)
    requires Buildable(h, sections) && ListsAtMost(h, sections, limit) && RoomForRows(MostRows(h, sections), width, budget)
    requires forall o: Omission :: o.count <= limit ==> rowLength(o) <= width
    ensures var rows := RowLengths(DigestOf(h, sections, budget, rowLength).omitted, rowLength);
            Tokens(Joined(NOTICE_HEAD + rows + [0])) + 2 <= Reserve(budget)
  {
    var omitted := DigestOf(h, sections, budget, rowLength).omitted;
    OmissionsFew(sections, Filled(h, sections, budget).kept, h, limit);
    assert |omitted| <= MostRows(h, sections) && CountsAtMost(omitted, limit);
    RowsShort(omitted, rowLength, limit, width);
    NoticeSum(RowLengths(omitted, rowLength));
    MoreRows(|omitted|, MostRows(h, sections), width);
  }

  lemma MoreRows(n: nat, m: nat, width: nat)
    requires n <= m
    ensures n * width + n == n * (width + 1) <= m * (width + 1)
  {
    assert (m - n) * (width + 1) >= 0;
  }

  /** What is never dropped fits: the one sentence, the header, or the header and the notice. */
  predicate FloorFits(h: Header, sections: seq<Section>, budget: nat, rowLength: Omission -> nat) {
    if h.inventory == [] then 17 <= budget
    else
      || Tokens(HeaderLength(h, budget)) <= FillBudget(budget)
      || Tokens(BareLength(h, sections, budget, rowLength)) <= budget
  }

  /**
   * When the reserve has room for the rows the input can produce, the digest stays within the budget exactly
   * if its header fits what the reserve leaves, or header and notice alone fit the budget.
   */
  lemma WithinBudgetExactly(h: Header, sections: seq<Section>, budget: nat, rowLength: Omission -> nat,
                            limit: nat, width: nat)
    requires Buildable(h, sections) && ListsAtMost(h, sections, limit) && RoomForRows(MostRows(h, sections), width, budget)
    requires forall o: Omission :: o.count <= limit ==> rowLength(o) <= width
    ensures var d := DigestOf(h, sections, budget, rowLength);
            d.estimatedTokens <= budget <==> FloorFits(h, sections, budget, rowLength)
  {
    EmptyScopeTokens();
    if h.inventory != [] {
      if Tokens(HeaderLength(h, budget)) <= FillBudget(budget) {
        RowsLeaveRoom(h, sections, budget, rowLength, limit, width);
        SpareReserveSuffices(h, sections, budget, rowLength);
      } else {
        BareDigest(h, sections, budget, rowLength);
      }
    }
  }
}
