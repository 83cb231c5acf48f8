/** What the digest holds, part by part, and what its omissions record, without the fill loop. */
module DigestContents {
  import opened Alignment
  import opened Digest

  // ---- The entries shown ----------------------------------------------------------------------

  /** As many leading entries as fit one by one behind so many tokens, and no more. */
  ghost predicate LongestFit(entries: seq<nat>, start: nat, fill: nat, n: nat) {
    && n <= |entries|
    && (n > 0 ==> start + Costs(entries[..n]) <= fill)
    && forall m :: n < m <= |entries| ==> start + Costs(entries[..m]) > fill
  }

  lemma {:induction false} CostsGrow(entries: seq<nat>, m: nat, n: nat)
    requires m <= n <= |entries|
    ensures Costs(entries[..m]) <= Costs(entries[..n])
  {
    if m < n {
      CostsGrow(entries, m, n - 1);
      assert entries[..n][..n - 1] == entries[..n - 1];
    }
  }

  lemma {:induction false} FitIsLongest(entries: seq<nat>, start: nat, fill: nat)
    ensures LongestFit(entries, start, fill, FitCount(entries, start, fill))
  {
    var n := FitCount(entries, start, fill);
    FitStaysInside(entries, start, fill);
    if n < |entries| {
      NextDoesNotFit(entries, start, fill);
      forall m | n < m <= |entries| ensures start + Costs(entries[..m]) > fill { CostsGrow(entries, n + 1, m); }
    }
  }

  lemma {:induction false} NextDoesNotFit(entries: seq<nat>, start: nat, fill: nat)
    requires FitCount(entries, start, fill) < |entries|
    ensures start + Costs(entries[..FitCount(entries, start, fill) + 1]) > fill
  {
    var n := FitCount(entries, start, fill);
    CostsFirst(entries[..n + 1]);
    assert entries[..n + 1][1..] == entries[1..][..n];
    if n > 0 {
      NextDoesNotFit(entries[1..], start + LineCost(entries[0]), fill);
    } else {
      assert entries[1..][..0] == [];
    }
  }

  /**
   * Section `i` is shown whole if it fits behind the tokens used before it, else its longest fitting
   * start is; only what is shown uses tokens.
   */
  ghost predicate SectionFits(s: Section, before: nat, after: nat, shown: seq<nat>, fill: nat) {
    var whole := before + Tokens(BodyLength(s.head, s.entries));
    && shown <= s.entries
    && (whole <= fill ==> shown == s.entries && after == whole)
    && (whole > fill ==> LongestFit(s.entries, before + LineCost(s.head), fill, |shown|))
    && (whole > fill && shown == [] ==> after == before)
    && (whole > fill && shown != [] ==> after == before + LineCost(s.head) + Costs(shown))
  }

  /** The tokens used after each section. */
  ghost predicate Uses(sections: seq<Section>, kept: seq<seq<nat>>, used: seq<nat>, fill: nat) {
    && |kept| == |sections| && |used| == |sections| + 1
    && forall i :: 0 <= i < |sections| ==> SectionFits(sections[i], used[i], used[i + 1], kept[i], fill)
  }

  lemma FillOneFits(f: Fill, s: Section, fill: nat)
    ensures var next := FillOne(f, s, fill);
            && |next.kept| == |f.kept| + 1 && next.kept[..|f.kept|] == f.kept
            && SectionFits(s, f.used, next.used, next.kept[|f.kept|], fill)
  {
    FitIsLongest(s.entries, f.used + LineCost(s.head), fill);
  }

  lemma {:induction false} FillUses(start: Fill, sections: seq<Section>, fill: nat) returns (used: seq<nat>)
    requires start.kept == []
    ensures Uses(sections, FillAll(start, sections, fill).kept, used, fill)
    ensures used[0] == start.used && used[|sections|] == FillAll(start, sections, fill).used
  {
    if sections == [] {
      used := [start.used];
    } else {
      var n := |sections| - 1;
      var so := FillUses(start, sections[..n], fill);
      var f := FillAll(start, sections[..n], fill);
      FillOneFits(f, sections[n], fill);
      used := so + [FillOne(f, sections[n], fill).used];
      UsesNext(sections, f.kept, FillOne(f, sections[n], fill).kept, so, used, fill);
    }
  }

  lemma UsesNext(sections: seq<Section>, kept: seq<seq<nat>>, more: seq<seq<nat>>, so: seq<nat>, used: seq<nat>,
                 fill: nat)
    requires sections != [] && Uses(sections[..|sections| - 1], kept, so, fill)
    requires |more| == |sections| && more[..|sections| - 1] == kept && |used| == |so| + 1 && used[..|so|] == so
    requires SectionFits(sections[|sections| - 1], used[|so| - 1], used[|so|], more[|sections| - 1], fill)
    ensures Uses(sections, more, used, fill)
  {
    forall i | 0 <= i < |sections| ensures SectionFits(sections[i], used[i], used[i + 1], more[i], fill) {
      if i < |sections| - 1 {
        assert SectionFits(sections[..|sections| - 1][i], so[i], so[i + 1], kept[i], fill);
        assert used[i] == used[..|so|][i] && used[i + 1] == used[..|so|][i + 1] && more[i] == more[..|sections| - 1][i];
      }
    }
  }

  /** From the header's tokens on, each section in turn shows all that fits the fill budget. */
  lemma ShownExactlyWhatFits(h: Header, sections: seq<Section>, budget: nat, rowLength: Omission -> nat)
    returns (used: seq<nat>)
    requires Buildable(h, sections) && h.inventory != []
    ensures Uses(sections, DigestOf(h, sections, budget, rowLength).kept, used, FillBudget(budget))
    ensures used[0] == Tokens(HeaderLength(h, budget))
  {
    var length := HeaderLength(h, budget);
    used := FillUses(Fill(Tokens(length), [length], []), sections, FillBudget(budget));
  }

  // ---- The text -------------------------------------------------------------------------------

  /** One body for every section of which anything is shown, holding its heading and what is shown. */
  function Shown(sections: seq<Section>, kept: seq<seq<nat>>): seq<nat>
    requires |sections| == |kept|
  {
    if sections == [] then []
    else
      var n := |sections| - 1;
      Shown(sections[..n], kept[..n]) + PartOf(sections[n], kept[n])
  }

  function PartOf(s: Section, shown: seq<nat>): seq<nat> { if shown == [] then [] else [BodyLength(s.head, shown)] }

  lemma OnePart(f: Fill, s: Section, fill: nat)
    requires s.entries != []
    ensures var next := FillOne(f, s, fill);
            && |next.kept| == |f.kept| + 1 && next.kept[..|f.kept|] == f.kept
            && next.parts == f.parts + PartOf(s, next.kept[|f.kept|])
  {
  }

  lemma {:induction false} PartsAreShown(start: Fill, sections: seq<Section>, fill: nat)
    requires start.kept == [] && forall i :: 0 <= i < |sections| ==> sections[i].entries != []
    ensures FillAll(start, sections, fill).parts == start.parts + Shown(sections, FillAll(start, sections, fill).kept)
  {
    if sections != [] {
      var n := |sections| - 1;
      PartsAreShown(start, sections[..n], fill);
      var f := FillAll(start, sections[..n], fill);
      FillAllNext(start, sections, n, fill);
      assert sections[..n + 1] == sections;
      OnePart(f, sections[n], fill);
      Assoc(start.parts, Shown(sections[..n], f.kept), PartOf(sections[n], FillOne(f, sections[n], fill).kept[n]));
    }
  }

  /** As many rows of the notice as fit the reserve, from the first on; none if not even the bare notice does. */
  ghost predicate RowsFit(rows: seq<nat>, kept: seq<nat>, reserve: nat) {
    && kept <= rows
    && (kept != [] ==> NoticeTokens(rows, |kept|) <= reserve)
    && forall m :: |kept| < m <= |rows| ==> NoticeTokens(rows, m) > reserve
  }

  function NoticeTokens(rows: seq<nat>, n: nat): nat
    requires n <= |rows|
  {
    Tokens(Joined(NOTICE_HEAD + rows[..n] + [0]))
  }

  lemma {:induction false} TrimmedFits(rows: seq<nat>, reserve: nat)
    ensures RowsFit(rows, TrimmedRows(rows, reserve), reserve)
  {
    var n := |rows|;
    assert rows[..n] == rows;
    if rows != [] && Tokens(Joined(NOTICE_HEAD + rows + [0])) > reserve {
      TrimmedFits(rows[..n - 1], reserve);
      forall m | |TrimmedRows(rows, reserve)| < m <= n ensures NoticeTokens(rows, m) > reserve {
        if m < n {
          assert rows[..n - 1][..m] == rows[..m];
          assert NoticeTokens(rows[..n - 1], m) > reserve;
        }
      }
      var kept := TrimmedRows(rows, reserve);
      assert rows[..n - 1][..|kept|] == rows[..|kept|];
    }
  }

  /**
   * The header, a body for each section shown, and a notice exactly if something was left out; the
   * estimate is the least count of tokens of three and a half characters that covers it.
   */
  ghost predicate TextIs(d: Digest, header: nat, sections: seq<Section>, rows: seq<nat>, reserve: nat) {
    && |d.kept| == |sections| && 2 * Joined(d.parts) <= 7 * d.estimatedTokens < 2 * Joined(d.parts) + 7
    && (d.omitted == [] ==> d.parts == [header] + Shown(sections, d.kept))
    && (d.omitted != [] ==>
          exists fitting :: RowsFit(rows, fitting, reserve)
                         && d.parts == [header] + Shown(sections, d.kept) + [Joined(NOTICE_HEAD + fitting + [0])])
  }

  lemma DigestText(h: Header, sections: seq<Section>, budget: nat, rowLength: Omission -> nat)
    requires Buildable(h, sections) && h.inventory != []
    ensures var d := DigestOf(h, sections, budget, rowLength);
            TextIs(d, HeaderLength(h, budget), sections, RowLengths(d.omitted, rowLength), Reserve(budget))
  {
    var length, d := HeaderLength(h, budget), DigestOf(h, sections, budget, rowLength);
    PartsAreShown(Fill(Tokens(length), [length], []), sections, FillBudget(budget));
    TrimmedFits(RowLengths(d.omitted, rowLength), Reserve(budget));
  }

  // ---- The omissions ----------------------------------------------------------------------------

  /** What may be on record: a partly shown section, one with irrelevant entries, or the dropped lists. */
  ghost predicate Omits(h: Header, budget: nat, sections: seq<Section>, kept: seq<seq<nat>>, o: Omission)
    requires |sections| == |kept|
  {
    || (o.section == 0 && o.reason == Budget && h.detail != [] && o.count == |h.detail|
        && Tokens(Joined(HeaderLines(h) + h.detail)) > budget)
    || (1 <= o.section <= |sections| && o.reason == Relevance && sections[o.section - 1].overflow == Some(o.count))
    || (1 <= o.section <= |sections| && o.reason == Budget
        && |kept[o.section - 1]| < |sections[o.section - 1].entries|
        && o.count == |sections[o.section - 1].entries| - |kept[o.section - 1]|)
  }

  lemma {:induction false} OmissionsExactly(h: Header, budget: nat, sections: seq<Section>, kept: seq<seq<nat>>,
                                            o: Omission)
    requires |sections| == |kept|
    ensures o in HeaderOmission(h, budget) + Omissions(sections, kept) <==> Omits(h, budget, sections, kept, o)
  {
    if sections != [] {
      var n := |sections| - 1;
      OmissionsExactly(h, budget, sections[..n], kept[..n], o);
    }
  }

  /** Exactly these omissions are recorded, and nothing else. */
  lemma RecordedExactly(h: Header, sections: seq<Section>, budget: nat, rowLength: Omission -> nat, o: Omission)
    requires Buildable(h, sections) && h.inventory != []
    ensures var d := DigestOf(h, sections, budget, rowLength);
            |d.kept| == |sections| && (o in d.omitted <==> Omits(h, budget, sections, d.kept, o))
  {
    OmissionsExactly(h, budget, sections, DigestOf(h, sections, budget, rowLength).kept, o);
  }
}
