/**
 * The conditional-block scanner. Lines arrive already classified; lines inside branches are recorded
 * by index, so a branch says which lines it holds and not only what they read like.
 */
module Preprocessor {
  import opened Alignment

  datatype Kind = Opens(condition: string) | Mid | Close | Other

  datatype Line = Line(kind: Kind, text: string)

  datatype Entry = Entry(start: nat, condition: string, branches: seq<seq<nat>>, current: seq<nat>)

  datatype Block = Block(start: nat, end: nat, condition: string, branches: seq<seq<nat>>)

  datatype State = State(stack: seq<Entry>, blocks: seq<Block>, stripped: seq<string>)

  function Top(stack: seq<Entry>): Entry
    requires stack != []
  {
    stack[|stack| - 1]
  }

  function Closed(e: Entry, end: nat): Block {
    Block(e.start, end, e.condition, e.branches + [e.current])
  }

  /** One line, numbered `i`. Mid and close directives mean something only inside a block. */
  function Step(st: State, i: nat, line: Line): State {
    if line.kind.Opens? then
      State(st.stack + [Entry(i, line.kind.condition, [], [])], st.blocks, st.stripped + [""])
    else if st.stack == [] then
      State(st.stack, st.blocks, st.stripped + [line.text])
    else
      var top, below := Top(st.stack), st.stack[..|st.stack| - 1];
      match line.kind
      case Mid =>
        State(below + [top.(branches := top.branches + [top.current], current := [])], st.blocks, st.stripped + [""])
      case Close => State(below, st.blocks + [Closed(top, i)], st.stripped + [""])
      case _ => State(below + [top.(current := top.current + [i])], st.blocks, st.stripped + [line.text])
  }

  /** The scanner's state before line `n`. */
  function Scan(lines: seq<Line>, n: nat): State
    requires n <= |lines|
    decreases n, 0
  {
    if n == 0 then State([], [], []) else ScanPast(lines, n - 1)
  }

  /** The scanner's state after line `n`. */
  function ScanPast(lines: seq<Line>, n: nat): State
    requires n < |lines|
    decreases n, 1
  {
    Step(Scan(lines, n), n, lines[n])
  }

  /** Blocks left open at the end of the file, innermost first. */
  function Drain(stack: seq<Entry>, end: nat): seq<Block> {
    if stack == [] then [] else [Closed(Top(stack), end)] + Drain(stack[..|stack| - 1], end)
  }

  /** A split text always has a line. */
  function Extract(lines: seq<Line>): (r: (seq<Block>, seq<string>))
    requires lines != []
  {
    var st := Scan(lines, |lines|);
    (st.blocks + Drain(st.stack, |lines| - 1), st.stripped)
  }

  method ExtractConditionalBlocks(lines: seq<Line>) returns (blocks: seq<Block>, stripped: seq<string>)
    requires lines != []
    ensures (blocks, stripped) == Extract(lines)
  {
    var stack: seq<Entry> := [];
    blocks, stripped := [], [];
    for i := 0 to |lines|
      invariant State(stack, blocks, stripped) == Scan(lines, i)
    {
      var line := lines[i];
      if line.kind.Opens? {
        stack := stack + [Entry(i, line.kind.condition, [], [])];
        stripped := stripped + [""];
      } else if |stack| > 0 {
        var n := |stack| - 1;
        var top := stack[n];
        if line.kind.Mid? {
          stack := stack[..n] + [top.(branches := top.branches + [top.current], current := [])];
          stripped := stripped + [""];
        } else if line.kind.Close? {
          blocks := blocks + [Block(top.start, i, top.condition, top.branches + [top.current])];
          stack := stack[..n];
          stripped := stripped + [""];
        } else {
          stack := stack[..n] + [top.(current := top.current + [i])];
          stripped := stripped + [line.text];
        }
      } else {
        stripped := stripped + [line.text];
      }
    }
    ghost var whole := blocks + Drain(stack, |lines| - 1);
    while |stack| > 0
      invariant blocks + Drain(stack, |lines| - 1) == whole
      decreases |stack|
    {
      var top := stack[|stack| - 1];
      blocks := blocks + [Block(top.start, |lines| - 1, top.condition, top.branches + [top.current])];
      stack := stack[..|stack| - 1];
    }
    assert blocks + [] == blocks;
  }

  // ---- Lines are conserved ----------------------------------------------------------

  function StackAt(lines: seq<Line>, i: nat): seq<Entry>
    requires i <= |lines|
  {
    Scan(lines, i).stack
  }

  /** Line `i` acts as a directive where it stands. */
  predicate Directive(lines: seq<Line>, i: nat)
    requires i < |lines|
  {
    lines[i].kind.Opens? || (StackAt(lines, i) != [] && !lines[i].kind.Other?)
  }

  lemma {:induction false} StrippedCount(lines: seq<Line>, n: nat)
    requires n <= |lines|
    ensures |Scan(lines, n).stripped| == n
  {
    if n > 0 { StrippedCount(lines, n - 1); }
  }

  /** The stripped text has the input's lines one for one, directives blanked and nothing else touched. */
  lemma {:induction false} StrippedLineForLine(lines: seq<Line>, n: nat, i: nat)
    requires i < n <= |lines|
    ensures |Scan(lines, n).stripped| == n
    ensures Scan(lines, n).stripped[i] == if Directive(lines, i) then "" else lines[i].text
  {
    StrippedCount(lines, n - 1);
    if i < n - 1 { StrippedLineForLine(lines, n - 1, i); }
  }

  function Openers(lines: seq<Line>, n: nat): nat
    requires n <= |lines|
  {
    if n == 0 then 0 else Openers(lines, n - 1) + (if lines[n - 1].kind.Opens? then 1 else 0)
  }

  lemma {:induction false} OpenersCounted(lines: seq<Line>, n: nat)
    requires n <= |lines|
    ensures |Scan(lines, n).stack| + |Scan(lines, n).blocks| == Openers(lines, n)
  {
    if n > 0 { OpenersCounted(lines, n - 1); }
  }

  lemma {:induction false} DrainCount(stack: seq<Entry>, end: nat)
    ensures |Drain(stack, end)| == |stack|
  {
    if stack != [] { DrainCount(stack[..|stack| - 1], end); }
  }

  lemma {:induction false} DrainAt(stack: seq<Entry>, end: nat)
    ensures |Drain(stack, end)| == |stack|
    ensures forall k :: 0 <= k < |stack| ==> Drain(stack, end)[k] == Closed(stack[|stack| - 1 - k], end)
  {
    if stack != [] { DrainAt(stack[..|stack| - 1], end); }
  }

  /** One block comes out for every opening directive, closed or not. */
  lemma {:induction false} OneBlockPerOpener(lines: seq<Line>)
    requires lines != []
    ensures |Extract(lines).0| == Openers(lines, |lines|)
  {
    OpenersCounted(lines, |lines|);
    DrainCount(StackAt(lines, |lines|), |lines| - 1);
  }

  // ---- Blocks nest --------------------------------------------------------------------

  /** `a` was finished before `b`: it ends before `b` starts, or lies inside it. */
  predicate BeforeOrInside(a: Block, b: Block) {
    a.end < b.start || (b.start < a.start && a.end <= b.end)
  }

  predicate OpensAt(lines: seq<Line>, start: nat, condition: string) {
    start < |lines| && lines[start].kind == Opens(condition)
  }

  predicate EntryOk(lines: seq<Line>, n: nat, e: Entry) { e.start < n && OpensAt(lines, e.start, e.condition) }

  predicate BlockOk(lines: seq<Line>, n: nat, b: Block) {
    b.start < b.end < n && OpensAt(lines, b.start, b.condition)
  }

  predicate InsideOrBefore(b: Block, e: Entry) { b.end < e.start || e.start < b.start }

  ghost predicate Nested(lines: seq<Line>, n: nat, st: State) {
    && (forall k :: 0 <= k < |st.stack| ==> EntryOk(lines, n, st.stack[k]))
    && (forall j, k :: 0 <= j < k < |st.stack| ==> st.stack[j].start < st.stack[k].start)
    && (forall j :: 0 <= j < |st.blocks| ==> BlockOk(lines, n, st.blocks[j]))
    && (forall j, k :: 0 <= j < |st.blocks| && 0 <= k < |st.stack| ==> InsideOrBefore(st.blocks[j], st.stack[k]))
    && (forall j, k :: 0 <= j < k < |st.blocks| ==> BeforeOrInside(st.blocks[j], st.blocks[k]))
  }

  lemma StepNested(lines: seq<Line>, n: nat, st: State)
    requires n < |lines| && Nested(lines, n, st)
    ensures Nested(lines, n + 1, Step(st, n, lines[n]))
  {
    var next := Step(st, n, lines[n]);
    if lines[n].kind.Opens? || st.stack == [] {
      assert next.blocks == st.blocks;
    } else if lines[n].kind.Close? {
      assert forall j :: 0 <= j < |st.blocks| ==> BeforeOrInside(st.blocks[j], next.blocks[|st.blocks|]);
      assert forall k :: 0 <= k < |next.stack| ==> next.stack[k] == st.stack[k];
    } else {
      assert next.blocks == st.blocks;
      assert forall k :: 0 <= k < |next.stack| ==>
        next.stack[k].start == st.stack[k].start && next.stack[k].condition == st.stack[k].condition;
    }
  }

  lemma {:induction false} ScanNested(lines: seq<Line>, n: nat) returns (st: State)
    requires n <= |lines|
    ensures st == Scan(lines, n) && Nested(lines, n, st)
  {
    st := State([], [], []);
    if n > 0 {
      var before := ScanNested(lines, n - 1);
      StepNested(lines, n - 1, before);
      st := Step(before, n - 1, lines[n - 1]);
    }
  }

  predicate EmittedOk(lines: seq<Line>, b: Block) {
    b.start <= b.end < |lines| && OpensAt(lines, b.start, b.condition)
  }

  /**
   * Every block starts at an opening directive with its condition and stays inside the file, and any
   * two blocks are either disjoint or one lies inside the other, with different starts.
   */
  lemma BlocksNestOrDisjoint(lines: seq<Line>)
    requires lines != []
    ensures var blocks := Extract(lines).0;
            && (forall j :: 0 <= j < |blocks| ==> EmittedOk(lines, blocks[j]))
            && (forall j, k :: 0 <= j < k < |blocks| ==> BeforeOrInside(blocks[j], blocks[k]))
  {
    var st := ScanNested(lines, |lines|);
    DrainAt(st.stack, |lines| - 1);
  }

  // ---- Coverage -----------------------------------------------------------------------

  predicate Covers(b: Block, i: nat) { b.start <= i <= b.end }

  /** The block opened at `s` is still open at line `n`, or closed at or after line `i`. */
  ghost predicate Reaches(st: State, s: nat, i: nat) {
    || (exists k :: 0 <= k < |st.stack| && st.stack[k].start == s)
    || (exists j :: 0 <= j < |st.blocks| && st.blocks[j].start == s && st.blocks[j].end >= i)
  }

  lemma {:induction false} ReachesOn(lines: seq<Line>, i: nat, n: nat, s: nat)
    requires i <= n <= |lines|
    ensures Reaches(Scan(lines, n), s, i) ==> Reaches(Scan(lines, i), s, i) || s >= i
    ensures Reaches(Scan(lines, i), s, i) ==> Reaches(Scan(lines, n), s, i)
    decreases n
  {
    if n > i {
      ReachesOn(lines, i, n - 1, s);
      ReachesStep(Scan(lines, n - 1), n - 1, lines[n - 1], s, i);
      assert Scan(lines, n) == ScanPast(lines, n - 1);
    }
  }

  lemma ReachesStep(st: State, n: nat, line: Line, s: nat, i: nat)
    requires i <= n
    ensures Reaches(Step(st, n, line), s, i) ==> Reaches(st, s, i) || s == n
    ensures Reaches(st, s, i) ==> Reaches(Step(st, n, line), s, i)
  {
    var next := Step(st, n, line);
    if k :| 0 <= k < |st.stack| && st.stack[k].start == s {
      if k < |next.stack| {
        assert next.stack[k].start == s;
      } else {
        assert next.blocks[|st.blocks|].start == s;
      }
    }
    if j :| 0 <= j < |st.blocks| && st.blocks[j].start == s && st.blocks[j].end >= i {
      assert next.blocks[j] == st.blocks[j];
    }
    if k :| 0 <= k < |next.stack| && next.stack[k].start == s {
      if k < |st.stack| { assert st.stack[k].start == s; }
    }
    if j :| 0 <= j < |next.blocks| && next.blocks[j].start == s && next.blocks[j].end >= i {
      if j < |st.blocks| {
        assert st.blocks[j] == next.blocks[j];
      } else {
        assert st.stack[|st.stack| - 1].start == s;
      }
    }
  }

  lemma InsideIsCovered(lines: seq<Line>, i: nat) returns (j: nat)
    requires i < |lines| && StackAt(lines, i) != []
    ensures j < |Extract(lines).0| && Covers(Extract(lines).0[j], i)
    ensures Extract(lines).0[j].start == Top(StackAt(lines, i)).start
  {
    var st := Scan(lines, |lines|);
    DrainAt(st.stack, |lines| - 1);
    var here := ScanNested(lines, i);
    var s := Top(StackAt(lines, i)).start;
    assert Reaches(Scan(lines, i), s, i);
    ReachesOn(lines, i, |lines|, s);
    if k :| 0 <= k < |st.stack| && st.stack[k].start == s {
      j := |st.blocks| + |st.stack| - 1 - k;
    } else {
      j :| 0 <= j < |st.blocks| && st.blocks[j].start == s && st.blocks[j].end >= i;
    }
  }

  lemma CoveredIsInside(lines: seq<Line>, i: nat, j: nat)
    requires i < |lines| && !Directive(lines, i)
    requires j < |Extract(lines).0| && Covers(Extract(lines).0[j], i)
    ensures StackAt(lines, i) != []
  {
    var st := Scan(lines, |lines|);
    var s := Extract(lines).0[j].start;
    DrainAt(st.stack, |lines| - 1);
    BlocksNestOrDisjoint(lines);
    assert OpensAt(lines, s, Extract(lines).0[j].condition);
    if j < |st.blocks| {
      assert st.blocks[j].start == s && st.blocks[j].end >= i;
    } else {
      assert st.stack[|st.stack| - 1 - (j - |st.blocks|)].start == s;
    }
    ReachesOn(lines, i, |lines|, s);
    var here := ScanNested(lines, i);
    assert Reaches(Scan(lines, i), s, i);
  }

  /** A line that is no directive is covered by some block exactly when it was read inside one. */
  lemma CoveredIffInside(lines: seq<Line>, i: nat)
    requires i < |lines| && !Directive(lines, i)
    ensures (exists j :: 0 <= j < |Extract(lines).0| && Covers(Extract(lines).0[j], i)) <==> StackAt(lines, i) != []
  {
    if StackAt(lines, i) != [] {
      var j := InsideIsCovered(lines, i);
    }
    if j :| 0 <= j < |Extract(lines).0| && Covers(Extract(lines).0[j], i) {
      CoveredIsInside(lines, i, j);
    }
  }

  // ---- Every inside line lands in one branch of its innermost block ----------------------

  function Innermost(stack: seq<Entry>): Option<nat> {
    if stack == [] then None else Some(Top(stack).start)
  }

  /** For each line, the opener of the block that is innermost when the line is read. */
  function Owners(lines: seq<Line>, n: nat): (r: seq<Option<nat>>)
    requires n <= |lines|
    ensures |r| == n
  {
    if n == 0 then [] else Owners(lines, n - 1) + [Innermost(StackAt(lines, n - 1))]
  }

  lemma {:induction false} OwnerAt(lines: seq<Line>, n: nat, i: nat)
    requires i < n <= |lines|
    ensures Owners(lines, n)[i] == Innermost(StackAt(lines, i))
  {
    if i < n - 1 { OwnerAt(lines, n - 1, i); }
  }

  function AppendToLast(branches: seq<seq<nat>>, i: nat): seq<seq<nat>> {
    if branches == [] then [[i]] else branches[|branches| - 1 := branches[|branches| - 1] + [i]]
  }

  /** What an owned line does to its block's branches: plain lines join the last, mid directives open one. */
  function OwnLine(branches: seq<seq<nat>>, i: nat, kind: Kind): seq<seq<nat>> {
    if kind.Other? then AppendToLast(branches, i) else if kind.Mid? then branches + [[]] else branches
  }

  /**
   * The branches of one block read off on their own: the lines it owns among the first `n`, cut at
   * the mid directives it owns.
   */
  function BranchesOf(lines: seq<Line>, owners: seq<Option<nat>>, n: nat, s: nat): seq<seq<nat>>
    requires n <= |lines| == |owners|
    decreases n, 0
  {
    if n == 0 then [[]] else BranchesPast(lines, owners, n - 1, s)
  }

  function BranchesPast(lines: seq<Line>, owners: seq<Option<nat>>, n: nat, s: nat): seq<seq<nat>>
    requires n < |lines| == |owners|
    decreases n, 1
  {
    if owners[n] == Some(s) then OwnLine(BranchesOf(lines, owners, n, s), n, lines[n].kind)
    else BranchesOf(lines, owners, n, s)
  }

  ghost predicate Recorded(lines: seq<Line>, owners: seq<Option<nat>>, n: nat, st: State)
    requires n <= |lines| == |owners|
  {
    && (forall k :: 0 <= k < |st.stack| ==>
          st.stack[k].branches + [st.stack[k].current] == BranchesOf(lines, owners, n, st.stack[k].start))
    && (forall j :: 0 <= j < |st.blocks| ==>
          st.blocks[j].branches == BranchesOf(lines, owners, n, st.blocks[j].start))
  }

  lemma TopRecords(e: Entry, n: nat, kind: Kind)
    ensures kind.Other? ==> e.branches + [e.current + [n]] == OwnLine(e.branches + [e.current], n, kind)
    ensures kind.Mid? ==> e.branches + [e.current] + [[]] == OwnLine(e.branches + [e.current], n, kind)
  {
  }

  /** Only the innermost entry's record changes, and it changes as the block's own reading does. */
  lemma {:induction false} StepRecords(lines: seq<Line>, owners: seq<Option<nat>>, n: nat, st: State)
    requires n < |lines| == |owners| && Recorded(lines, owners, n, st) && Nested(lines, n, st)
    requires owners[n] == Innermost(st.stack) && BranchesOf(lines, owners, n, n) == [[]]
    ensures Recorded(lines, owners, n + 1, Step(st, n, lines[n]))
  {
    var next, top := Step(st, n, lines[n]), |st.stack| - 1;
    forall k | 0 <= k < |next.stack|
      ensures next.stack[k].branches + [next.stack[k].current]
           == BranchesOf(lines, owners, n + 1, next.stack[k].start)
    {
      if k == top && !lines[n].kind.Opens? { TopRecords(st.stack[top], n, lines[n].kind); }
    }
    forall j | 0 <= j < |next.blocks|
      ensures next.blocks[j].branches == BranchesOf(lines, owners, n + 1, next.blocks[j].start)
    {
      if j < |st.blocks| { assert next.blocks[j] == st.blocks[j]; }
    }
  }

  /** No line is owned by a block that opens at or after it. */
  lemma {:induction false} OwnerOpensBefore(lines: seq<Line>, i: nat, s: nat)
    requires i < |lines| && i <= s
    ensures Owners(lines, |lines|)[i] != Some(s)
  {
    OwnerAt(lines, |lines|, i);
    var before := ScanNested(lines, i);
  }

  lemma {:induction false} NotYetOpened(lines: seq<Line>, owners: seq<Option<nat>>, n: nat, s: nat)
    requires n <= |lines| == |owners| && forall i :: 0 <= i < n ==> owners[i] != Some(s)
    ensures BranchesOf(lines, owners, n, s) == [[]]
  {
    if n > 0 { NotYetOpened(lines, owners, n - 1, s); }
  }

  lemma {:induction false} ScanRecords(lines: seq<Line>, owners: seq<Option<nat>>, n: nat) returns (st: State)
    requires n <= |lines| && owners == Owners(lines, |lines|)
    ensures st == Scan(lines, n) && Recorded(lines, owners, n, st) && Nested(lines, n, st)
  {
    st := State([], [], []);
    if n > 0 {
      var before := ScanRecords(lines, owners, n - 1);
      st := ScanRecordsNext(lines, owners, n - 1, before);
    }
  }

  lemma ScanRecordsNext(lines: seq<Line>, owners: seq<Option<nat>>, n: nat, before: State) returns (st: State)
    requires n < |lines| && owners == Owners(lines, |lines|)
    requires before == Scan(lines, n) && Recorded(lines, owners, n, before) && Nested(lines, n, before)
    ensures st == Step(before, n, lines[n]) && Recorded(lines, owners, n + 1, st) && Nested(lines, n + 1, st)
  {
    forall i | 0 <= i < n ensures owners[i] != Some(n) { OwnerOpensBefore(lines, i, n); }
    NotYetOpened(lines, owners, n, n);
    OwnerAt(lines, |lines|, n);
    StepRecords(lines, owners, n, before);
    StepNested(lines, n, before);
    st := Step(before, n, lines[n]);
  }

  /** Each emitted block's branches are exactly the lines it owns, cut at its own mid directives. */
  lemma {:induction false} BlocksHoldWhatTheyOwn(lines: seq<Line>, j: nat)
    requires lines != [] && j < |Extract(lines).0|
    ensures var b := Extract(lines).0[j];
            b.branches == BranchesOf(lines, Owners(lines, |lines|), |lines|, b.start)
  {
    var st := ScanRecords(lines, Owners(lines, |lines|), |lines|);
    DrainRecords(lines, Owners(lines, |lines|), st, |lines| - 1, j);
  }

  lemma {:induction false} DrainRecords(lines: seq<Line>, owners: seq<Option<nat>>, st: State, end: nat, j: nat)
    requires |lines| == |owners| && Recorded(lines, owners, |lines|, st)
    requires j < |st.blocks + Drain(st.stack, end)|
    ensures var b := (st.blocks + Drain(st.stack, end))[j];
            b.branches == BranchesOf(lines, owners, |lines|, b.start)
  {
    DrainAt(st.stack, end);
    if j >= |st.blocks| {
      assert Drain(st.stack, end)[j - |st.blocks|] == Closed(st.stack[|st.stack| - 1 - (j - |st.blocks|)], end);
    }
  }

  /** How often line `i` occurs in the branches. */
  function Times(branches: seq<seq<nat>>, i: nat): nat {
    if branches == [] then 0
    else Times(branches[..|branches| - 1], i) + multiset(branches[|branches| - 1])[i]
  }

  lemma {:induction false} OwnLineAddsOne(branches: seq<seq<nat>>, n: nat, kind: Kind, i: nat)
    requires branches != []
    ensures OwnLine(branches, n, kind) != []
    ensures Times(OwnLine(branches, n, kind), i) == Times(branches, i) + (if kind.Other? && i == n then 1 else 0)
  {
    var last := |branches| - 1;
    assert AppendToLast(branches, n)[..last] == branches[..last];
    assert (branches + [[]])[..last + 1] == branches;
  }

  /** A line appears in the branches of block `s` once if `s` owns it and it is plain, otherwise not at all. */
  lemma {:induction false} LandsOnceWhereOwned(lines: seq<Line>, owners: seq<Option<nat>>, n: nat, s: nat, i: nat)
    returns (branches: seq<seq<nat>>)
    requires n <= |lines| == |owners|
    ensures branches == BranchesOf(lines, owners, n, s) && branches != []
    ensures Times(branches, i) == if i < n && owners[i] == Some(s) && lines[i].kind.Other? then 1 else 0
  {
    branches := [[]];
    if n == 0 {
      NoLineYet(i);
    } else {
      var before := LandsOnceWhereOwned(lines, owners, n - 1, s, i);
      branches := BranchesPast(lines, owners, n - 1, s);
      LandsNext(before, owners[n - 1] == Some(s), n - 1, lines[n - 1].kind, i);
    }
  }

  lemma LandsNext(before: seq<seq<nat>>, owned: bool, n: nat, kind: Kind, i: nat)
    requires before != []
    ensures var next := if owned then OwnLine(before, n, kind) else before;
            next != [] && Times(next, i) == Times(before, i) + (if owned && kind.Other? && i == n then 1 else 0)
  {
    if owned { OwnLineAddsOne(before, n, kind, i); }
  }

  lemma {:induction false} NoLineYet(i: nat)
    ensures Times([[]], i) == 0
  {
    var branches: seq<seq<nat>> := [[]];
    assert branches[..0] == [];
  }

  /**
   * A plain line read inside a block lands exactly once in that block's branches and in no other
   * block's; a plain line read outside every block, and a directive, land nowhere.
   */
  lemma {:induction false} LandsInInnermostOnly(lines: seq<Line>, i: nat, j: nat)
    requires i < |lines| && j < |Extract(lines).0|
    ensures var b := Extract(lines).0[j];
            Times(b.branches, i)
              == if Innermost(StackAt(lines, i)) == Some(b.start) && lines[i].kind.Other? then 1 else 0
  {
    BlocksHoldWhatTheyOwn(lines, j);
    OwnerAt(lines, |lines|, i);
    var branches := LandsOnceWhereOwned(lines, Owners(lines, |lines|), |lines|, Extract(lines).0[j].start, i);
  }

  /**
   * The block that is innermost when a plain line is read is among the emitted ones, the line is in
   * its branches exactly once, and no other emitted block holds it.
   */
  lemma {:induction false} LandsExactlyOnce(lines: seq<Line>, i: nat) returns (j: nat)
    requires i < |lines| && StackAt(lines, i) != [] && lines[i].kind.Other?
    ensures var blocks := Extract(lines).0;
            && j < |blocks| && blocks[j].start == Top(StackAt(lines, i)).start && Covers(blocks[j], i)
            && Times(blocks[j].branches, i) == 1
            && forall k :: 0 <= k < |blocks| && k != j ==> Times(blocks[k].branches, i) == 0
  {
    j := InsideIsCovered(lines, i);
    LandsInInnermostOnly(lines, i, j);
    BlocksNestOrDisjoint(lines);
    var blocks := Extract(lines).0;
    forall k | 0 <= k < |blocks| && k != j ensures Times(blocks[k].branches, i) == 0 {
      assert if j < k then BeforeOrInside(blocks[j], blocks[k]) else BeforeOrInside(blocks[k], blocks[j]);
      assert EmittedOk(lines, blocks[j]) && EmittedOk(lines, blocks[k]);
      LandsInInnermostOnly(lines, i, k);
    }
  }
}
