/** Where each conditional block ends: openers and closers balanced like brackets, without the scanner's stack. */
module DirectiveMatching {
  import opened Alignment
  import opened Preprocessor

  function Weight(kind: Kind): int {
    if kind.Opens? then 1 else if kind.Close? then -1 else 0
  }

  /** Openers less closers on lines `s` to `n - 1`. */
  function Balance(lines: seq<Line>, s: nat, n: nat): int
    requires s <= n <= |lines|
  {
    if n == s then 0 else Balance(lines, s, n - 1) + Weight(lines[n - 1].kind)
  }

  /** Line `s` opens a block that nothing before line `n` closes. */
  ghost predicate OpenAt(lines: seq<Line>, s: nat, n: nat)
    requires n <= |lines|
  {
    s < n && lines[s].kind.Opens? && forall m :: s < m <= n ==> Balance(lines, s, m) > 0
  }

  /** Line `e` closes the block opened at `s`: the first line at which they balance. */
  ghost predicate ClosesAt(lines: seq<Line>, s: nat, e: nat)
    requires e < |lines|
  {
    OpenAt(lines, s, e) && Balance(lines, s, e + 1) == 0
  }

  ghost predicate OnStack(st: State, s: nat) { exists k :: 0 <= k < |st.stack| && st.stack[k].start == s }

  /** Entry `k` has as many unclosed openers from its own on as there are entries from it to the top. */
  ghost predicate Balanced(lines: seq<Line>, n: nat, st: State)
    requires n <= |lines|
  {
    && (forall k :: 0 <= k < |st.stack| ==> EntryBalanced(lines, n, st.stack[k].start, |st.stack| - k))
    && (forall j :: 0 <= j < |st.blocks| ==> BlockClosed(lines, n, st.blocks[j]))
  }

  ghost predicate EntryBalanced(lines: seq<Line>, n: nat, s: nat, depth: nat)
    requires n <= |lines|
  {
    OpenAt(lines, s, n) && Balance(lines, s, n) == depth
  }

  ghost predicate BlockClosed(lines: seq<Line>, n: nat, b: Block)
    requires n <= |lines|
  {
    b.end < n && ClosesAt(lines, b.start, b.end)
  }

  lemma BalanceNext(lines: seq<Line>, s: nat, n: nat, depth: nat)
    requires n < |lines| && EntryBalanced(lines, n, s, depth)
    ensures Balance(lines, s, n + 1) == depth + Weight(lines[n].kind)
    ensures lines[n].kind.Opens? ==> EntryBalanced(lines, n + 1, s, depth + 1)
    ensures lines[n].kind.Close? && depth > 1 ==> EntryBalanced(lines, n + 1, s, depth - 1)
    ensures lines[n].kind.Close? && depth == 1 ==> ClosesAt(lines, s, n)
    ensures lines[n].kind.Mid? || lines[n].kind.Other? ==> EntryBalanced(lines, n + 1, s, depth)
  {
  }

  lemma Opened(lines: seq<Line>, n: nat)
    requires n < |lines| && lines[n].kind.Opens?
    ensures EntryBalanced(lines, n + 1, n, 1)
  {
    assert Balance(lines, n, n) == 0;
  }

  lemma StepBalanced(lines: seq<Line>, n: nat, st: State)
    requires n < |lines| && Balanced(lines, n, st)
    ensures Balanced(lines, n + 1, Step(st, n, lines[n]))
  {
    var next, line := Step(st, n, lines[n]), lines[n];
    forall k | 0 <= k < |next.stack|
      ensures EntryBalanced(lines, n + 1, next.stack[k].start, |next.stack| - k)
    {
      if k < |st.stack| {
        assert next.stack[k].start == st.stack[k].start;
        BalanceNext(lines, st.stack[k].start, n, |st.stack| - k);
      } else {
        Opened(lines, n);
      }
    }
    forall j | 0 <= j < |next.blocks| ensures BlockClosed(lines, n + 1, next.blocks[j]) {
      if j < |st.blocks| {
        assert next.blocks[j] == st.blocks[j] && BlockClosed(lines, n, st.blocks[j]);
      } else {
        BalanceNext(lines, Top(st.stack).start, n, 1);
      }
    }
  }

  lemma {:induction false} ScanBalanced(lines: seq<Line>, n: nat) returns (st: State)
    requires n <= |lines|
    ensures st == Scan(lines, n) && Balanced(lines, n, st)
  {
    st := State([], [], []);
    if n > 0 {
      var before := ScanBalanced(lines, n - 1);
      StepBalanced(lines, n - 1, before);
      st := Step(before, n - 1, lines[n - 1]);
    }
  }

  /** A block that is open by the balance is on the scanner's stack. */
  lemma {:induction false} OpenIsOnStack(lines: seq<Line>, s: nat, n: nat)
    requires n <= |lines| && OpenAt(lines, s, n)
    ensures OnStack(Scan(lines, n), s)
  {
    var st := ScanBalanced(lines, n - 1);
    var next := Step(st, n - 1, lines[n - 1]);
    if n == s + 1 {
      assert next.stack[|st.stack|].start == s;
    } else {
      assert Balance(lines, s, n - 1) > 0 && OpenAt(lines, s, n - 1);
      OpenIsOnStack(lines, s, n - 1);
      var k :| 0 <= k < |st.stack| && st.stack[k].start == s;
      BalanceNext(lines, s, n - 1, |st.stack| - k);
      assert Balance(lines, s, n) > 0;
      assert k < |next.stack| && next.stack[k].start == s;
    }
    assert Scan(lines, n) == ScanPast(lines, n - 1);
  }

  /** The scanner's stack holds exactly the blocks that are open by the balance. */
  lemma {:induction false} StackExactly(lines: seq<Line>, n: nat, s: nat)
    requires n <= |lines|
    ensures OnStack(Scan(lines, n), s) <==> OpenAt(lines, s, n)
  {
    var st := ScanBalanced(lines, n);
    if OpenAt(lines, s, n) { OpenIsOnStack(lines, s, n); }
    if k :| 0 <= k < |st.stack| && st.stack[k].start == s { assert EntryBalanced(lines, n, s, |st.stack| - k); }
  }

  /** The innermost block at a line is the last opened of those still open there; without any, there is none. */
  lemma {:induction false} InnermostExactly(lines: seq<Line>, n: nat, s: nat)
    requires n <= |lines|
    ensures Innermost(StackAt(lines, n)) == Some(s)
      <==> OpenAt(lines, s, n) && forall r :: s < r < n ==> !OpenAt(lines, r, n)
    ensures Innermost(StackAt(lines, n)) == None <==> forall r :: 0 <= r < n ==> !OpenAt(lines, r, n)
  {
    var st := ScanNested(lines, n);
    var top := |st.stack| - 1;
    forall r: nat ensures OnStack(st, r) <==> OpenAt(lines, r, n) { StackExactly(lines, n, r); }
    if st.stack != [] {
      var t := st.stack[top].start;
      assert OnStack(st, t) && OpenAt(lines, t, n);
      forall r: nat | t < r ensures !OnStack(st, r) {
        assert forall k :: 0 <= k < |st.stack| ==> st.stack[k].start <= t;
      }
    }
  }

  /** A block ends where its opener is balanced, or at the last line if it never is. */
  lemma {:induction false} BlocksEndExactly(lines: seq<Line>, j: nat)
    requires lines != [] && j < |Extract(lines).0|
    ensures var b := Extract(lines).0[j];
            && b.end < |lines|
            && (ClosesAt(lines, b.start, b.end) || (OpenAt(lines, b.start, |lines|) && b.end == |lines| - 1))
  {
    var st := ScanBalanced(lines, |lines|);
    DrainAt(st.stack, |lines| - 1);
    if j < |st.blocks| {
      assert BlockClosed(lines, |lines|, st.blocks[j]);
    } else {
      var k := |st.stack| - 1 - (j - |st.blocks|);
      assert EntryBalanced(lines, |lines|, st.stack[k].start, |st.stack| - k);
    }
  }
}
