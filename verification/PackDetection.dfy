/** Replay of `#pragma pack` directives, and the scan for a balanced attribute group. */
module PackDetection {
  import opened Alignment

  datatype Kind = Set(value: nat) | Reset | Push(argument: Option<nat>) | Pop

  /** Directives come from the scanner in source order. */
  datatype Directive = Directive(line: nat, kind: Kind)

  /** `n > 0 && n <= 16 && (n & (n - 1)) === 0`. */
  predicate IsPackValue(n: nat) {
    0 < n <= 16 && (n as bv8) & ((n - 1) as bv8) == 0
  }

  /** The bit trick accepts exactly the powers of two up to 16. */
  lemma {:induction false} PackValuesArePowers(n: nat)
    ensures IsPackValue(n) <==> Pow2(n) && n <= 16
  {
    if 0 < n <= 16 {
      if n in {1, 2, 4, 8, 16} {
        assert Pow2(1) && Pow2(2) && Pow2(4) && Pow2(8) && Pow2(16);
      } else {
        assert n in {3, 5, 6, 7, 9, 10, 11, 12, 13, 14, 15};
        assert !Pow2(3) && !Pow2(5) && !Pow2(6) && !Pow2(7) && !Pow2(9) && !Pow2(10);
        assert !Pow2(11) && !Pow2(12) && !Pow2(13) && !Pow2(14) && !Pow2(15);
      }
    }
  }

  // ---- Replay -----------------------------------------------------------------------

  datatype State = State(current: Option<nat>, stack: seq<Option<nat>>)

  const INITIAL := State(None, [])

  function Step(st: State, kind: Kind): State {
    match kind
    case Set(v) => st.(current := Some(v))
    case Reset => st.(current := None)
    case Push(arg) => State(if arg.Some? then arg else st.current, st.stack + [st.current])
    case Pop =>
      if st.stack == [] then st.(current := None)
      else State(st.stack[|st.stack| - 1], st.stack[..|st.stack| - 1])
  }

  function Replay(st: State, ds: seq<Directive>): State {
    if ds == [] then st else Step(Replay(st, ds[..|ds| - 1]), ds[|ds| - 1].kind)
  }

  lemma {:induction false} ReplayAppend(st: State, a: seq<Directive>, b: seq<Directive>)
    ensures Replay(st, a + b) == Replay(Replay(st, a), b)
  {
    if b == [] {
      assert a + b == a;
    } else {
      ReplayAppend(st, a, b[..|b| - 1]);
      assert (a + b)[..|a + b| - 1] == a + b[..|b| - 1];
    }
  }

  datatype Checkpoint = Checkpoint(line: nat, value: Option<nat>)

  method BuildPackMap(ds: seq<Directive>) returns (checkpoints: seq<Checkpoint>)
    ensures |checkpoints| == |ds|
    ensures forall i :: 0 <= i < |ds| ==> checkpoints[i] == Checkpoint(ds[i].line, Replay(INITIAL, ds[..i + 1]).current)
    ensures forall i :: 0 <= i < |ds| ==> InEffect(ds[..i + 1], checkpoints[i].value)
  {
    checkpoints := [];
    var stack: seq<Option<nat>> := [];
    var current: Option<nat> := None;
    for i := 0 to |ds|
      invariant |checkpoints| == i
      invariant State(current, stack) == Replay(INITIAL, ds[..i])
      invariant forall j :: 0 <= j < i ==>
        checkpoints[j] == Checkpoint(ds[j].line, Replay(INITIAL, ds[..j + 1]).current)
    {
      assert ds[..i + 1][..i] == ds[..i];
      match ds[i].kind {
        case Set(v) => current := Some(v);
        case Reset => current := None;
        case Push(arg) =>
          stack := stack + [current];
          if arg.Some? { current := arg; }
        case Pop =>
          if |stack| > 0 {
            current := stack[|stack| - 1];
            stack := stack[..|stack| - 1];
          } else {
            current := None;
          }
      }
      checkpoints := checkpoints + [Checkpoint(ds[i].line, current)];
    }
    forall i | 0 <= i < |ds| ensures InEffect(ds[..i + 1], checkpoints[i].value) { ReplayedIsInEffect(ds[..i + 1]); }
  }

  ghost predicate InSourceOrder(ds: seq<Directive>) {
    forall i, j :: 0 <= i < j < |ds| ==> ds[i].line <= ds[j].line
  }

  // ---- Values -----------------------------------------------------------------------

  /** The scanner only hands on arguments that pass `IsPackValue`. */
  predicate Scanned(kind: Kind) {
    (kind.Set? ==> IsPackValue(kind.value)) && (kind.Push? && kind.argument.Some? ==> IsPackValue(kind.argument.value))
  }

  predicate Sane(v: Option<nat>) { v.Some? ==> IsPackValue(v.value) }

  /** Whatever the directives, the value in effect is absent or a power of two up to 16, and so is all on the stack. */
  lemma {:induction false} ValuesStaySane(ds: seq<Directive>)
    requires forall i :: 0 <= i < |ds| ==> Scanned(ds[i].kind)
    ensures var st := Replay(INITIAL, ds);
            Sane(st.current) && forall k :: 0 <= k < |st.stack| ==> Sane(st.stack[k])
  {
    if ds != [] { ValuesStaySane(ds[..|ds| - 1]); }
  }

  // ---- Scoping ----------------------------------------------------------------------

  function Depth(ds: seq<Directive>): int {
    if ds == [] then 0
    else
      var k := ds[|ds| - 1].kind;
      Depth(ds[..|ds| - 1]) + (if k.Push? then 1 else if k.Pop? then -1 else 0)
  }

  /** No prefix pops more than it pushed. */
  ghost predicate NeverBelow(ds: seq<Directive>) {
    forall n :: 0 <= n <= |ds| ==> Depth(ds[..n]) >= 0
  }

  ghost predicate Balanced(ds: seq<Directive>) { NeverBelow(ds) && Depth(ds) == 0 }

  lemma {:induction false} StackBelowKept(st: State, ds: seq<Directive>)
    requires NeverBelow(ds)
    ensures var after := Replay(st, ds);
            Depth(ds) >= 0 && |after.stack| == |st.stack| + Depth(ds) && after.stack[..|st.stack|] == st.stack
  {
    if ds != [] {
      var n := |ds| - 1;
      assert forall m :: 0 <= m <= n ==> ds[..n][..m] == ds[..m];
      StackBelowKept(st, ds[..n]);
      assert ds[..|ds|] == ds;
    }
  }

  /** A push, any balanced run of directives, and a pop restore both the value and the stack. */
  lemma {:induction false} PushPopRestores(st: State, push: Directive, ds: seq<Directive>, pop: Directive)
    requires push.kind.Push? && pop.kind.Pop? && Balanced(ds)
    ensures Replay(st, [push] + ds + [pop]) == st
  {
    var inside := Step(st, push.kind);
    var all := [push] + ds + [pop];
    assert all[..|all| - 1] == [push] + ds;
    ReplayAppend(st, [push], ds);
    assert [push][..0] == [];
    assert Replay(st, [push]) == inside;
    StackBelowKept(inside, ds);
    var after := Replay(inside, ds);
    assert after.stack == inside.stack;
  }

  // ---- The value in effect, without the machine -----------------------------------------

  /** Nothing but closed groups: a push, a balanced run, its pop, and so on. */
  ghost predicate Groups(ds: seq<Directive>)
    decreases |ds|
  {
    ds == [] || exists m :: 0 < m < |ds| && IsGroup(ds, m) && Groups(ds[m + 1..])
  }

  ghost predicate IsGroup(ds: seq<Directive>, m: nat)
    requires 0 < m < |ds|
  {
    ds[0].kind.Push? && ds[m].kind.Pop? && Balanced(ds[1..m])
  }

  /** The push at `i` is still open: what follows never pops more than it pushes. */
  ghost predicate OpenPush(ds: seq<Directive>, i: nat)
    requires i < |ds|
  {
    ds[i].kind.Push? && NeverBelow(ds[i + 1..])
  }

  ghost predicate NothingOpen(ds: seq<Directive>) { forall i :: 0 <= i < |ds| ==> !OpenPush(ds, i) }

  /**
   * The value in effect after `ds`: the last directive that no closed group hides decides. With none
   * there is no value; a set gives its argument and a reset takes it away; a push gives its argument,
   * or without one leaves what was in effect before it; a pop with nothing to close takes it away.
   */
  ghost predicate InEffect(ds: seq<Directive>, v: Option<nat>)
    decreases |ds|, 1
  {
    exists n :: 0 <= n <= |ds| && Groups(ds[n..]) && Decides(ds, n, v)
  }

  ghost predicate Decides(ds: seq<Directive>, n: nat, v: Option<nat>)
    requires n <= |ds|
    decreases |ds|, 0
  {
    if n == 0 then v == None
    else
      var before := ds[..n - 1];
      match ds[n - 1].kind
      case Set(x) => v == Some(x)
      case Reset => v == None
      case Push(Some(x)) => v == Some(x)
      case Push(None) => InEffect(before, v)
      case Pop => NothingOpen(before) && v == None
  }

  lemma {:induction false} GroupsIdle(st: State, ds: seq<Directive>)
    requires Groups(ds)
    ensures Replay(st, ds) == st
    decreases |ds|
  {
    if ds != [] {
      var m :| 0 < m < |ds| && IsGroup(ds, m) && Groups(ds[m + 1..]);
      GroupIdle(st, ds, m);
      GroupsIdle(st, ds[m + 1..]);
      ReplayCut(st, ds, m + 1);
    }
  }

  lemma {:induction false} GroupIdle(st: State, ds: seq<Directive>, m: nat)
    requires 0 < m < |ds| && IsGroup(ds, m)
    ensures Replay(st, ds[..m + 1]) == st
  {
    PushPopRestores(st, ds[0], ds[1..m], ds[m]);
    assert ds[..m + 1] == [ds[0]] + ds[1..m] + [ds[m]];
  }

  lemma {:induction false} ReplayCut(st: State, ds: seq<Directive>, n: nat)
    requires n <= |ds|
    ensures Replay(st, ds) == Replay(Replay(st, ds[..n]), ds[n..])
  {
    assert ds == ds[..n] + ds[n..];
    ReplayAppend(st, ds[..n], ds[n..]);
  }

  lemma {:induction false} DepthNext(ds: seq<Directive>, d: Directive)
    ensures Depth(ds + [d]) == Depth(ds) + (if d.kind.Push? then 1 else if d.kind.Pop? then -1 else 0)
  {
    assert (ds + [d])[..|ds|] == ds;
  }

  /** One directive more keeps a run from going below, if it does not itself take it there. */
  lemma {:induction false} NeverBelowNext(ds: seq<Directive>, d: Directive)
    requires NeverBelow(ds) && Depth(ds + [d]) >= 0
    ensures NeverBelow(ds + [d])
  {
    forall n | 0 <= n <= |ds| + 1 ensures Depth((ds + [d])[..n]) >= 0 {
      if n <= |ds| { assert (ds + [d])[..n] == ds[..n]; } else { assert (ds + [d])[..n] == ds + [d]; }
    }
  }

  /** Every stacked value was put there by a push that is still open, with the later ones above it. */
  lemma {:induction false} StackedByOpenPush(ds: seq<Directive>, k: nat) returns (i: nat)
    requires k < |Replay(INITIAL, ds).stack|
    ensures i < |ds| && OpenPush(ds, i) && Depth(ds[i + 1..]) == |Replay(INITIAL, ds).stack| - 1 - k
    ensures Replay(INITIAL, ds).stack[k] == Replay(INITIAL, ds[..i]).current
    ensures Replay(INITIAL, ds).stack[..k] == Replay(INITIAL, ds[..i]).stack
  {
    var n := |ds| - 1;
    var before, d := Replay(INITIAL, ds[..n]), ds[n];
    if d.kind.Push? && k == |before.stack| {
      i := n;
      assert ds[n + 1..] == [];
    } else {
      i := StackedByOpenPush(ds[..n], k);
      assert ds[..n][..i] == ds[..i];
      StaysOpen(ds, i);
    }
  }

  /** A push stays open past one more directive that does not pop below it. */
  lemma {:induction false} StaysOpen(ds: seq<Directive>, i: nat)
    requires i < |ds| - 1 && OpenPush(ds[..|ds| - 1], i)
    ensures var n := |ds| - 1;
            && Depth(ds[i + 1..]) == Depth(ds[..n][i + 1..])
                 + (if ds[n].kind.Push? then 1 else if ds[n].kind.Pop? then -1 else 0)
            && (Depth(ds[i + 1..]) >= 0 ==> OpenPush(ds, i))
  {
    var n := |ds| - 1;
    assert ds[i + 1..] == ds[..n][i + 1..] + [ds[n]];
    DepthNext(ds[..n][i + 1..], ds[n]);
    if Depth(ds[i + 1..]) >= 0 { NeverBelowNext(ds[..n][i + 1..], ds[n]); }
  }

  lemma {:induction false} NothingStacked(ds: seq<Directive>)
    ensures NothingOpen(ds) <==> Replay(INITIAL, ds).stack == []
  {
    if Replay(INITIAL, ds).stack != [] { var i := StackedByOpenPush(ds, 0); }
    if i :| 0 <= i < |ds| && OpenPush(ds, i) {
      ReplayCut(INITIAL, ds, i + 1);
      assert ds[..i + 1][..i] == ds[..i];
      StackBelowKept(Replay(INITIAL, ds[..i + 1]), ds[i + 1..]);
    }
  }

  lemma {:induction false} InEffectIsReplayed(ds: seq<Directive>, v: Option<nat>)
    requires InEffect(ds, v)
    ensures v == Replay(INITIAL, ds).current
    decreases |ds|
  {
    var n :| 0 <= n <= |ds| && Groups(ds[n..]) && Decides(ds, n, v);
    ReplayCut(INITIAL, ds, n);
    GroupsIdle(Replay(INITIAL, ds[..n]), ds[n..]);
    if n > 0 {
      assert ds[..n][..n - 1] == ds[..n - 1];
      if ds[n - 1].kind == Push(None) { InEffectIsReplayed(ds[..n - 1], v); }
      if ds[n - 1].kind.Pop? { NothingStacked(ds[..n - 1]); }
    }
  }

  lemma {:induction false} GroupsJoin(a: seq<Directive>, b: seq<Directive>)
    requires Groups(a) && Groups(b)
    ensures Groups(a + b)
    decreases |a|
  {
    if a == [] {
      assert a + b == b;
    } else {
      var m :| 0 < m < |a| && IsGroup(a, m) && Groups(a[m + 1..]);
      GroupsJoin(a[m + 1..], b);
      GroupFirst(a, b, m);
    }
  }

  lemma {:induction false} GroupFirst(a: seq<Directive>, b: seq<Directive>, m: nat)
    requires 0 < m < |a| && IsGroup(a, m) && Groups(a[m + 1..] + b)
    ensures Groups(a + b)
  {
    assert (a + b)[1..m] == a[1..m];
    assert IsGroup(a + b, m);
    assert (a + b)[m + 1..] == a[m + 1..] + b;
  }

  /** A closed group behind the directives changes nothing about what is in effect. */
  lemma {:induction false} GroupHides(ds: seq<Directive>, g: seq<Directive>, v: Option<nat>)
    requires InEffect(ds, v) && Groups(g)
    ensures InEffect(ds + g, v)
  {
    var n :| 0 <= n <= |ds| && Groups(ds[n..]) && Decides(ds, n, v);
    GroupsBehind(ds, g, n);
    StillDecides(ds, g, n, v);
  }

  lemma {:induction false} GroupsBehind(ds: seq<Directive>, g: seq<Directive>, n: nat)
    requires n <= |ds| && Groups(ds[n..]) && Groups(g)
    ensures Groups((ds + g)[n..])
  {
    GroupsJoin(ds[n..], g);
    assert (ds + g)[n..] == ds[n..] + g;
  }

  lemma {:induction false} StillDecides(ds: seq<Directive>, more: seq<Directive>, n: nat, v: Option<nat>)
    requires n <= |ds| && Decides(ds, n, v)
    ensures Decides(ds + more, n, v)
  {
    if n > 0 { assert (ds + more)[..n - 1] == ds[..n - 1] && (ds + more)[n - 1] == ds[n - 1]; }
  }

  lemma {:induction false} ReplayedIsInEffect(ds: seq<Directive>)
    ensures InEffect(ds, Replay(INITIAL, ds).current)
    decreases |ds|
  {
    var v := Replay(INITIAL, ds).current;
    assert ds[|ds|..] == [];
    if ds == [] {
      assert Decides(ds, 0, v);
    } else {
      var n := |ds| - 1;
      var before := Replay(INITIAL, ds[..n]);
      ReplayedIsInEffect(ds[..n]);
      NothingStacked(ds[..n]);
      if ds[n].kind.Pop? && before.stack != [] {
        PopEndsGroup(ds);
      } else {
        assert Decides(ds, n + 1, v);
      }
    }
  }

  lemma {:induction false} OneGroup(g: seq<Directive>)
    requires |g| > 1 && IsGroup(g, |g| - 1)
    ensures Groups(g)
  {
    assert g[|g|..] == [];
  }

  /** A pop with something to close ends a group, and what was in effect before the group is in effect again. */
  lemma {:induction false} PopCloses(ds: seq<Directive>) returns (i: nat)
    requires ds != [] && ds[|ds| - 1].kind.Pop? && Replay(INITIAL, ds[..|ds| - 1]).stack != []
    ensures i < |ds| && Groups(ds[i..]) && Replay(INITIAL, ds).current == Replay(INITIAL, ds[..i]).current
  {
    var n := |ds| - 1;
    var before := Replay(INITIAL, ds[..n]);
    i := StackedByOpenPush(ds[..n], |before.stack| - 1);
    var g := ds[i..];
    assert ds[..n][i + 1..] == g[1..|g| - 1] && ds[..n][..i] == ds[..i];
    OneGroup(g);
  }

  lemma {:induction false} PopEndsGroup(ds: seq<Directive>)
    requires ds != [] && ds[|ds| - 1].kind.Pop? && Replay(INITIAL, ds[..|ds| - 1]).stack != []
    ensures InEffect(ds, Replay(INITIAL, ds).current)
    decreases |ds|, 0
  {
    var i := PopCloses(ds);
    var g := ds[i..];
    ReplayedIsInEffect(ds[..i]);
    GroupHides(ds[..i], g, Replay(INITIAL, ds[..i]).current);
    assert ds == ds[..i] + g;
  }

  /** The value the machine holds is the one in effect, and no other value is. */
  lemma {:induction false} InEffectExactly(ds: seq<Directive>, v: Option<nat>)
    ensures InEffect(ds, v) <==> v == Replay(INITIAL, ds).current
  {
    ReplayedIsInEffect(ds);
    if InEffect(ds, v) { InEffectIsReplayed(ds, v); }
  }

  /** The directives at or before a line, taken in source order. */
  ghost predicate AtOrBefore(ds: seq<Directive>, n: nat, line: nat)
    requires n <= |ds|
  {
    (forall i :: 0 <= i < n ==> ds[i].line <= line) && forall i :: n <= i < |ds| ==> ds[i].line > line
  }

  /** The value at a line is the one in effect after the directives at or before it. */
  method PackAt(ds: seq<Directive>, line: nat) returns (value: Option<nat>)
    requires InSourceOrder(ds)
    ensures exists n :: 0 <= n <= |ds| && AtOrBefore(ds, n, line) && InEffect(ds[..n], value)
  {
    var checkpoints := BuildPackMap(ds);
    value := None;
    var i := 0;
    while i < |checkpoints| && checkpoints[i].line <= line
      invariant 0 <= i <= |ds| == |checkpoints|
      invariant forall j :: 0 <= j < i ==> ds[j].line <= line
      invariant value == Replay(INITIAL, ds[..i]).current
    {
      value := checkpoints[i].value;
      i := i + 1;
    }
    InEffectExactly(ds[..i], value);
    PrefixIsUpTo(ds, i, line);
  }

  lemma PrefixIsUpTo(ds: seq<Directive>, n: nat, line: nat)
    requires InSourceOrder(ds) && n <= |ds| && (forall j :: 0 <= j < n ==> ds[j].line <= line)
    requires n < |ds| ==> ds[n].line > line
    ensures AtOrBefore(ds, n, line)
  {
  }

  // ---- Balanced parentheses ---------------------------------------------------------

  /** Opening minus closing parentheses among the characters from `start` up to `end`. */
  function Nesting(text: string, start: nat, end: nat): int
    requires start <= end <= |text|
    decreases end
  {
    if start == end then 0
    else Nesting(text, start, end - 1) + (if text[end - 1] == '(' then 1 else if text[end - 1] == ')' then -1 else 0)
  }

  /**
   * From an opening parenthesis: the end of the group is the first place where the nesting returns
   * to zero, everything before it is nested at least once, and there is no result only if the
   * parenthesis is never closed.
   */
  method BalancedGroup(text: string, open: nat) returns (close: Option<nat>)
    requires open < |text| && text[open] == '('
    ensures close.Some? ==> open < close.value < |text| && text[close.value] == ')'
    ensures close.Some? ==> Nesting(text, open, close.value + 1) == 0
    ensures close.Some? ==> forall k :: open < k <= close.value ==> Nesting(text, open, k) > 0
    ensures close.None? ==> forall k :: open < k <= |text| ==> Nesting(text, open, k) > 0
  {
    var depth := 0;
    for i := open to |text|
      invariant depth == Nesting(text, open, i)
      invariant forall k :: open < k <= i ==> Nesting(text, open, k) > 0
    {
      if text[i] == '(' {
        depth := depth + 1;
      } else if text[i] == ')' {
        depth := depth - 1;
        if depth == 0 { return Some(i); }
      }
    }
    return None;
  }
}
