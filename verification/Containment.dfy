/**
 * By-value containment as a graph over structs, and what it decides about the guarded recursion:
 * exactly when a layout is an estimate, and when the guard makes no difference.
 */
module Containment {
  import opened Alignment
  import opened TypeDictionary
  import opened Layout

  /** The struct a member embeds by value, if it does. */
  function Child(env: Env, f: Field): Option<Struct> {
    if f.parsed.isPointer then None
    else match Resolve(env, f.parsed.base)
      case Nested(n) => Some(n)
      case _ => None
  }

  ghost predicate Embeds(env: Env, s: Struct, n: Struct) {
    exists i :: 0 <= i < |s.fields| && Child(env, s.fields[i]) == Some(n)
  }

  /** A chain of structs, each embedding the next by value. */
  ghost predicate Walk(env: Env, w: seq<Struct>) {
    |w| > 0 && forall i :: 0 < i < |w| ==> Embeds(env, w[i - 1], w[i])
  }

  ghost predicate WalkFrom(env: Env, s: Struct, w: seq<Struct>) {
    Walk(env, w) && w[0] == s
  }

  function Last(w: seq<Struct>): Struct
    requires |w| > 0
  {
    w[|w| - 1]
  }

  ghost function NamesOf(w: seq<Struct>): set<string> { set s | s in w :: s.name }

  lemma WalkTail(env: Env, w: seq<Struct>)
    requires Walk(env, w) && |w| > 1
    ensures Walk(env, w[1..])
  {
    forall i | 0 < i < |w| - 1 ensures Embeds(env, w[1..][i - 1], w[1..][i]) {
      assert Embeds(env, w[i], w[i + 1]);
    }
  }

  /** Two chains that meet at a struct make one chain. */
  lemma WalkJoin(env: Env, v: seq<Struct>, w: seq<Struct>)
    requires Walk(env, v) && Walk(env, w) && Last(v) == w[0]
    ensures Walk(env, v + w[1..])
  {
    var u := v + w[1..];
    forall i | 0 < i < |u| ensures Embeds(env, u[i - 1], u[i]) {
      if i < |v| {
        assert Embeds(env, v[i - 1], v[i]);
      } else {
        assert u[i] == w[i - |v| + 1] && u[i - 1] == w[i - |v|];
        assert Embeds(env, w[i - |v|], w[i - |v| + 1]);
      }
    }
  }

  /** A member edge in front of a chain makes a longer chain. */
  lemma WalkStep(env: Env, s: Struct, i: nat, w: seq<Struct>)
    requires i < |s.fields| && Walk(env, w) && Child(env, s.fields[i]) == Some(w[0])
    ensures WalkFrom(env, s, [s] + w)
  {
    assert Embeds(env, s, w[0]);
    WalkJoin(env, [s, w[0]], w);
    assert [s, w[0]] + w[1..] == [s] + w;
  }

  // ---- Exactly when a layout is an estimate -------------------------------------

  /** A member the engine has to guess about on its own: unresolved by value, or of unknown extent. */
  predicate UncertainField(env: Env, f: Field) {
    || (!f.parsed.isPointer && Resolve(env, f.parsed.base).Unresolved?)
    || (f.parsed.bitWidth.None? && f.parsed.arr.Unsized?)
  }

  ghost predicate LocallyUncertain(env: Env, s: Struct) {
    exists i :: 0 <= i < |s.fields| && UncertainField(env, s.fields[i])
  }

  /** The chain ends at a guess: an uncertain struct, or one that is already being laid out. */
  ghost predicate EndsInGuess(env: Env, w: seq<Struct>, guard: set<string>)
    requires |w| > 0
  {
    LocallyUncertain(env, Last(w)) || (|w| > 1 && Last(w).name in guard + NamesOf(w[1..|w| - 1]))
  }

  lemma {:induction false} PlaceEstimated(slots: seq<Slot>, pack: nat)
    ensures Place(slots, pack).estimated <==> exists i :: 0 <= i < |slots| && slots[i].estimated
  {
    if slots != [] {
      var n := |slots| - 1;
      PlaceEstimated(slots[..n], pack);
      assert Place(slots, pack).estimated == (Place(slots[..n], pack).estimated || slots[n].estimated);
      assert forall i :: 0 <= i < n ==> slots[..n][i] == slots[i];
    }
  }

  lemma {:induction false} SlotEstimated(env: Env, t: Target, s: Struct, pack: nat, guard: set<string>)
    ensures Internal(env, t, s, pack, guard).estimated
      <==> exists i :: 0 <= i < |s.fields| && SlotFrom(s.fields[i], ElementOf(env, t, s.fields[i], guard)).estimated
  {
    var slots := Slots(env, t, s.fields, guard);
    PlaceEstimated(slots, pack);
    forall i | 0 <= i < |s.fields|
      ensures slots[i] == SlotFrom(s.fields[i], ElementOf(env, t, s.fields[i], guard))
    {
      SlotAt(env, t, s.fields, guard, i);
    }
    assert Internal(env, t, s, pack, guard).estimated == Place(slots, pack).estimated;
  }

  /** The member embeds a struct that is in progress or is itself an estimate. */
  ghost predicate GuessedChild(env: Env, t: Target, f: Field, guard: set<string>) {
    match Child(env, f)
    case None => false
    case Some(n) => n.name in guard || Internal(env, t, n, NestedPack(n, t), guard + {n.name}).estimated
  }

  lemma {:induction false} MemberEstimated(env: Env, t: Target, f: Field, guard: set<string>)
    ensures SlotFrom(f, ElementOf(env, t, f, guard)).estimated
      <==> UncertainField(env, f) || GuessedChild(env, t, f, guard)
  {
  }

  /** Entering the first struct of a chain moves its name from the chain into the guard. */
  lemma GuessShift(env: Env, s: Struct, v: seq<Struct>, guard: set<string>)
    requires |v| > 0 && v[0].name !in guard
    ensures EndsInGuess(env, [s] + v, guard) <==> EndsInGuess(env, v, guard + {v[0].name})
  {
    var w := [s] + v;
    assert Last(w) == Last(v);
    assert w[1..|w| - 1] == v[..|v| - 1];
    if |v| > 1 {
      assert v[..|v| - 1] == [v[0]] + v[1..|v| - 1];
    }
  }

  lemma {:induction false} EstimateHasCause(env: Env, t: Target, s: Struct, pack: nat, guard: set<string>)
    returns (w: seq<Struct>)
    requires Internal(env, t, s, pack, guard).estimated
    ensures WalkFrom(env, s, w) && EndsInGuess(env, w, guard)
    decreases Names(env.dict) - guard
  {
    SlotEstimated(env, t, s, pack, guard);
    var i :| 0 <= i < |s.fields| && SlotFrom(s.fields[i], ElementOf(env, t, s.fields[i], guard)).estimated;
    MemberEstimated(env, t, s.fields[i], guard);
    if UncertainField(env, s.fields[i]) {
      return [s];
    }
    var n := Child(env, s.fields[i]).value;
    if n.name in guard {
      assert Embeds(env, s, n);
      return [s, n];
    }
    assert n.name in Names(env.dict);
    var v := EstimateHasCause(env, t, n, NestedPack(n, t), guard + {n.name});
    WalkStep(env, s, i, v);
    GuessShift(env, s, v, guard);
    return [s] + v;
  }

  lemma {:induction false} CauseForcesEstimate(env: Env, t: Target, pack: nat, guard: set<string>, w: seq<Struct>)
    requires Walk(env, w) && EndsInGuess(env, w, guard)
    ensures Internal(env, t, w[0], pack, guard).estimated
    decreases |w|
  {
    var s, v := w[0], w[1..];
    SlotEstimated(env, t, s, pack, guard);
    var i: int;
    if |w| == 1 {
      i :| 0 <= i < |s.fields| && UncertainField(env, s.fields[i]);
    } else {
      assert Embeds(env, s, w[1]);
      i :| 0 <= i < |s.fields| && Child(env, s.fields[i]) == Some(w[1]);
      if w[1].name !in guard {
        WalkTail(env, w);
        assert w == [s] + v;
        GuessShift(env, s, v, guard);
        CauseForcesEstimate(env, t, NestedPack(w[1], t), guard + {w[1].name}, v);
      }
    }
    MemberEstimated(env, t, s.fields[i], guard);
  }

  /** A containment chain that comes back to a struct it has already passed. */
  ghost predicate ClosesCycle(w: seq<Struct>)
    requires |w| > 0
  {
    |w| > 1 && Last(w).name in NamesOf(w[..|w| - 1])
  }

  /**
   * A struct's layout is marked estimated exactly when some by-value chain from it reaches a struct
   * with an uncertain member or closes a containment cycle; pack, override and target play no part.
   */
  lemma EstimatedExactly(env: Env, t: Target, s: Struct, override: Option<nat>)
    ensures Standalone(env, t, s, override).estimated
      <==> exists w :: WalkFrom(env, s, w) && (LocallyUncertain(env, Last(w)) || ClosesCycle(w))
  {
    var pack := RootPack(s, t, override);
    if Internal(env, t, s, pack, {s.name}).estimated {
      var w := EstimateHasCause(env, t, s, pack, {s.name});
      GuessIsCause(env, s, w);
    }
    if w :| WalkFrom(env, s, w) && (LocallyUncertain(env, Last(w)) || ClosesCycle(w)) {
      GuessIsCause(env, s, w);
      CauseForcesEstimate(env, t, pack, {s.name}, w);
    }
  }

  lemma GuessIsCause(env: Env, s: Struct, w: seq<Struct>)
    requires WalkFrom(env, s, w)
    ensures EndsInGuess(env, w, {s.name}) <==> LocallyUncertain(env, Last(w)) || ClosesCycle(w)
  {
    if |w| > 1 { assert w[..|w| - 1] == [s] + w[1..|w| - 1]; }
  }

  // ---- When the guard makes no difference ---------------------------------------

  ghost predicate Distinct(w: seq<Struct>) {
    forall i, j :: 0 <= i < j < |w| ==> w[i].name != w[j].name
  }

  /** No chain leaving `s` arrives at a guarded name, and none repeats a name. */
  ghost predicate GuardIdle(env: Env, s: Struct, guard: set<string>) {
    forall w :: WalkFrom(env, s, w) ==> Distinct(w) && (|w| > 1 ==> Last(w).name !in guard)
  }

  lemma GuardIdleBelow(env: Env, s: Struct, i: nat, n: Struct, guard: set<string>)
    requires GuardIdle(env, s, guard) && i < |s.fields| && Child(env, s.fields[i]) == Some(n)
    ensures n.name !in guard
    ensures GuardIdle(env, n, guard + {n.name})
  {
    WalkStep(env, s, i, [n]);
    assert WalkFrom(env, s, [s] + [n]);
    forall w | WalkFrom(env, n, w) ensures Distinct(w) && (|w| > 1 ==> Last(w).name !in guard + {n.name}) {
      WalkStep(env, s, i, w);
      var u := [s] + w;
      assert Distinct(u) && Last(u) == Last(w);
      assert forall k :: 0 <= k < |w| ==> w[k] == u[k + 1];
    }
  }

  lemma {:induction false} GuardIrrelevant(env: Env, t: Target, s: Struct, pack: nat, g: set<string>, h: set<string>)
    requires GuardIdle(env, s, g) && GuardIdle(env, s, h)
    ensures Internal(env, t, s, pack, g) == Internal(env, t, s, pack, h)
    decreases Names(env.dict) - g
  {
    var a, b := Slots(env, t, s.fields, g), Slots(env, t, s.fields, h);
    forall i | 0 <= i < |s.fields| ensures a[i] == b[i] {
      SlotAt(env, t, s.fields, g, i);
      SlotAt(env, t, s.fields, h, i);
      var child := Child(env, s.fields[i]);
      if child.Some? {
        var n := child.value;
        GuardIdleBelow(env, s, i, n, g);
        GuardIdleBelow(env, s, i, n, h);
        assert n.name in Names(env.dict);
        GuardIrrelevant(env, t, n, NestedPack(n, t), g + {n.name}, h + {n.name});
      }
    }
    assert a == b;
  }

  /** No containment chain starting in the dictionary repeats a name. */
  ghost predicate Acyclic(env: Env) {
    forall w :: Walk(env, w) && w[0] in env.dict.structs ==> Distinct(w)
  }

  /**
   * On an acyclic dictionary, whatever chain of structs is in progress above it, a struct is laid
   * out as if it stood alone.
   */
  lemma {:induction false} ContextIndependent(env: Env, t: Target, w: seq<Struct>, pack: nat)
    requires Acyclic(env) && Walk(env, w) && w[0] in env.dict.structs
    ensures Internal(env, t, Last(w), pack, NamesOf(w)) == Internal(env, t, Last(w), pack, {Last(w).name})
  {
    var s := Last(w);
    forall v | WalkFrom(env, s, v)
      ensures Distinct(v) && (|v| > 1 ==> Last(v).name !in NamesOf(w) && Last(v).name !in {s.name})
    {
      WalkJoin(env, w, v);
      var u := w + v[1..];
      assert Distinct(u);
      assert forall k :: 0 <= k < |v| ==> v[k] == u[|w| - 1 + k];
      assert forall k :: 0 <= k < |w| ==> w[k] == u[k];
    }
    GuardIrrelevant(env, t, s, pack, NamesOf(w), {s.name});
  }

  /**
   * The size and alignment a parent uses for an embedded struct are those of that struct's own
   * catalog entry (no override), however deep the parent sits and whatever pack it uses.
   */
  lemma {:induction false} NestedAgreesWithCatalog(env: Env, t: Target, w: seq<Struct>, i: nat)
    requires Acyclic(env) && Walk(env, w) && w[0] in env.dict.structs
    requires i < |Last(w).fields| && Child(env, Last(w).fields[i]).Some?
    ensures var n := Child(env, Last(w).fields[i]).value;
            var alone := Standalone(env, t, n, None);
            ElementOf(env, t, Last(w).fields[i], NamesOf(w))
              == Element(alone.total, alone.align, Some(n.name), alone.estimated)
  {
    var s, n := Last(w), Child(env, Last(w).fields[i]).value;
    assert Embeds(env, s, n);
    WalkJoin(env, w, [s, n]);
    var u := w + [s, n][1..];
    assert u == w + [n] && Distinct(u);
    assert NamesOf(u) == NamesOf(w) + {n.name};
    assert n.name !in NamesOf(w) by {
      forall k | 0 <= k < |w| ensures w[k].name != n.name { assert u[k] == w[k] && u[|w|] == n; }
    }
    ContextIndependent(env, t, u, NestedPack(n, t));
  }
}
