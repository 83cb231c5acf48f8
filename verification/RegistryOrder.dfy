/** The order of the listing: by how long each file has been present without a break. */
module RegistryOrder {
  import opened Alignment
  import opened FileRegistry

  /** One file is added at a time. */
  function Singly(files: seq<File>): seq<Op> {
    if files == [] then [] else Singly(files[..|files| - 1]) + [Add([files[|files| - 1]])]
  }

  function Steps(ops: seq<Op>): seq<Op> {
    if ops == [] then []
    else
      var last := ops[|ops| - 1];
      Steps(ops[..|ops| - 1]) + (if last.Add? then Singly(last.files) else [last])
  }

  ghost predicate OneByOne(ops: seq<Op>) { forall i :: 0 <= i < |ops| && ops[i].Add? ==> |ops[i].files| == 1 }

  lemma {:induction false} RunNext(ops: seq<Op>, op: Op)
    ensures Run(ops + [op]) == Apply(Run(ops), op)
  {
    assert (ops + [op])[..|ops|] == ops;
  }

  lemma {:induction false} SinglyRuns(ops: seq<Op>, files: seq<File>)
    ensures Run(ops + Singly(files)) == AddAll(Run(ops), files) && OneByOne(Singly(files))
  {
    if files == [] {
      assert ops + [] == ops;
    } else {
      var init, f := files[..|files| - 1], files[|files| - 1];
      SinglyRuns(ops, init);
      Assoc(ops, Singly(init), [Add([f])]);
      RunNext(ops + Singly(init), Add([f]));
      AddOneMore(Run(ops), files);
    }
  }

  lemma {:induction false} AddOneMore(st: State, files: seq<File>)
    requires files != []
    ensures AddAll(st, files) == AddAll(AddAll(st, files[..|files| - 1]), [files[|files| - 1]])
  {
    var so, f := AddAll(st, files[..|files| - 1]), files[|files| - 1];
    assert [f][..0] == [] && AddAll(so, []) == so;
    assert AddAll(st, files) == AddLast(st, files) && AddAll(so, [f]) == AddLast(so, [f]);
  }

  /** Adding one by one is the same run. */
  lemma {:induction false} StepsRun(ops: seq<Op>)
    ensures Run(Steps(ops)) == Run(ops) && OneByOne(Steps(ops))
  {
    if ops != [] {
      var init, last := ops[..|ops| - 1], ops[|ops| - 1];
      StepsRun(init);
      if last.Add? { SinglyRuns(Steps(init), last.files); } else { RunNext(Steps(init), last); }
    }
  }

  ghost predicate Precedes(order: seq<Key>, x: Key, y: Key) {
    exists i, j :: 0 <= i < j < |order| && order[i] == x && order[j] == y
  }

  /** After `n` steps the first file is there and the second is not; from the next on both are. */
  ghost predicate JoinsAfter(steps: seq<Op>, n: nat, x: Key, y: Key)
    requires n < |steps|
  {
    && x in LastWriters(steps[..n]) && y !in LastWriters(steps[..n])
    && forall m :: n < m <= |steps| ==> BothThere(steps, m, x, y)
  }

  ghost predicate BothThere(steps: seq<Op>, m: nat, x: Key, y: Key)
    requires m <= |steps|
  {
    x in LastWriters(steps[..m]) && y in LastWriters(steps[..m])
  }

  ghost predicate Joins(steps: seq<Op>, x: Key, y: Key) { exists n :: 0 <= n < |steps| && JoinsAfter(steps, n, x, y) }

  /** One step more: a file that is new to the second joins it now, else both have to stay. */
  lemma {:induction false} JoinsNext(steps: seq<Op>, op: Op, x: Key, y: Key)
    ensures var m, next := LastWriters(steps), LastWriters(steps + [op]);
            Joins(steps + [op], x, y) <==> x in next && y in next && ((x in m && y !in m) || Joins(steps, x, y))
  {
    var all, n := steps + [op], |steps|;
    assert all[..n] == steps && all[..n + 1] == all;
    forall k | 0 <= k <= n ensures all[..k] == steps[..k] {}
    if k :| 0 <= k < |all| && JoinsAfter(all, k, x, y) {
      assert BothThere(all, n + 1, x, y);
      if k < n { JoinedBefore(steps, op, k, x, y); }
    }
    if x in LastWriters(all) && y in LastWriters(all) {
      if x in LastWriters(steps) && y !in LastWriters(steps) { assert JoinsAfter(all, n, x, y); }
      if k :| 0 <= k < n && JoinsAfter(steps, k, x, y) { StillJoined(steps, op, k, x, y); }
    }
  }

  lemma JoinedBefore(steps: seq<Op>, op: Op, k: nat, x: Key, y: Key)
    requires k < |steps| && JoinsAfter(steps + [op], k, x, y)
    ensures JoinsAfter(steps, k, x, y)
  {
    var all := steps + [op];
    assert all[..k] == steps[..k];
    forall m | k < m <= |steps| ensures BothThere(steps, m, x, y) {
      assert BothThere(all, m, x, y) && all[..m] == steps[..m];
    }
  }

  lemma {:induction false} StillJoined(steps: seq<Op>, op: Op, k: nat, x: Key, y: Key)
    requires k < |steps| && JoinsAfter(steps, k, x, y)
    requires x in LastWriters(steps + [op]) && y in LastWriters(steps + [op])
    ensures JoinsAfter(steps + [op], k, x, y)
  {
    var all := steps + [op];
    assert all[..k] == steps[..k] && all[..|all|] == all;
    forall m | k < m <= |all| ensures BothThere(all, m, x, y) {
      if m <= |steps| { assert BothThere(steps, m, x, y) && all[..m] == steps[..m]; }
    }
  }

  // ---- One step's effect on the order ----------------------------------------------------------

  lemma AddedLast(order: seq<Key>, k: Key, x: Key, y: Key)
    requires NoDuplicates(order) && k !in order
    ensures Precedes(order + [k], x, y) <==> Precedes(order, x, y) || (x in order && y == k)
  {
    var all := order + [k];
    if i, j :| 0 <= i < j < |order| && order[i] == x && order[j] == y { assert all[i] == x && all[j] == y; }
    if x in order && y == k {
      var i :| 0 <= i < |order| && order[i] == x;
      assert all[i] == x && all[|order|] == y;
    }
  }

  lemma {:induction false} DroppedOut(order: seq<Key>, k: Key, x: Key, y: Key)
    requires NoDuplicates(order)
    ensures Precedes(Without(order, k), x, y) <==> Precedes(order, x, y) && x != k && y != k
  {
    if order != [] {
      var init, last := order[..|order| - 1], order[|order| - 1];
      assert order == init + [last];
      DroppedOut(init, k, x, y);
      WithoutMember(init, k, x);
      WithoutMember(init, k, last);
      WithoutDistinct(init, k);
      AddedLast(init, last, x, y);
      assert Without(order, k) == if last == k then Without(init, k) else Without(init, k) + [last];
      if last != k { AddedLast(Without(init, k), last, x, y); }
      PrecedesBoth(init, x, y);
    }
  }

  lemma {:induction false} AddsKey(st: State, f: File)
    ensures AddAll(st, [f]).order
      == if (f.zone, f.filename) in st.entries then st.order else st.order + [(f.zone, f.filename)]
  {
    assert AddAll(st, [f]) == AddLast(st, [f]) && [f][..0] == [] && AddAll(st, []) == st;
  }

  /** How one step changes who comes before whom. */
  lemma {:induction false} StepOrders(st: State, op: Op, m: map<Key, File>, next: map<Key, File>, x: Key, y: Key)
    requires Invariant(st) && Holds(st, m) && Holds(Apply(st, op), next) && (op.Add? ==> |op.files| == 1)
    ensures Precedes(Apply(st, op).order, x, y)
      <==> x in next && y in next && ((x in m && y !in m) || Precedes(st.order, x, y))
  {
    PrecedesBoth(st.order, x, y);
    match op
    case Add(files) =>
      var f := files[0];
      assert files == [f];
      AddsKey(st, f);
      var k := (f.zone, f.filename);
      AddOneKeysAre(st, f);
      assert forall j :: j in next <==> j in m || j == k by {
        assert AddAll(st, [f]) == AddLast(st, [f]) && [f][..0] == [] && AddAll(st, []) == st;
      }
      if k !in st.entries { AddedLast(st.order, k, x, y); }
    case Remove(name, zone) =>
      RemoveOneKeysAre(st, name, zone);
      DroppedOut(st.order, (zone, name), x, y);
    case Clear =>
  }

  lemma PrecedesBoth(order: seq<Key>, x: Key, y: Key)
    ensures Precedes(order, x, y) ==> x in order && y in order
  {
  }

  lemma {:induction false} StepsOrder(steps: seq<Op>, x: Key, y: Key)
    requires OneByOne(steps)
    ensures Precedes(Run(steps).order, x, y) <==> Joins(steps, x, y)
  {
    if steps != [] {
      var init, op := steps[..|steps| - 1], steps[|steps| - 1];
      assert steps == init + [op];
      StepsOrder(init, x, y);
      JoinsNext(init, op, x, y);
      RunKeeps(init);
      RunHoldsLastWriters(init);
      RunHoldsLastWriters(steps);
      RunNext(init, op);
      StepOrders(Run(init), op, LastWriters(init), LastWriters(steps), x, y);
    }
  }

  /**
   * Of two files that are present, the one listed first has been there, without a break, since before
   * the other last came in.
   */
  lemma {:induction false} OrderExactly(ops: seq<Op>, x: Key, y: Key)
    ensures Precedes(Run(ops).order, x, y) <==> Joins(Steps(ops), x, y)
  {
    StepsRun(ops);
    StepsOrder(Steps(ops), x, y);
  }

  ghost predicate FilesPrecede(entries: map<Key, Entry>, order: seq<Key>, f: File, g: File)
    requires forall k :: k in order ==> k in entries
  {
    exists a, b :: 0 <= a < b < |order| && entries[order[a]].file == f && entries[order[b]].file == g
  }

  /** The listing keeps that order. */
  lemma {:induction false} ListedInOrder(entries: map<Key, Entry>, order: seq<Key>, i: nat, j: nat)
    requires forall k :: k in order ==> k in entries
    requires i < j < |Listed(entries, order)|
    ensures FilesPrecede(entries, order, Listed(entries, order)[i], Listed(entries, order)[j])
  {
    var n := |order| - 1;
    var init := Listed(entries, order[..n]);
    if j < |init| {
      ListedInOrder(entries, order[..n], i, j);
      var a, b :| 0 <= a < b < n && entries[order[..n][a]].file == init[i] && entries[order[..n][b]].file == init[j];
      assert order[..n][a] == order[a] && order[..n][b] == order[b];
    } else {
      ListedIs(entries, order[..n]);
      assert init[i] in init;
      var a :| 0 <= a < n && Shown(entries[order[..n][a]]) && entries[order[..n][a]].file == init[i];
      assert entries[order[a]].file == init[i] && entries[order[n]].file == Listed(entries, order)[j];
    }
  }
}
