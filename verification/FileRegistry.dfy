/** The two-zone file registry: local files shadow external ones of the same name. */
module FileRegistry {
  import opened Alignment

  datatype Zone = Local | External

  datatype File = File(filename: string, zone: Zone, content: string, rejected: bool)

  datatype Entry = Entry(file: File, shadowedBy: Option<string>)

  type Key = (Zone, string)

  /** The entry map, its insertion order, and the file names with a collision warning. */
  datatype State = State(entries: map<Key, Entry>, order: seq<Key>, warnings: seq<string>)

  const EMPTY := State(map[], [], [])

  function Opposite(z: Zone): Zone { if z.Local? then External else Local }

  function Put(st: State, k: Key, e: Entry): State {
    State(st.entries[k := e], if k in st.entries then st.order else st.order + [k], st.warnings)
  }

  function Without<T(==)>(s: seq<T>, x: T): seq<T> {
    if s == [] then []
    else Without(s[..|s| - 1], x) + (if s[|s| - 1] == x then [] else [s[|s| - 1]])
  }

  function AddOne(st: State, file: File): State {
    var name := file.filename;
    var st1 := Put(st, (file.zone, name), Entry(file, None));
    if (Opposite(file.zone), name) !in st1.entries then st1
    else
      var st2 := Put(st1, (External, name), Entry(st1.entries[(External, name)].file, Some(name)));
      if name in st2.warnings then st2 else st2.(warnings := st2.warnings + [name])
  }

  function AddAll(st: State, files: seq<File>): State
    decreases |files|, 0
  {
    if files == [] then st else AddLast(st, files)
  }

  function AddLast(st: State, files: seq<File>): State
    requires files != []
    decreases |files| - 1, 1
  {
    AddOne(AddAll(st, files[..|files| - 1]), files[|files| - 1])
  }

  function RemoveOne(st: State, name: string, zone: Zone): State {
    var other := (Opposite(zone), name);
    var left := st.entries - {(zone, name)};
    State(if other in left && left[other].shadowedBy == Some(name)
          then left[other := Entry(left[other].file, None)] else left,
          Without(st.order, (zone, name)), Without(st.warnings, name))
  }

  /** `!e.shadowedBy`: an empty name counts as not shadowed. */
  predicate Shown(e: Entry) {
    (e.shadowedBy == None || e.shadowedBy == Some("")) && !e.file.rejected
  }

  function Listed(entries: map<Key, Entry>, order: seq<Key>): seq<File>
    requires forall k :: k in order ==> k in entries
  {
    if order == [] then []
    else
      var n := |order| - 1;
      Listed(entries, order[..n]) + (if Shown(entries[order[n]]) then [entries[order[n]].file] else [])
  }

  class FileRegistry {
    var entries: map<Key, Entry>
    var order: seq<Key>
    var warnings: seq<string>

    function View(): State
      reads this
    {
      State(entries, order, warnings)
    }

    ghost predicate Valid()
      reads this
    {
      Invariant(View())
    }

    constructor ()
      ensures Valid() && View() == EMPTY
    {
      entries, order, warnings := map[], [], [];
    }

    method SetEntry(k: Key, e: Entry)
      modifies this
      ensures View() == Put(old(View()), k, e)
    {
      if k !in entries { order := order + [k]; }
      entries := entries[k := e];
    }

    method AddFiles(files: seq<File>)
      requires Valid()
      modifies this
      ensures Valid()
      ensures View() == AddAll(old(View()), files)
    {
      AddAllKeeps(View(), files);
      for i := 0 to |files|
        invariant View() == AddAll(old(View()), files[..i])
      {
        assert files[..i + 1][..i] == files[..i];
        var file := files[i];
        var k, opposite := (file.zone, file.filename), (Opposite(file.zone), file.filename);
        SetEntry(k, Entry(file, None));
        if opposite in entries {
          if file.zone.Local? {
            SetEntry(opposite, Entry(entries[opposite].file, Some(file.filename)));
          } else {
            SetEntry(k, Entry(file, Some(entries[k].file.filename)));
          }
          if file.filename !in warnings { warnings := warnings + [file.filename]; }
        }
      }
      assert files[..|files|] == files;
    }

    method RemoveFile(filename: string, zone: Zone)
      requires Valid()
      modifies this
      ensures Valid()
      ensures View() == RemoveOne(old(View()), filename, zone)
    {
      RemoveOneKeepsEntries(View(), filename, zone);
      RemoveOneKeepsLists(View(), filename, zone);
      var k, opposite := (zone, filename), (Opposite(zone), filename);
      entries := entries - {k};
      order := Without(order, k);
      if opposite in entries && entries[opposite].shadowedBy == Some(filename) {
        entries := entries[opposite := Entry(entries[opposite].file, None)];
      }
      warnings := Without(warnings, filename);
    }

    method GetAll() returns (files: seq<File>)
      requires Valid()
      ensures files == Listed(entries, order)
    {
      files := [];
      for i := 0 to |order|
        invariant files == Listed(entries, order[..i])
      {
        assert order[..i + 1][..i] == order[..i];
        var e := entries[order[i]];
        if (e.shadowedBy == None || e.shadowedBy.value == "") && !e.file.rejected {
          files := files + [e.file];
        }
      }
      assert order[..|order|] == order;
    }

    method Clear()
      modifies this
      ensures Valid() && View() == EMPTY
    {
      entries, order, warnings := map[], [], [];
    }
  }

  // ---- Every run ----------------------------------------------------------------------

  datatype Op = Add(files: seq<File>) | Remove(name: string, zone: Zone) | Clear

  function Apply(st: State, op: Op): State {
    match op
    case Add(files) => AddAll(st, files)
    case Remove(name, zone) => RemoveOne(st, name, zone)
    case Clear => EMPTY
  }

  function Run(ops: seq<Op>): State {
    if ops == [] then EMPTY else Apply(Run(ops[..|ops| - 1]), ops[|ops| - 1])
  }

  ghost predicate NoDuplicates<T>(s: seq<T>) {
    forall i, j :: 0 <= i < j < |s| ==> s[i] != s[j]
  }

  predicate Collides(st: State, name: string) { (Local, name) in st.entries && (External, name) in st.entries }

  /** The entry says where it is filed and whether the other zone overrides it. */
  predicate Faithful(st: State, k: Key)
    requires k in st.entries
  {
    && st.entries[k].file.zone == k.0 && st.entries[k].file.filename == k.1
    && st.entries[k].shadowedBy == if k.0.External? && (Local, k.1) in st.entries then Some(k.1) else None
  }

  ghost predicate OrderOk(st: State) {
    NoDuplicates(st.order) && forall k :: k in st.order <==> k in st.entries
  }

  ghost predicate EntriesOk(st: State) { forall k :: k in st.entries ==> Faithful(st, k) }

  ghost predicate WarningsOk(st: State) {
    NoDuplicates(st.warnings) && forall name :: name in st.warnings <==> Collides(st, name)
  }

  /**
   * The order lists the keys once each; an external entry is shadowed exactly while its local
   * namesake is present and a local entry never; and there is one warning per colliding name, no others.
   */
  ghost predicate Invariant(st: State) { OrderOk(st) && EntriesOk(st) && WarningsOk(st) }

  lemma {:induction false} WithoutMember<T>(s: seq<T>, x: T, y: T)
    ensures y in Without(s, x) <==> y in s && y != x
  {
    if s != [] {
      WithoutMember(s[..|s| - 1], x, y);
      assert s == s[..|s| - 1] + [s[|s| - 1]];
    }
  }

  lemma {:induction false} WithoutDistinct<T>(s: seq<T>, x: T)
    requires NoDuplicates(s)
    ensures NoDuplicates(Without(s, x))
  {
    if s != [] {
      var n := |s| - 1;
      WithoutDistinct(s[..n], x);
      WithoutMember(s[..n], x, s[n]);
    }
  }

  lemma PutKeepsOrder(st: State, k: Key, e: Entry)
    requires OrderOk(st)
    ensures OrderOk(Put(st, k, e))
  {
    if k !in st.entries { assert k !in st.order; }
  }

  lemma AddOneKeysAre(st: State, file: File)
    ensures forall k :: k in AddOne(st, file).entries <==> k in st.entries || k == (file.zone, file.filename)
  {
  }

  lemma AddOneKeepsOrder(st: State, file: File)
    requires OrderOk(st)
    ensures OrderOk(AddOne(st, file))
  {
    var name := file.filename;
    var st1 := Put(st, (file.zone, name), Entry(file, None));
    PutKeepsOrder(st, (file.zone, name), Entry(file, None));
    if (Opposite(file.zone), name) in st1.entries {
      PutKeepsOrder(st1, (External, name), Entry(st1.entries[(External, name)].file, Some(name)));
    }
  }

  lemma AddOneKeepsEntries(st: State, file: File)
    requires EntriesOk(st)
    ensures EntriesOk(AddOne(st, file))
  {
    forall k | k in AddOne(st, file).entries ensures Faithful(AddOne(st, file), k) {
      AddOneFaithful(st, file, k);
    }
  }

  lemma AddOneFaithful(st: State, file: File, k: Key)
    requires k in AddOne(st, file).entries && (k in st.entries ==> Faithful(st, k))
    ensures Faithful(AddOne(st, file), k)
  {
  }

  lemma AddOneKeepsWarnings(st: State, file: File)
    requires WarningsOk(st)
    ensures WarningsOk(AddOne(st, file))
  {
    var next := AddOne(st, file);
    AddOneKeysAre(st, file);
    forall name ensures name in next.warnings <==> Collides(next, name) {
      assert name in st.warnings <==> Collides(st, name);
    }
  }

  lemma RemoveOneKeysAre(st: State, name: string, zone: Zone)
    ensures forall k :: k in RemoveOne(st, name, zone).entries <==> k in st.entries && k != (zone, name)
  {
  }

  lemma RemoveOneKeepsEntries(st: State, name: string, zone: Zone)
    requires EntriesOk(st)
    ensures EntriesOk(RemoveOne(st, name, zone))
  {
    var next := RemoveOne(st, name, zone);
    RemoveOneKeysAre(st, name, zone);
    forall k | k in next.entries ensures Faithful(next, k) {
      assert Faithful(st, k);
    }
  }

  lemma RemoveOneKeepsLists(st: State, name: string, zone: Zone)
    requires OrderOk(st) && WarningsOk(st)
    ensures OrderOk(RemoveOne(st, name, zone)) && WarningsOk(RemoveOne(st, name, zone))
  {
    var next := RemoveOne(st, name, zone);
    RemoveOneKeysAre(st, name, zone);
    WithoutDistinct(st.order, (zone, name));
    WithoutDistinct(st.warnings, name);
    forall k ensures k in next.order <==> k in next.entries {
      WithoutMember(st.order, (zone, name), k);
    }
    forall n ensures n in next.warnings <==> Collides(next, n) {
      WithoutMember(st.warnings, name, n);
      assert n in st.warnings <==> Collides(st, n);
    }
  }

  lemma {:induction false} AddAllKeeps(st: State, files: seq<File>)
    requires Invariant(st)
    ensures Invariant(AddAll(st, files))
  {
    if files != [] {
      AddAllKeeps(st, files[..|files| - 1]);
      var before := AddAll(st, files[..|files| - 1]);
      AddOneKeepsOrder(before, files[|files| - 1]);
      AddOneKeepsEntries(before, files[|files| - 1]);
      AddOneKeepsWarnings(before, files[|files| - 1]);
    }
  }

  /** The invariant holds after any sequence of additions, removals and clearings. */
  lemma {:induction false} RunKeeps(ops: seq<Op>)
    ensures Invariant(Run(ops))
  {
    if ops != [] {
      var st := Run(ops[..|ops| - 1]);
      RunKeeps(ops[..|ops| - 1]);
      match ops[|ops| - 1]
      case Add(files) => AddAllKeeps(st, files);
      case Remove(name, zone) =>
        RemoveOneKeepsEntries(st, name, zone);
        RemoveOneKeepsLists(st, name, zone);
      case Clear =>
    }
  }

  // ---- The last writer in each zone ------------------------------------------------------

  /** The registry as two plain maps, one per zone, in which the last write wins. */
  function WriteAll(m: map<Key, File>, files: seq<File>): map<Key, File> {
    if files == [] then m
    else
      var f := files[|files| - 1];
      WriteAll(m, files[..|files| - 1])[(f.zone, f.filename) := f]
  }

  function LastWriters(ops: seq<Op>): map<Key, File> {
    if ops == [] then map[]
    else
      var m := LastWriters(ops[..|ops| - 1]);
      match ops[|ops| - 1]
      case Add(files) => WriteAll(m, files)
      case Remove(name, zone) => m - {(zone, name)}
      case Clear => map[]
  }

  ghost predicate Holds(st: State, m: map<Key, File>) {
    && (forall k :: k in st.entries <==> k in m)
    && (forall k :: k in m && k in st.entries ==> st.entries[k].file == m[k])
  }

  lemma {:induction false} AddAllWrites(st: State, m: map<Key, File>, files: seq<File>)
    requires Holds(st, m)
    ensures Holds(AddAll(st, files), WriteAll(m, files))
  {
    if files != [] {
      var n := |files| - 1;
      AddAllWrites(st, m, files[..n]);
      AddOneWrites(AddAll(st, files[..n]), WriteAll(m, files[..n]), files[n]);
    }
  }

  lemma AddOneWrites(st: State, m: map<Key, File>, f: File)
    requires Holds(st, m)
    ensures Holds(AddOne(st, f), m[(f.zone, f.filename) := f])
  {
  }

  lemma {:induction false} RunHoldsLastWriters(ops: seq<Op>)
    ensures Holds(Run(ops), LastWriters(ops))
  {
    if ops != [] {
      var n := |ops| - 1;
      RunHoldsLastWriters(ops[..n]);
      if ops[n].Add? { AddAllWrites(Run(ops[..n]), LastWriters(ops[..n]), ops[n].files); }
    }
  }

  /** What the two maps show: everything unrejected, an external file only without a local namesake. */
  predicate Visible(m: map<Key, File>, k: Key) {
    k in m && !m[k].rejected && (k.0.Local? || (Local, k.1) !in m || k.1 == "")
  }

  ghost predicate Shows(entries: map<Key, Entry>, order: seq<Key>, f: File)
    requires forall k :: k in order ==> k in entries
  {
    exists i :: 0 <= i < |order| && Shown(entries[order[i]]) && entries[order[i]].file == f
  }

  lemma {:induction false} ListedIs(entries: map<Key, Entry>, order: seq<Key>)
    requires forall k :: k in order ==> k in entries
    ensures forall f :: f in Listed(entries, order) <==> Shows(entries, order, f)
  {
    if order != [] {
      var n := |order| - 1;
      ListedIs(entries, order[..n]);
      forall f ensures f in Listed(entries, order) <==> Shows(entries, order, f) {
        assert forall i :: 0 <= i < n ==> order[..n][i] == order[i];
        if f in Listed(entries, order[..n]) {
          var i :| 0 <= i < n && Shown(entries[order[..n][i]]) && entries[order[..n][i]].file == f;
          assert Shown(entries[order[i]]);
        }
        if i :| 0 <= i < |order| && Shown(entries[order[i]]) && entries[order[i]].file == f {
          if i < n { assert Shown(entries[order[..n][i]]); }
        }
      }
    }
  }

  /** After any run the listing holds exactly the visible last writers. */
  lemma {:induction false} ListingIsLastWriters(ops: seq<Op>, f: File)
    ensures forall k :: k in Run(ops).order ==> k in Run(ops).entries
    ensures f in Listed(Run(ops).entries, Run(ops).order)
      <==> Visible(LastWriters(ops), (f.zone, f.filename)) && LastWriters(ops)[(f.zone, f.filename)] == f
  {
    RunKeeps(ops);
    RunHoldsLastWriters(ops);
    ListingShowsVisible(Run(ops), LastWriters(ops), f);
  }

  lemma ListingShowsVisible(st: State, m: map<Key, File>, f: File)
    requires Invariant(st) && Holds(st, m)
    ensures f in Listed(st.entries, st.order)
      <==> Visible(m, (f.zone, f.filename)) && m[(f.zone, f.filename)] == f
  {
    ListedIs(st.entries, st.order);
    if Visible(m, (f.zone, f.filename)) && m[(f.zone, f.filename)] == f { VisibleIsShown(st, m, f); }
    if Shows(st.entries, st.order, f) { ShownIsVisible(st, m, f); }
  }

  lemma VisibleIsShown(st: State, m: map<Key, File>, f: File)
    requires Invariant(st) && Holds(st, m)
    requires Visible(m, (f.zone, f.filename)) && m[(f.zone, f.filename)] == f
    ensures Shows(st.entries, st.order, f)
  {
    var k := (f.zone, f.filename);
    assert Faithful(st, k) && k in st.order;
    var i :| 0 <= i < |st.order| && st.order[i] == k;
    assert Shown(st.entries[st.order[i]]);
  }

  lemma ShownIsVisible(st: State, m: map<Key, File>, f: File)
    requires Invariant(st) && Holds(st, m) && Shows(st.entries, st.order, f)
    ensures Visible(m, (f.zone, f.filename)) && m[(f.zone, f.filename)] == f
  {
    var i :| 0 <= i < |st.order| && Shown(st.entries[st.order[i]]) && st.entries[st.order[i]].file == f;
    assert st.order[i] in st.entries && Faithful(st, st.order[i]);
  }

  /** No two positions of the list bear one name. */
  ghost predicate OnePerName(files: seq<File>) {
    forall i, j :: 0 <= i < j < |files| ==> files[i].filename != files[j].filename
  }

  /** Every listed key contributes its own file, so the listing holds no file twice. */
  lemma {:induction false} ListedOnce(entries: map<Key, Entry>, order: seq<Key>)
    requires NoDuplicates(order) && forall k :: k in order ==> k in entries
    requires forall k :: k in order ==> entries[k].file.zone == k.0 && entries[k].file.filename == k.1
    ensures NoDuplicates(Listed(entries, order))
  {
    if order != [] {
      var n := |order| - 1;
      assert order == order[..n] + [order[n]];
      ListedOnce(entries, order[..n]);
      ListedIs(entries, order[..n]);
      forall i | 0 <= i < n ensures entries[order[..n][i]].file != entries[order[n]].file {
        assert order[..n][i] == order[i] && order[i] in order && order[n] in order && order[i] != order[n];
      }
      assert entries[order[n]].file !in Listed(entries, order[..n]);
    }
  }

  /** The unnamed file is loaded and accepted in both zones. */
  predicate UnnamedTwice(m: map<Key, File>) {
    (Local, "") in m && (External, "") in m && !m[(Local, "")].rejected && !m[(External, "")].rejected
  }

  /** A set of files that is exactly the visible part of the two maps. */
  ghost predicate ShowsVisible(files: seq<File>, m: map<Key, File>) {
    forall f :: f in files <==> Visible(m, (f.zone, f.filename)) && m[(f.zone, f.filename)] == f
  }

  lemma OnePerNameIff(files: seq<File>, m: map<Key, File>)
    requires NoDuplicates(files) && ShowsVisible(files, m)
    requires forall k :: k in m ==> m[k].zone == k.0 && m[k].filename == k.1
    ensures OnePerName(files) <==> !UnnamedTwice(m)
  {
    if UnnamedTwice(m) {
      var f, g := m[(Local, "")], m[(External, "")];
      assert f in files && g in files && f != g;
      var i, j :| 0 <= i < |files| && 0 <= j < |files| && files[i] == f && files[j] == g;
      assert files[i].filename == files[j].filename && i != j;
    }
    forall i, j | 0 <= i < j < |files| && files[i].filename == files[j].filename ensures UnnamedTwice(m) {
      assert files[i] in files && files[j] in files && files[i] != files[j];
      assert files[i].zone != files[j].zone;
    }
  }

  /** Loading an unnamed file in both zones lists two files of one name. */
  lemma UnnamedTwiceListed(text: string)
    ensures var ops := [Add([File("", Local, text, false), File("", External, text, false)])];
            && (forall k :: k in Run(ops).order ==> k in Run(ops).entries)
            && !OnePerName(Listed(Run(ops).entries, Run(ops).order))
  {
    var files := [File("", Local, text, false), File("", External, text, false)];
    var ops := [Add(files)];
    assert ops[..0] == [] && files[..1] == [files[0]] && [files[0]][..0] == [];
    assert WriteAll(map[], [files[0]]) == map[(Local, "") := files[0]];
    assert LastWriters(ops) == WriteAll(map[], files);
    OnePerNameExactly(ops);
  }

  /** No file is listed twice, and no two under one name except exactly when an empty name is accepted in both zones. */
  lemma {:induction false} OnePerNameExactly(ops: seq<Op>)
    ensures forall k :: k in Run(ops).order ==> k in Run(ops).entries
    ensures NoDuplicates(Listed(Run(ops).entries, Run(ops).order))
    ensures OnePerName(Listed(Run(ops).entries, Run(ops).order)) <==> !UnnamedTwice(LastWriters(ops))
  {
    RunKeeps(ops);
    RunHoldsLastWriters(ops);
    var st, m := Run(ops), LastWriters(ops);
    var files := Listed(st.entries, st.order);
    forall f ensures f in files <==> Visible(m, (f.zone, f.filename)) && m[(f.zone, f.filename)] == f {
      ListingIsLastWriters(ops, f);
    }
    forall k | k in m ensures m[k].zone == k.0 && m[k].filename == k.1 {
      assert Faithful(st, k);
    }
    forall k | k in st.order ensures st.entries[k].file.zone == k.0 && st.entries[k].file.filename == k.1 {
      assert Faithful(st, k);
    }
    ListedOnce(st.entries, st.order);
    OnePerNameIff(files, m);
  }
}
