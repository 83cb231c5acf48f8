/** The header bundle: which types each root header reaches, and which headers come along. */
module HeaderBundle {
  import opened Alignment
  import opened Reachability
  import opened TypeDictionary

  predicate IsHeader(path: string) {
    |path| >= 2 && path[|path| - 2] == '.' && path[|path| - 1] in {'h', 'H'}
  }

  /** A struct with the type tokens of its members, or an enum without any, and the file that defines it. */
  datatype Def = Def(file: string, members: seq<string>)

  datatype Types = Types(defs: map<string, Def>, aliases: seq<(string, string)>, primitives: set<string>)

  /** The type a token names, if it is one the walk follows. */
  function Followable(t: Types, token: string): Option<string> {
    var name := Canonical(t.aliases, token, 4);
    if name == "" || name in t.primitives then None else Some(name)
  }

  function Targets(t: Types, tokens: seq<string>): seq<string> {
    if tokens == [] then []
    else
      var last := Followable(t, tokens[|tokens| - 1]);
      Targets(t, tokens[..|tokens| - 1]) + (if last.Some? then [last.value] else [])
  }

  function TypeGraph(t: Types): Graph { map n | n in t.defs :: Targets(t, t.defs[n].members) }

  /** A top-level type and the file that defines it. */
  datatype Top = Top(token: string, file: string)

  // ---- Types --------------------------------------------------------------------------

  class TypeWalker {
    const t: Types
    /** Visited pairs of root and name. */
    var seen: set<(string, string)>
    var reachedFrom: map<string, set<string>>
    /** Names met that the dictionary does not define, with their root. */
    var unresolved: seq<(string, string)>

    function SeenFor(root: string): set<string>
      reads this
    {
      NamesFor(seen, root)
    }

    function RootsOf(name: string): set<string>
      reads this
    {
      if name in reachedFrom then reachedFrom[name] else {}
    }

    /**
     * A root is recorded for a name exactly when the pair was visited and the name is defined, and a
     * name is reported unresolved for a root exactly when the pair was visited and it is not.
     */
    ghost predicate Valid()
      reads this
    {
      && (forall name, root :: root in RootsOf(name) <==> (root, name) in seen && name in t.defs)
      && (forall name, root :: (name, root) in unresolved <==> (root, name) in seen && name !in t.defs)
    }

    constructor (t: Types)
      ensures Valid() && seen == {} && this.t == t && unresolved == []
    {
      this.t := t;
      seen, reachedFrom, unresolved := {}, map[], [];
    }

    /** Mark a pair visited; record the root for a defined name, report an undefined one. */
    method Enter(name: string, root: string)
      requires Valid() && (root, name) !in seen
      modifies this
      ensures Valid()
      ensures seen == old(seen) + {(root, name)}
    {
      seen := seen + {(root, name)};
      if name in t.defs {
        reachedFrom := reachedFrom[name := RootsOf(name) + {root}];
      } else {
        unresolved := unresolved + [(name, root)];
      }
    }

    method WalkType(token: string, root: string)
      requires Valid()
      modifies this
      ensures Valid()
      ensures var name := Followable(t, token);
              SeenFor(root) == old(SeenFor(root))
                + (if name.None? then {} else Elements(Visit(TypeGraph(t), name.value, old(SeenFor(root)))))
      ensures forall p: (string, string) :: p.0 != root ==> (p in seen <==> p in old(seen))
      decreases t.defs.Keys - SeenFor(root), 0
    {
      var target := Followable(t, token);
      if target.None? { return; }
      var name := target.value;
      InNamesFor(seen, root, name);
      if (root, name) in seen { return; }
      ghost var start := SeenFor(root);
      Enter(name, root);
      assert SeenFor(root) == start + {name};
      if name in t.defs {
        assert t.defs.Keys - (start + {name}) < t.defs.Keys - start;
        WalkMembers(t.defs[name].members, root);
      }
      EnterFirst(name, VisitAll(TypeGraph(t), Succ(TypeGraph(t), name), start + {name}));
    }

    method WalkMembers(tokens: seq<string>, root: string)
      requires Valid()
      modifies this
      ensures Valid()
      ensures SeenFor(root) == old(SeenFor(root)) + Elements(VisitAll(TypeGraph(t), Targets(t, tokens), old(SeenFor(root))))
      ensures forall p: (string, string) :: p.0 != root ==> (p in seen <==> p in old(seen))
      decreases t.defs.Keys - SeenFor(root), 1
    {
      ghost var g, start := TypeGraph(t), SeenFor(root);
      for i := 0 to |tokens|
        invariant Valid()
        invariant SeenFor(root) == start + Elements(VisitAll(g, Targets(t, tokens[..i]), start))
        invariant forall p: (string, string) :: p.0 != root ==> (p in seen <==> p in old(seen))
      {
        assert t.defs.Keys - SeenFor(root) <= t.defs.Keys - start;
        OneMoreToken(t, tokens, i, start);
        WalkType(tokens[i], root);
      }
      assert tokens[..|tokens|] == tokens;
    }

    /** The loop over the top-level types; those not defined in a header are skipped. */
    method WalkAll(tops: seq<Top>)
      requires Valid() && seen == {}
      modifies this
      ensures Valid()
      ensures forall root, name :: (root, name) in seen <==> TopReaches(t, tops, root, name)
      ensures forall root, name :: root in RootsOf(name) <==> name in t.defs && TopReaches(t, tops, root, name)
    {
      for i := 0 to |tops|
        invariant Valid()
        invariant ReachSoFar(t, tops[..i], seen)
      {
        var top := tops[i];
        ghost var before := seen;
        if IsHeader(top.file) {
          WalkType(top.token, top.file);
        }
        TopStep(t, tops, i, before, seen);
      }
      assert tops[..|tops|] == tops;
    }
  }

  /** What one more member token adds to a walk over the members before it. */
  lemma {:induction false} OneMoreToken(t: Types, tokens: seq<string>, i: nat, start: set<string>)
    requires i < |tokens|
    ensures var g := TypeGraph(t);
            var so := start + Elements(VisitAll(g, Targets(t, tokens[..i]), start));
            var target := Followable(t, tokens[i]);
            start + Elements(VisitAll(g, Targets(t, tokens[..i + 1]), start))
              == so + (if target.None? then {} else Elements(Visit(g, target.value, so)))
  {
    assert tokens[..i + 1][..i] == tokens[..i];
    var before, after := Targets(t, tokens[..i]), Targets(t, tokens[..i + 1]);
    if Followable(t, tokens[i]).Some? {
      assert after[..|before|] == before;
      VisitAllStep(TypeGraph(t), after, |before|, start);
      assert after[..|before| + 1] == after;
    } else {
      assert after == before;
    }
  }

  function NamesFor(seen: set<(string, string)>, root: string): set<string> {
    set p | p in seen && p.0 == root :: p.1
  }

  /** The visited pairs are what the top-level types so far reach, root by root. */
  ghost predicate ReachSoFar(t: Types, tops: seq<Top>, seen: set<(string, string)>) {
    && (forall root :: ClosedIn(TypeGraph(t), NamesFor(seen, root), NamesFor(seen, root)))
    && (forall root, name :: (root, name) in seen <==> TopReaches(t, tops, root, name))
  }

  lemma TopStep(t: Types, tops: seq<Top>, i: nat, before: set<(string, string)>, after: set<(string, string)>)
    requires i < |tops| && ReachSoFar(t, tops[..i], before)
    requires forall p: (string, string) :: p.0 != tops[i].file ==> (p in after <==> p in before)
    requires var target, had := Followable(t, tops[i].token), NamesFor(before, tops[i].file);
             NamesFor(after, tops[i].file)
               == if !IsHeader(tops[i].file) || target.None? then had
                  else had + Elements(Visit(TypeGraph(t), target.value, had))
    ensures ReachSoFar(t, tops[..i + 1], after)
  {
    var g, file, target := TypeGraph(t), tops[i].file, Followable(t, tops[i].token);
    var had := NamesFor(before, file);
    TopsGrow(t, tops, i);
    if IsHeader(file) && target.Some? { VisitKeepsReach(g, target.value, had); }
    forall root ensures ClosedIn(g, NamesFor(after, root), NamesFor(after, root)) {
      if root != file { SameNames(before, after, root); }
    }
    forall root, name ensures (root, name) in after <==> TopReaches(t, tops[..i + 1], root, name) {
      InNamesFor(before, root, name);
      InNamesFor(after, root, name);
    }
  }

  lemma InNamesFor(seen: set<(string, string)>, root: string, name: string)
    ensures name in NamesFor(seen, root) <==> (root, name) in seen
  {
  }

  lemma SameNames(before: set<(string, string)>, after: set<(string, string)>, root: string)
    requires forall p: (string, string) :: p.0 == root ==> (p in after <==> p in before)
    ensures NamesFor(after, root) == NamesFor(before, root)
  {
  }

  /** Some top-level type of header `root` reaches `name` through member types. */
  ghost predicate TopReaches(t: Types, tops: seq<Top>, root: string, name: string) {
    exists k :: 0 <= k < |tops| && TopLeads(t, tops[k], root, name)
  }

  ghost predicate TopLeads(t: Types, top: Top, root: string, name: string) {
    top.file == root && IsHeader(root) && Followable(t, top.token).Some?
    && Reaches(TypeGraph(t), Followable(t, top.token).value, name)
  }

  lemma TopsGrow(t: Types, tops: seq<Top>, i: nat)
    requires i < |tops|
    ensures forall root, name ::
      TopReaches(t, tops[..i + 1], root, name) <==> TopReaches(t, tops[..i], root, name) || TopLeads(t, tops[i], root, name)
  {
    forall root, name
      ensures TopReaches(t, tops[..i + 1], root, name)
        <==> TopReaches(t, tops[..i], root, name) || TopLeads(t, tops[i], root, name)
    {
      if TopReaches(t, tops[..i], root, name) {
        var k :| 0 <= k < i && TopLeads(t, tops[..i][k], root, name);
        assert TopLeads(t, tops[..i + 1][k], root, name);
      }
      if TopLeads(t, tops[i], root, name) { assert TopLeads(t, tops[..i + 1][i], root, name); }
      if TopReaches(t, tops[..i + 1], root, name) {
        var k :| 0 <= k < i + 1 && TopLeads(t, tops[..i + 1][k], root, name);
        if k < i { assert TopLeads(t, tops[..i][k], root, name); }
      }
    }
  }

  /** Walking from `x` on top of a closed set adds exactly what `x` reaches, and the result is closed again. */
  lemma {:induction false} VisitKeepsReach(g: Graph, x: string, seen: set<string>)
    requires ClosedIn(g, seen, seen)
    ensures var after := seen + Elements(Visit(g, x, seen));
            ClosedIn(g, after, after) && forall y :: y in after <==> y in seen || Reaches(g, x, y)
  {
    VisitGood(g, x, seen);
    var after := seen + Elements(Visit(g, x, seen));
    assert ClosedIn(g, after, after);
    forall y | Reaches(g, x, y) ensures y in after { ClosedHoldsReachable(g, after, x, y); }
  }

  // ---- Includes -----------------------------------------------------------------------

  /** What a local include directive resolved to among the loaded files. */
  datatype Include = Resolved(file: string) | Ambiguous | Missing

  /** Local includes of every loaded file. */
  type Includes = map<string, seq<Include>>

  function Followed(incs: seq<Include>): seq<string> {
    if incs == [] then []
    else
      var last := incs[|incs| - 1];
      Followed(incs[..|incs| - 1]) + (if last.Resolved? then [last.file] else [])
  }

  function IncludeGraph(i: Includes): Graph { map f | f in i :: Followed(i[f]) }

  class IncludeWalker {
    const includes: Includes
    var reached: set<string>

    constructor (includes: Includes)
      ensures this.includes == includes && reached == {}
    {
      this.includes := includes;
      reached := {};
    }

    method WalkIncludes(file: string)
      modifies this
      ensures reached == old(reached) + Elements(Visit(IncludeGraph(includes), file, old(reached)))
      decreases includes.Keys - reached, 0
    {
      if file in reached { return; }
      reached := reached + {file};
      if file in includes {
        WalkDirectives(includes[file]);
      }
      EnterFirst(file, VisitAll(IncludeGraph(includes), Succ(IncludeGraph(includes), file), old(reached) + {file}));
    }

    /** The loop over one file's include directives. */
    method WalkDirectives(incs: seq<Include>)
      modifies this
      ensures reached == old(reached) + Elements(VisitAll(IncludeGraph(includes), Followed(incs), old(reached)))
      decreases includes.Keys - reached, 1
    {
      ghost var g := IncludeGraph(includes);
      for i := 0 to |incs|
        invariant reached == old(reached) + Elements(VisitAll(g, Followed(incs[..i]), old(reached)))
      {
        OneMoreInclude(g, incs, i, old(reached));
        assert includes.Keys - reached <= includes.Keys - old(reached);
        if incs[i].Resolved? {
          WalkIncludes(incs[i].file);
        }
      }
      assert incs[..|incs|] == incs;
    }
  }

  lemma {:induction false} OneMoreInclude(g: Graph, incs: seq<Include>, i: nat, start: set<string>)
    requires i < |incs|
    ensures var so := start + Elements(VisitAll(g, Followed(incs[..i]), start));
            start + Elements(VisitAll(g, Followed(incs[..i + 1]), start))
              == so + (if incs[i].Resolved? then Elements(Visit(g, incs[i].file, so)) else {})
  {
    assert incs[..i + 1][..i] == incs[..i];
    var before, after := Followed(incs[..i]), Followed(incs[..i + 1]);
    if incs[i].Resolved? {
      assert after[..|before|] == before;
      VisitAllStep(g, after, |before|, start);
      assert after[..|before| + 1] == after;
    } else {
      assert after == before;
    }
  }

  /** The headers to include: reached from the roots and the inputs, without the inputs. */
  method IncludeSet(includes: Includes, roots: seq<string>, inputs: set<string>) returns (r: set<string>)
    ensures forall f :: f in r <==> Included(includes, Elements(roots), inputs, f)
  {
    var walker := new IncludeWalker(includes);
    var order := InSomeOrder(inputs);
    var starts := roots + order;
    ghost var g := IncludeGraph(includes);
    for i := 0 to |starts|
      invariant walker.includes == includes
      invariant walker.reached == Elements(VisitAll(g, starts[..i], {}))
    {
      VisitAllStep(g, starts, i, {});
      assert {} + walker.reached == walker.reached;
      walker.WalkIncludes(starts[i]);
    }
    assert starts[..|starts|] == starts;
    VisitsExactlyReachable(g, starts);
    assert forall x :: x in starts <==> x in Elements(roots) || x in Elements(order);
    r := set f | f in walker.reached && IsHeader(f) && f !in inputs;
  }

  /** A set's elements one after another; which order a set yields them in makes no difference here. */
  method InSomeOrder(files: set<string>) returns (order: seq<string>)
    ensures Elements(order) == files
  {
    order := [];
    var rest := files;
    while rest != {}
      invariant rest <= files && Elements(order) == files - rest
    {
      var f :| f in rest;
      assert Elements(order + [f]) == Elements(order) + {f};
      order, rest := order + [f], rest - {f};
    }
  }

  /** Header `f` is in the include closure of the roots and the inputs, and is no input itself. */
  ghost predicate Included(includes: Includes, roots: set<string>, inputs: set<string>, f: string) {
    IsHeader(f) && f !in inputs && exists x :: (x in roots || x in inputs) && Reaches(IncludeGraph(includes), x, f)
  }

  // ---- The bundle ---------------------------------------------------------------------

  /** Header `f` defines a top-level type. */
  ghost predicate IsRoot(tops: seq<Top>, f: string) {
    IsHeader(f) && exists k :: 0 <= k < |tops| && tops[k].file == f
  }

  /** Header `f` defines a type that some top-level type of some header reaches. */
  ghost predicate IsInput(t: Types, tops: seq<Top>, f: string) {
    IsHeader(f) && exists root, name :: TopReaches(t, tops, root, name) && name in t.defs && t.defs[name].file == f
  }

  method Roots(tops: seq<Top>) returns (roots: seq<string>)
    ensures NoRepeats(roots) && forall f :: f in roots <==> IsRoot(tops, f)
  {
    roots := [];
    for i := 0 to |tops|
      invariant NoRepeats(roots) && forall f :: f in roots <==> IsRoot(tops[..i], f)
    {
      var file := tops[i].file;
      RootsNext(tops, i);
      if IsHeader(file) && file !in roots { roots := roots + [file]; }
    }
    assert tops[..|tops|] == tops;
  }

  lemma RootsNext(tops: seq<Top>, i: nat)
    requires i < |tops|
    ensures forall f ::
      IsRoot(tops[..i + 1], f) <==> IsRoot(tops[..i], f) || (IsHeader(f) && tops[i].file == f)
  {
    forall f ensures IsRoot(tops[..i + 1], f) <==> IsRoot(tops[..i], f) || (IsHeader(f) && tops[i].file == f) {
      if IsRoot(tops[..i], f) {
        var k :| 0 <= k < i && tops[..i][k].file == f;
        assert tops[..i + 1][k].file == f;
      }
      if IsHeader(f) && tops[i].file == f { assert tops[..i + 1][i].file == f; }
      if IsRoot(tops[..i + 1], f) {
        var k :| 0 <= k < i + 1 && tops[..i + 1][k].file == f;
        if k < i { assert tops[..i][k].file == f; }
      }
    }
  }

  /**
   * From the top-level types to the selection: the roots are the headers that define one, the inputs
   * the headers that define anything a root's types reach, and the includes whatever else the local
   * includes of those lead to.
   */
  method BuildBundle(t: Types, includes: Includes, tops: seq<Top>)
    returns (roots: seq<string>, inputs: set<string>, included: set<string>)
    ensures forall f :: f in roots <==> IsRoot(tops, f)
    ensures forall f :: f in inputs <==> IsInput(t, tops, f)
    ensures forall f :: f in included <==> Included(includes, Elements(roots), inputs, f)
  {
    roots := Roots(tops);
    var walker := new TypeWalker(t);
    walker.WalkAll(tops);
    inputs := InputFiles(t, walker.reachedFrom);
    forall root, name
      ensures (name in walker.reachedFrom && root in walker.reachedFrom[name])
        <==> (name in t.defs && TopReaches(t, tops, root, name))
    {
      assert root in walker.RootsOf(name) <==> name in walker.t.defs && TopReaches(walker.t, tops, root, name);
    }
    InputsAre(t, tops, walker.reachedFrom, inputs);
    included := IncludeSet(includes, roots, inputs);
  }

  /** The header files of the types reached; each has its file recorded along with its roots. */
  function InputFiles(t: Types, reachedFrom: map<string, set<string>>): set<string> {
    set name | name in reachedFrom && reachedFrom[name] != {} && name in t.defs && IsHeader(t.defs[name].file)
      :: t.defs[name].file
  }

  lemma InputsAre(t: Types, tops: seq<Top>, reachedFrom: map<string, set<string>>, inputs: set<string>)
    requires forall root, name ::
      (name in reachedFrom && root in reachedFrom[name]) <==> (name in t.defs && TopReaches(t, tops, root, name))
    requires inputs == InputFiles(t, reachedFrom)
    ensures forall f :: f in inputs <==> IsInput(t, tops, f)
  {
    forall f | f in inputs ensures IsInput(t, tops, f) {
      var name :| name in reachedFrom && reachedFrom[name] != {} && name in t.defs && t.defs[name].file == f;
      var root :| root in reachedFrom[name];
      assert TopReaches(t, tops, root, name);
    }
    forall f | IsInput(t, tops, f) ensures f in inputs {
      var root, name :| TopReaches(t, tops, root, name) && name in t.defs && t.defs[name].file == f;
      assert name in reachedFrom && root in reachedFrom[name];
    }
  }

  // ---- The two graphs, declaratively -----------------------------------------------------

  /** A header's path ends in a dot and one h, small or capital. */
  lemma HeaderExactly(path: string)
    ensures IsHeader(path) <==> exists stem :: path == stem + ".h" || path == stem + ".H"
  {
    if IsHeader(path) {
      var stem := path[..|path| - 2];
      assert path == stem + path[|path| - 2..];
      assert path == stem + ".h" || path == stem + ".H";
    }
  }

  /** The token names `name`: four aliases lead there, with none left over unless all are used, and it is no primitive. */
  ghost predicate Names(t: Types, token: string, name: string) {
    name != "" && name !in t.primitives && exists chain :: CanonicalAt(t.aliases, chain, 4, name) && chain[0] == token
  }

  lemma {:induction false} FollowableExactly(t: Types, token: string, name: string)
    ensures Followable(t, token) == Some(name) <==> Names(t, token, name)
  {
    CanonicalExactly(t.aliases, token, 4, name);
  }

  lemma {:induction false} TargetsExactly(t: Types, tokens: seq<string>, name: string)
    ensures name in Targets(t, tokens) <==> exists i :: 0 <= i < |tokens| && Followable(t, tokens[i]) == Some(name)
  {
    if tokens != [] { TargetsExactly(t, tokens[..|tokens| - 1], name); }
  }

  /** A type leads to another exactly if it is defined and one of its members' tokens names the other. */
  lemma {:induction false} TypeStepExactly(t: Types, from: string, name: string)
    ensures name in Succ(TypeGraph(t), from)
      <==> from in t.defs && exists token :: token in t.defs[from].members && Names(t, token, name)
  {
    if from in t.defs {
      var tokens := t.defs[from].members;
      TargetsExactly(t, tokens, name);
      forall token ensures Followable(t, token) == Some(name) <==> Names(t, token, name) {
        FollowableExactly(t, token, name);
      }
      if token :| token in tokens && Names(t, token, name) {
        var i :| 0 <= i < |tokens| && tokens[i] == token;
        assert Followable(t, tokens[i]) == Some(name);
      }
    }
  }

  /** A file leads to another exactly if it is loaded and one of its local includes resolved to the other. */
  lemma {:induction false} IncludeStepExactly(includes: Includes, from: string, file: string)
    ensures file in Succ(IncludeGraph(includes), from) <==> from in includes && Resolved(file) in includes[from]
  {
    if from in includes { FollowedExactly(includes[from], file); }
  }

  lemma {:induction false} FollowedExactly(incs: seq<Include>, file: string)
    ensures file in Followed(incs) <==> Resolved(file) in incs
  {
    if incs != [] {
      FollowedExactly(incs[..|incs| - 1], file);
      assert incs == incs[..|incs| - 1] + [incs[|incs| - 1]];
    }
  }
}
