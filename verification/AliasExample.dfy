/**
 * A struct that is shown in a message's tree but escapes the message's warnings: the member names it
 * through five aliases.
 */
module AliasExample {
  import opened Alignment
  import opened TypeDictionary
  import opened Layout
  import opened Containment
  import opened Composition
  import opened Reachability
  import opened TreeWarnings
  import RoleGraph
  import RoleReport
  import Warnings

  /** `typedef struct Inner e; typedef e d; typedef d c; typedef c b; typedef b a;`. */
  const ALIASES: seq<(string, string)> := [("e", "Inner"), ("d", "e"), ("c", "d"), ("b", "c"), ("a", "b")]

  /** `struct Outer { a m; }; struct Inner { int *p; };`. */
  const P := Field("p", "int *", "int", FieldType("int", true, NotArray, None))
  const M := Field("m", "a", "a", FieldType("a", false, NotArray, None))
  const INNER := Struct("Inner", [P], None)
  const OUTER := Struct("Outer", [M], None)
  const DICT := TypeDict([OUTER, INNER], ALIASES)

  lemma {:induction false} AliasAt(aliases: seq<(string, string)>, i: nat)
    requires i < |aliases| && aliases[i].1 != "" && forall j :: 0 <= j < i ==> aliases[j].0 != aliases[i].0
    ensures AliasOf(aliases, aliases[i].0) == Some(aliases[i].1)
  {
    if i > 0 { AliasAt(aliases[1..], i - 1); }
  }

  lemma Links()
    ensures AliasOf(ALIASES, "a") == Some("b") && AliasOf(ALIASES, "b") == Some("c") && AliasOf(ALIASES, "c") == Some("d")
    ensures AliasOf(ALIASES, "d") == Some("e") && AliasOf(ALIASES, "e") == Some("Inner")
  {
    AliasAt(ALIASES, 0);
    AliasAt(ALIASES, 1);
    AliasAt(ALIASES, 2);
    AliasAt(ALIASES, 3);
    AliasAt(ALIASES, 4);
  }

  lemma Lookups()
    ensures FindStruct(DICT.structs, "Inner") == Some(INNER) && FindStruct(DICT.structs, "Outer") == Some(OUTER)
    ensures forall x :: |x| == 1 ==> FindStruct(DICT.structs, x) == None
  {
    assert DICT.structs[1..] == [INNER];
    assert "Outer"[0] != "Inner"[0];
  }

  /** Four aliases stop one short of the struct. */
  lemma FourAliases()
    ensures Canonical(ALIASES, "a", 4) == "e"
  {
    Links();
    assert Canonical(ALIASES, "d", 1) == "e";
    assert Canonical(ALIASES, "c", 2) == "e";
    assert Canonical(ALIASES, "b", 3) == "e";
  }

  lemma {:induction false} NoPrimitive(env: Env)
    requires env.dict == DICT && env.prims == PRIMITIVES
    ensures ChaseAliasToPrimitive(env, "a", 6) == None
  {
    Links();
    Lookups();
    ShortNameMissed("b");
    ShortNameMissed("c");
    ShortNameMissed("d");
    ShortNameMissed("e");
    assert ChaseAliasToPrimitive(env, "e", 2) == None;
    assert ChaseAliasToPrimitive(env, "d", 3) == None;
    assert ChaseAliasToPrimitive(env, "c", 4) == None;
    assert ChaseAliasToPrimitive(env, "b", 5) == None;
  }

  /** An alias whose target is already in the map gets that target's struct. */
  lemma {:induction false} AliasOfKnown(d: TypeDict, n: nat)
    requires n < |d.aliases|
    requires d.aliases[n].0 !in TypedefsAfter(d, n) && d.aliases[n].1 in TypedefsAfter(d, n)
    ensures TypedefsAfter(d, n + 1) == TypedefsAfter(d, n)[d.aliases[n].0 := TypedefsAfter(d, n)[d.aliases[n].1]]
  {
  }

  /** The alias map, filled in order, gets to the struct all the same. */
  lemma AllAliases()
    ensures var m := TypedefsAfter(DICT, 5); "a" in m && m["a"] == "Inner"
  {
    assert DICT.structs[..1] == [OUTER] && [OUTER][..0] == [];
    assert StructNames([OUTER]) == map["Outer" := "Outer"];
    assert TypedefsAfter(DICT, 0) == map["Outer" := "Outer", "Inner" := "Inner"];
    AliasOfKnown(DICT, 0);
    AliasOfKnown(DICT, 1);
    AliasOfKnown(DICT, 2);
    AliasOfKnown(DICT, 3);
    AliasOfKnown(DICT, 4);
  }

  lemma LayoutSeesInner()
    ensures Resolve(EnvOf(DICT), "a") == Nested(INNER)
  {
    ShortNameMissed("a");
    NoPrimitive(EnvOf(DICT));
    AllAliases();
    Lookups();
  }

  lemma {:induction false} ReportMissesInner(c: string)
    ensures !RoleGraph.Embeds(DICT, |DICT.structs|, "Outer", c)
  {
    NoChild();
  }

  lemma NoChild()
    ensures RoleGraph.ChildOf(DICT, "Outer", M) == None
  {
    FourAliases();
    NoShortStruct("e");
  }

  lemma {:induction false} NoShortStruct(name: string)
    requires |name| == 1
    ensures !RoleGraph.IsStruct(DICT.structs, name)
  {
    forall k | 0 <= k < 2 ensures DICT.structs[k].name != name { assert |DICT.structs[k].name| == 5; }
  }

  lemma InnerEmbedded()
    ensures EmbedsBlock(EnvOf(DICT), OUTER, INNER)
  {
    LayoutSeesInner();
    assert BlockMember(EnvOf(DICT), OUTER, M, INNER);
    assert OUTER.fields[0] == M;
  }

  lemma {:induction false} InnerShown(env: Env, t: Target, maxDepth: nat)
    requires env.dict == DICT && EmbedsBlock(env, OUTER, INNER)
    ensures Occurs(TreeOf(env, t, OUTER, maxDepth), "Inner")
  {
    assert OUTER in DICT.structs && OUTER.name != INNER.name;
    EmbedOccurs(env, t, OUTER, INNER, maxDepth);
  }

  lemma PointerDeclared()
    ensures RoleReport.PointerFields(INNER.fields) == ["p"]
  {
    assert INNER.fields[..0] == [];
  }

  lemma {:induction false} NotWarned(o: RoleReport.Orders, input: RoleReport.Input)
    requires input.dict == DICT
    ensures var roles := RolesOf(o, input);
            multiset(Warnings.HazardsIn(roles, Visit(Warnings.HazardGraph(roles), "Outer", {}), true))
                    [Warnings.Hazard("Inner", "p")] == 0
  {
    NotReached(o, input);
    Warnings.WarningsExactlyReachable(RolesOf(o, input), "Outer", true, Warnings.Hazard("Inner", "p"));
  }

  /** `Inner` declares a pointer and is in the tree of `Outer` at any depth cap, but has no warning there. */
  lemma AliasesEscape(o: RoleReport.Orders, input: RoleReport.Input, t: Target, maxDepth: nat)
    requires input.dict == DICT
    ensures RoleReport.PointerFields(INNER.fields) == ["p"]
    ensures Occurs(TreeOf(EnvOf(DICT), t, OUTER, maxDepth), "Inner")
    ensures var roles := RolesOf(o, input);
            multiset(Warnings.HazardsIn(roles, Visit(Warnings.HazardGraph(roles), "Outer", {}), true))
                    [Warnings.Hazard("Inner", "p")] == 0
  {
    PointerDeclared();
    InnerEmbedded();
    InnerShown(EnvOf(DICT), t, maxDepth);
    NotWarned(o, input);
  }

  lemma {:induction false} NotReached(o: RoleReport.Orders, input: RoleReport.Input)
    requires input.dict == DICT
    ensures !Reaches(WarningGraph(o, input), "Outer", "Inner")
  {
    var g := WarningGraph(o, input);
    forall c ensures c !in Succ(g, "Outer") {
      WarningEdge(o, input, "Outer", c);
      ReportMissesInner(c);
    }
    if Reaches(g, "Outer", "Inner") {
      ClosedHoldsReachable(g, {"Outer"}, "Outer", "Inner");
    }
  }
}
