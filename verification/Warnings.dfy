/** Wire hazards collected over everything a message embeds. */
module Warnings {
  import opened Alignment
  import opened Reachability
  import opened RoleReport

  /** A flagged member, printed as `struct.field`. */
  datatype Hazard = Hazard(owner: string, field: string)

  /** The report by struct name. */
  type Roles = map<string, RoleInfo>

  function HazardGraph(roles: Roles): Graph { map n | n in roles :: roles[n].contains }

  function Tag(owner: string, fields: seq<string>): seq<Hazard> {
    if fields == [] then [] else Tag(owner, fields[..|fields| - 1]) + [Hazard(owner, fields[|fields| - 1])]
  }

  /** `pointers` selects pointer members, otherwise arrays of unknown extent. */
  function FieldsOf(roles: Roles, name: string, pointers: bool): seq<string> {
    if name !in roles then [] else if pointers then roles[name].pointerFields else roles[name].variableArrayFields
  }

  function HazardsIn(roles: Roles, order: seq<string>, pointers: bool): seq<Hazard> {
    if order == [] then []
    else HazardsIn(roles, order[..|order| - 1], pointers) + HazardsAt(roles, order[|order| - 1], pointers)
  }

  function HazardsAt(roles: Roles, name: string, pointers: bool): seq<Hazard> {
    Tag(name, FieldsOf(roles, name, pointers))
  }

  lemma {:induction false} HazardsAppend(roles: Roles, a: seq<string>, b: seq<string>, pointers: bool)
    ensures HazardsIn(roles, a + b, pointers) == HazardsIn(roles, a, pointers) + HazardsIn(roles, b, pointers)
  {
    if b == [] {
      assert a + b == a;
    } else {
      var n := |b| - 1;
      HazardsAppend(roles, a, b[..n], pointers);
      assert (a + b)[..|a| + n] == a + b[..n];
      Assoc(HazardsIn(roles, a, pointers), HazardsIn(roles, b[..n], pointers), HazardsAt(roles, b[n], pointers));
    }
  }

  lemma {:induction false} HazardsOne(roles: Roles, x: string, pointers: bool)
    ensures HazardsIn(roles, [x], pointers) == Tag(x, FieldsOf(roles, x, pointers))
  {
    assert [x][..0] == [];
  }

  lemma {:induction false} HazardsEnter(roles: Roles, x: string, below: seq<string>, pointers: bool)
    ensures HazardsIn(roles, [x] + below, pointers)
         == Tag(x, FieldsOf(roles, x, pointers)) + HazardsIn(roles, below, pointers)
  {
    HazardsAppend(roles, [x], below, pointers);
    HazardsOne(roles, x, pointers);
  }

  /** The two lists are the hazards of the structs in `order`. */
  ghost predicate AllHazards(roles: Roles, order: seq<string>, pointers: seq<Hazard>, variableArrays: seq<Hazard>) {
    pointers == HazardsIn(roles, order, true) && variableArrays == HazardsIn(roles, order, false)
  }

  lemma {:induction false} AllHazardsAppend(roles: Roles, a: seq<string>, pa: seq<Hazard>, va: seq<Hazard>,
                                            b: seq<string>, pb: seq<Hazard>, vb: seq<Hazard>)
    requires AllHazards(roles, a, pa, va) && AllHazards(roles, b, pb, vb)
    ensures AllHazards(roles, a + b, pa + pb, va + vb)
  {
    HazardsAppend(roles, a, b, true);
    HazardsAppend(roles, a, b, false);
  }

  class Collector {
    /** Shared by all recursive calls of one collection. */
    var seen: set<string>

    constructor ()
      ensures seen == {}
    {
      seen := {};
    }

    /** `collectWarnings`: the struct's own hazards, then those of the structs it embeds. */
    method Collect(roles: Roles, name: string)
      returns (pointers: seq<Hazard>, variableArrays: seq<Hazard>, ghost order: seq<string>)
      modifies this
      ensures order == Visit(HazardGraph(roles), name, old(seen))
      ensures seen == old(seen) + Elements(order)
      ensures pointers == HazardsIn(roles, order, true) && variableArrays == HazardsIn(roles, order, false)
      decreases roles.Keys - seen, 0
    {
      if name in seen { return [], [], []; }
      seen := seen + {name};
      ghost var below: seq<string> := [];
      if name !in roles {
        pointers, variableArrays := [], [];
      } else {
        pointers, variableArrays := Tag(name, roles[name].pointerFields), Tag(name, roles[name].variableArrayFields);
        var p, v;
        p, v, below := CollectAll(roles, roles[name].contains);
        pointers, variableArrays := pointers + p, variableArrays + v;
      }
      order := [name] + below;
      EnterFirst(name, below);
      HazardsEnter(roles, name, below, true);
      HazardsEnter(roles, name, below, false);
    }

    /** The loop over the embedded structs. */
    method CollectAll(roles: Roles, names: seq<string>)
      returns (pointers: seq<Hazard>, variableArrays: seq<Hazard>, ghost order: seq<string>)
      modifies this
      ensures order == VisitAll(HazardGraph(roles), names, old(seen))
      ensures seen == old(seen) + Elements(order)
      ensures pointers == HazardsIn(roles, order, true) && variableArrays == HazardsIn(roles, order, false)
      decreases roles.Keys - seen, 1
    {
      pointers, variableArrays, order := [], [], [];
      for i := 0 to |names|
        invariant order == VisitAll(HazardGraph(roles), names[..i], old(seen))
        invariant seen == old(seen) + Elements(order)
        invariant AllHazards(roles, order, pointers, variableArrays)
      {
        VisitAllStep(HazardGraph(roles), names, i, old(seen));
        assert roles.Keys - seen <= roles.Keys - old(seen);
        var p, v, more := Collect(roles, names[i]);
        AllHazardsAppend(roles, order, pointers, variableArrays, more, p, v);
        pointers, variableArrays, order := pointers + p, variableArrays + v, order + more;
      }
      assert names[..|names|] == names;
    }
  }

  // ---- Each hazard of each reachable struct, once ------------------------------------------

  lemma {:induction false} TagCounts(owner: string, fields: seq<string>, h: Hazard)
    ensures multiset(Tag(owner, fields))[h] == if h.owner == owner then multiset(fields)[h.field] else 0
  {
    if fields != [] {
      TagCounts(owner, fields[..|fields| - 1], h);
      assert fields == fields[..|fields| - 1] + [fields[|fields| - 1]];
    }
  }

  lemma {:induction false} HazardCounts(roles: Roles, order: seq<string>, pointers: bool, h: Hazard)
    requires NoRepeats(order)
    ensures multiset(HazardsIn(roles, order, pointers))[h]
      == if h.owner in order then multiset(FieldsOf(roles, h.owner, pointers))[h.field] else 0
  {
    if order != [] {
      var n := |order| - 1;
      HazardCounts(roles, order[..n], pointers, h);
      TagCounts(order[n], FieldsOf(roles, order[n], pointers), h);
      assert order == order[..n] + [order[n]];
      assert order[n] !in order[..n];
    }
  }

  /**
   * Starting clean, the warnings for a message hold each hazard of each struct it embeds, directly or
   * not, as often as that struct declares it, and nothing else, whether or not the graph has cycles.
   */
  lemma {:induction false} WarningsExactlyReachable(roles: Roles, root: string, pointers: bool, h: Hazard)
    ensures multiset(HazardsIn(roles, Visit(HazardGraph(roles), root, {}), pointers))[h]
      == if Reaches(HazardGraph(roles), root, h.owner) then multiset(FieldsOf(roles, h.owner, pointers))[h.field] else 0
  {
    VisitsExactlyReachableFrom(HazardGraph(roles), root);
    HazardCounts(roles, Visit(HazardGraph(roles), root, {}), pointers, h);
  }
}
