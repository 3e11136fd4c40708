/** The detail view's tiered breakdown: the types of the combined table grouped by
    multiplier into the tiers 0, 0.5, 1 and 2, empty tiers left out. */
module Tiers {
  import opened Multipliers
  import opened TypeData
  import opened Combined

  /** The display tiers, in the order the breakdown lists them. */
  const Levels: seq<real> := [0.0, 0.5, 1.0, 2.0]

  /** One pill of the breakdown: a level and the types at that level. */
  datatype Tier = Tier(level: real, types: seq<TypeName>)

  /** A table value that one of the tiers shows. `String(m) === level` holds for a
      number equal to the level and never for `NaN`. */
  predicate Shown(x: JsValue) {
    x == Finite(0.0) || x == Finite(0.5) || x == Finite(1.0) || x == Finite(2.0)
  }

  /** The entries of the table, in key order `keys`, whose value is `level`, keeping
      only the type names. */
  function AtLevel(keys: seq<TypeName>, mult: Table, level: real): (r: seq<TypeName>)
    ensures forall t :: t in r <==> t in keys && t in mult && mult[t] == Finite(level)
    decreases |keys|
  {
    if keys == [] then []
    else
      var k := keys[|keys| - 1];
      AtLevel(keys[..|keys| - 1], mult, level) + (if k in mult && mult[k] == Finite(level) then [k] else [])
  }

  /** The tiers for `levels`, in order, each non-empty one once. */
  function TierList(keys: seq<TypeName>, mult: Table, levels: seq<real>): seq<Tier>
    decreases |levels|
  {
    if levels == [] then []
    else
      var level := levels[|levels| - 1];
      var found := AtLevel(keys, mult, level);
      TierList(keys, mult, levels[..|levels| - 1]) + (if found == [] then [] else [Tier(level, found)])
  }

  /** The loop over the levels `'0'`, `'0.5'`, `'1'`, `'2'` that skips empty tiers. */
  method Breakdown(keys: seq<TypeName>, mult: Table) returns (tiers: seq<Tier>)
    ensures tiers == TierList(keys, mult, Levels)
  {
    tiers := BreakdownOver(keys, mult, Levels);
  }

  /** The levels a table of one or two defending types can hold. */
  const AllLevels: seq<real> := [0.0, 0.25, 0.5, 1.0, 2.0, 4.0]

  /** The breakdown with a tier for 0.25 and for 4 as well. */
  method FullBreakdown(keys: seq<TypeName>, mult: Table) returns (tiers: seq<Tier>)
    ensures tiers == TierList(keys, mult, AllLevels)
  {
    tiers := BreakdownOver(keys, mult, AllLevels);
  }

  /** The loop over `levels`: filter the entries at each level, skip the level when
      nothing is at it, otherwise append its tier. */
  method BreakdownOver(keys: seq<TypeName>, mult: Table, levels: seq<real>) returns (tiers: seq<Tier>)
    ensures tiers == TierList(keys, mult, levels)
  {
    tiers := [];
    for i := 0 to |levels|
      invariant tiers == TierList(keys, mult, levels[..i])
    {
      assert levels[..i + 1][..i] == levels[..i];
      var filtered := AtLevel(keys, mult, levels[i]);
      if |filtered| == 0 {
        continue;
      }
      tiers := tiers + [Tier(levels[i], filtered)];
    }
    assert levels[..|levels|] == levels;
  }

  predicate Increasing(levels: seq<real>) {
    forall i, j :: 0 <= i < j < |levels| ==> levels[i] < levels[j]
  }

  /** Every tier is non-empty, carries one of the requested levels and holds exactly
      the types at that level. */
  lemma {:induction false} TierListTiers(keys: seq<TypeName>, mult: Table, levels: seq<real>)
    ensures forall i :: 0 <= i < |TierList(keys, mult, levels)| ==>
      TierList(keys, mult, levels)[i].level in levels &&
      TierList(keys, mult, levels)[i].types != [] &&
      TierList(keys, mult, levels)[i].types == AtLevel(keys, mult, TierList(keys, mult, levels)[i].level)
    decreases |levels|
  {
    if levels != [] {
      var p, level := levels[..|levels| - 1], levels[|levels| - 1];
      assert levels == p + [level];
      TierListTiers(keys, mult, p);
      var before, found := TierList(keys, mult, p), AtLevel(keys, mult, level);
      var r := TierList(keys, mult, levels);
      assert r == before + (if found == [] then [] else [Tier(level, found)]);
      forall i | 0 <= i < |r| ensures r[i].level in levels && r[i].types != [] && r[i].types == AtLevel(keys, mult, r[i].level) {
        if i < |before| {
          assert r[i] == before[i];
        }
      }
    }
  }

  /** For increasing `levels` the tiers come in increasing order of level. */
  lemma {:induction false} TierListIncreasing(keys: seq<TypeName>, mult: Table, levels: seq<real>)
    requires Increasing(levels)
    ensures forall i, j :: 0 <= i < j < |TierList(keys, mult, levels)| ==>
      TierList(keys, mult, levels)[i].level < TierList(keys, mult, levels)[j].level
    decreases |levels|
  {
    if levels != [] {
      var p, level := levels[..|levels| - 1], levels[|levels| - 1];
      assert levels == p + [level];
      assert Increasing(p);
      TierListIncreasing(keys, mult, p);
      TierListTiers(keys, mult, p);
      var before, found := TierList(keys, mult, p), AtLevel(keys, mult, level);
      var r := TierList(keys, mult, levels);
      assert r == before + (if found == [] then [] else [Tier(level, found)]);
      forall i | 0 <= i < |before| ensures before[i].level < level {
        var k :| 0 <= k < |p| && p[k] == before[i].level;
        assert levels[k] == p[k];
      }
      forall i, j | 0 <= i < j < |r| ensures r[i].level < r[j].level {
        assert r[i] == before[i];
        if j < |before| {
          assert r[j] == before[j];
        }
      }
    }
  }

  /** Every level that some type has gets its tier. */
  lemma {:induction false} TierListComplete(keys: seq<TypeName>, mult: Table, levels: seq<real>)
    ensures forall l :: l in levels && AtLevel(keys, mult, l) != [] ==>
      Tier(l, AtLevel(keys, mult, l)) in TierList(keys, mult, levels)
    decreases |levels|
  {
    if levels != [] {
      var p, level := levels[..|levels| - 1], levels[|levels| - 1];
      assert levels == p + [level];
      TierListComplete(keys, mult, p);
      var before, found := TierList(keys, mult, p), AtLevel(keys, mult, level);
      var r := TierList(keys, mult, levels);
      assert r == before + (if found == [] then [] else [Tier(level, found)]);
      forall l | l in levels && AtLevel(keys, mult, l) != []
        ensures Tier(l, AtLevel(keys, mult, l)) in r
      {
        if l != level {
          assert l in p;
        }
      }
    }
  }

  /** The tiers for increasing `levels` show a type exactly when its value is one
      of the levels, and then in the tier of that value. */
  lemma TierShownIff(keys: seq<TypeName>, mult: Table, levels: seq<real>, t: TypeName)
    requires Increasing(levels)
    ensures (exists i :: 0 <= i < |TierList(keys, mult, levels)| && t in TierList(keys, mult, levels)[i].types) <==>
      t in keys && t in mult && mult[t].Finite? && mult[t].value in levels
    ensures forall i :: 0 <= i < |TierList(keys, mult, levels)| && t in TierList(keys, mult, levels)[i].types ==>
      mult[t] == Finite(TierList(keys, mult, levels)[i].level)
  {
    TierListTiers(keys, mult, levels);
    TierListComplete(keys, mult, levels);
    var tiers := TierList(keys, mult, levels);
    if t in keys && t in mult && mult[t].Finite? && mult[t].value in levels {
      var l := mult[t].value;
      assert t in AtLevel(keys, mult, l);
      var i :| 0 <= i < |tiers| && tiers[i] == Tier(l, AtLevel(keys, mult, l));
      assert t in tiers[i].types;
    }
  }

  /** A type appears in at most one tier. */
  lemma TypeInAtMostOneTier(keys: seq<TypeName>, mult: Table, t: TypeName, i: nat, j: nat)
    requires i < |TierList(keys, mult, Levels)| && j < |TierList(keys, mult, Levels)|
    requires t in TierList(keys, mult, Levels)[i].types && t in TierList(keys, mult, Levels)[j].types
    ensures i == j
  {
    assert Increasing(Levels);
    TierListTiers(keys, mult, Levels);
    TierListIncreasing(keys, mult, Levels);
    var tiers := TierList(keys, mult, Levels);
    assert mult[t] == Finite(tiers[i].level) && mult[t] == Finite(tiers[j].level);
    assert tiers[i].level == tiers[j].level;
  }

  /** A type is shown exactly when its value is 0, 0.5, 1 or 2, and then in the tier
      of that value; every tier is non-empty and has one of those four levels. */
  lemma TierPlacement(keys: seq<TypeName>, mult: Table, t: TypeName)
    ensures forall i :: 0 <= i < |TierList(keys, mult, Levels)| ==>
      TierList(keys, mult, Levels)[i].level in Levels && TierList(keys, mult, Levels)[i].types != []
    ensures (exists i :: 0 <= i < |TierList(keys, mult, Levels)| && t in TierList(keys, mult, Levels)[i].types) <==>
      t in keys && t in mult && Shown(mult[t])
    ensures forall i :: 0 <= i < |TierList(keys, mult, Levels)| && t in TierList(keys, mult, Levels)[i].types ==>
      mult[t] == Finite(TierList(keys, mult, Levels)[i].level)
  {
    assert Increasing(Levels);
    TierListTiers(keys, mult, Levels);
    TierShownIff(keys, mult, Levels, t);
    if t in mult && mult[t].Finite? {
      assert mult[t].value in Levels <==> Shown(mult[t]);
    }
  }

  /** For increasing `levels`, a type whose value is one of them is in exactly one
      tier, the one of its value. */
  lemma ExactlyOneTier(keys: seq<TypeName>, mult: Table, levels: seq<real>, a: TypeName)
    requires Increasing(levels)
    requires a in keys && a in mult && mult[a].Finite? && mult[a].value in levels
    ensures exists i :: (0 <= i < |TierList(keys, mult, levels)| &&
      a in TierList(keys, mult, levels)[i].types && TierList(keys, mult, levels)[i].level == mult[a].value)
    ensures forall i, j ::
      (0 <= i < |TierList(keys, mult, levels)| && 0 <= j < |TierList(keys, mult, levels)| &&
       a in TierList(keys, mult, levels)[i].types && a in TierList(keys, mult, levels)[j].types) ==> i == j
  {
    var tiers := TierList(keys, mult, levels);
    TierShownIff(keys, mult, levels, a);
    TierListIncreasing(keys, mult, levels);
    forall i, j | 0 <= i < |tiers| && 0 <= j < |tiers| && a in tiers[i].types && a in tiers[j].types
      ensures i == j
    {
      assert tiers[i].level == tiers[j].level;
    }
  }
}
