/** How the combined table, the chart and the tiers agree on a catalog whose
    relations are recorded from both ends. The combined table reads the defending
    type's `*_damage_from` lists; a chart cell reads the attacking type's
    `*_damage_to` lists. */
module Consistency {
  import opened Multipliers
  import opened TypeData
  import opened Combined
  import opened TypeChart
  import opened Tiers

  /** Every relation is listed from both ends: defender `d` is in attacker `a`'s
      double, half or no `damage_to` list exactly when `a` is in the matching
      `damage_from` list of `d`. */
  ghost predicate Mirrored(cache: TypeCache) {
    forall a, d :: a in cache && d in cache ==>
      (d in cache[a].doubleDamageTo <==> a in cache[d].doubleDamageFrom) &&
      (d in cache[a].halfDamageTo <==> a in cache[d].halfDamageFrom) &&
      (d in cache[a].noDamageTo <==> a in cache[d].noDamageFrom)
  }

  /** A type lists each attacker at most once, and in at most one damage-from list. */
  predicate Tidy(rel: DamageRelations) {
    NoDuplicates(rel.doubleDamageFrom) && NoDuplicates(rel.halfDamageFrom) &&
    (forall a :: a in rel.doubleDamageFrom ==> a !in rel.halfDamageFrom && a !in rel.noDamageFrom) &&
    (forall a :: a in rel.halfDamageFrom ==> a !in rel.noDamageFrom)
  }

  ghost predicate WellFormed(cache: TypeCache) {
    Mirrored(cache) && forall d :: d in cache ==> Tidy(cache[d])
  }

  /** On a well-formed catalog the factor a defending type contributes to the
      combined table is the chart cell of the attacker against it. */
  lemma DefenderFactorIsChartCell(cache: TypeCache, a: TypeName, d: TypeName)
    requires WellFormed(cache) && a in cache && d in cache
    ensures DefenderFactor(cache[d], a) == Effectiveness(cache[a], d)
  {
    var rel := cache[d];
    assert Tidy(rel);
    if a !in rel.noDamageFrom {
      CountPositive(rel.doubleDamageFrom, a);
      CountPositive(rel.halfDamageFrom, a);
      CountAtMostOne(rel.doubleDamageFrom, a);
      CountAtMostOne(rel.halfDamageFrom, a);
      if a in rel.halfDamageFrom {
        assert Count(rel.doubleDamageFrom, a) - Count(rel.halfDamageFrom, a) == -1;
      } else if a in rel.doubleDamageFrom {
        assert Count(rel.doubleDamageFrom, a) - Count(rel.halfDamageFrom, a) == 1;
      } else {
        assert Count(rel.doubleDamageFrom, a) - Count(rel.halfDamageFrom, a) == 0;
      }
    }
  }

  /** Against a single-type Pokémon the combined table holds the chart's cell. */
  lemma SingleTypeDefender(allTypeNames: seq<TypeName>, cache: TypeCache, d: TypeName, a: TypeName)
    requires WellFormed(cache) && d in cache && a in cache && a in allTypeNames
    ensures AllCached(cache, [d])
    ensures a in CombinedRelations(allTypeNames, cache, [d])
    ensures CombinedRelations(allTypeNames, cache, [d])[a] == Finite(Effectiveness(cache[a], d))
  {
    SingleTypeRaw(cache, d, a);
    EffectivenessCases(cache[a], d);
    NormalizeKeepsReachable(Effectiveness(cache[a], d));
    CombinedEntry(allTypeNames, cache, [d], a);
  }

  /** The exact multiplier against one defending type is its chart cell. */
  lemma SingleTypeRaw(cache: TypeCache, d: TypeName, a: TypeName)
    requires WellFormed(cache) && d in cache && a in cache
    ensures AllCached(cache, [d])
    ensures RawMultiplier(cache, [d], a) == Effectiveness(cache[a], d)
  {
    assert [] + [d] == [d];
    assert !Immune(cache, [], a);
    RawMultiplierSnoc(cache, [], d, a);
    DefenderFactorIsChartCell(cache, a, d);
  }

  /** The products two chart values can form. */
  predicate DualValue(m: real) {
    m == 0.0 || m == 0.25 || m == 0.5 || m == 1.0 || m == 2.0 || m == 4.0
  }

  lemma ChartProduct(m1: real, m2: real)
    requires ChartValue(m1) && ChartValue(m2)
    ensures DualValue(m1 * m2)
    ensures m1 * m2 == 0.25 <==> m1 == 0.5 && m2 == 0.5
    ensures m1 * m2 == 4.0 <==> m1 == 2.0 && m2 == 2.0
  {
  }

  /** The exact multiplier against two defending types is the product of their two
      chart cells. */
  lemma DualTypeRaw(cache: TypeCache, d1: TypeName, d2: TypeName, a: TypeName)
    requires WellFormed(cache) && d1 in cache && d2 in cache && a in cache
    ensures AllCached(cache, [d1, d2])
    ensures RawMultiplier(cache, [d1, d2], a) == Effectiveness(cache[a], d1) * Effectiveness(cache[a], d2)
  {
    SingleTypeRaw(cache, d1, a);
    assert [d1] + [d2] == [d1, d2];
    RawMultiplierSnoc(cache, [d1], d2, a);
    DefenderFactorIsChartCell(cache, a, d2);
  }

  /** Against a dual-type Pokémon the combined table holds the product of the two
      chart cells, one of 0, 0.25, 0.5, 1, 2 and 4. */
  lemma DualTypeDefender(allTypeNames: seq<TypeName>, cache: TypeCache, d1: TypeName, d2: TypeName, a: TypeName)
    requires WellFormed(cache) && d1 in cache && d2 in cache && a in cache && a in allTypeNames
    ensures AllCached(cache, [d1, d2])
    ensures a in CombinedRelations(allTypeNames, cache, [d1, d2])
    ensures CombinedRelations(allTypeNames, cache, [d1, d2])[a] ==
      Finite(Effectiveness(cache[a], d1) * Effectiveness(cache[a], d2))
    ensures DualValue(Effectiveness(cache[a], d1) * Effectiveness(cache[a], d2))
  {
    DualTypeRaw(cache, d1, d2, a);
    var e1, e2 := Effectiveness(cache[a], d1), Effectiveness(cache[a], d2);
    EffectivenessCases(cache[a], d1);
    EffectivenessCases(cache[a], d2);
    ChartProduct(e1, e2);
    var raw := RawMultiplier(cache, [d1, d2], a);
    NormalizeKeepsReachable(raw);
    CombinedEntry(allTypeNames, cache, [d1, d2], a);
  }

  /** A known type whose value is the product of two chart cells is missing from
      the breakdown exactly when the product is 0.25 or 4. */
  lemma ProductTier(keys: seq<TypeName>, mult: Table, a: TypeName, e1: real, e2: real)
    requires a in keys && a in mult && mult[a] == Finite(e1 * e2) && ChartValue(e1) && ChartValue(e2)
    ensures (exists i :: 0 <= i < |TierList(keys, mult, Levels)| && a in TierList(keys, mult, Levels)[i].types) <==>
      !(e1 == 0.5 && e2 == 0.5) && !(e1 == 2.0 && e2 == 2.0)
  {
    TierPlacement(keys, mult, a);
    ChartProduct(e1, e2);
  }

  /** In the breakdown of a dual-type Pokémon a known type is missing exactly when
      it deals 0.25 or 4 times damage, that is, when both cells are 0.5 or both
      are 2. */
  lemma DualTypeBreakdown(allTypeNames: seq<TypeName>, cache: TypeCache, d1: TypeName, d2: TypeName, a: TypeName)
    requires WellFormed(cache) && d1 in cache && d2 in cache && a in cache && a in allTypeNames
    ensures AllCached(cache, [d1, d2])
    ensures var tiers := TierList(allTypeNames, CombinedRelations(allTypeNames, cache, [d1, d2]), Levels);
      (exists i :: 0 <= i < |tiers| && a in tiers[i].types) <==>
      !(Effectiveness(cache[a], d1) == 0.5 && Effectiveness(cache[a], d2) == 0.5) &&
      !(Effectiveness(cache[a], d1) == 2.0 && Effectiveness(cache[a], d2) == 2.0)
  {
    DualTypeDefender(allTypeNames, cache, d1, d2, a);
    EffectivenessCases(cache[a], d1);
    EffectivenessCases(cache[a], d2);
    ProductTier(allTypeNames, CombinedRelations(allTypeNames, cache, [d1, d2]), a,
      Effectiveness(cache[a], d1), Effectiveness(cache[a], d2));
  }

  /** A concrete table: an attacker at 4 times damage, as rock is against a
      fire/flying defender, has no tier in the breakdown. */
  lemma QuadrupleWeaknessHidden()
    ensures forall i :: 0 <= i < |TierList(["rock"], map["rock" := Finite(4.0)], Levels)| ==>
      "rock" !in TierList(["rock"], map["rock" := Finite(4.0)], Levels)[i].types
  {
    TierPlacement(["rock"], map["rock" := Finite(4.0)], "rock");
  }

  /** With the tiers 0.25 and 4 added, every known type of a dual-type Pokémon on a
      well-formed catalog is in exactly one tier, the one of its combined value. */
  lemma FullBreakdownShowsDual(allTypeNames: seq<TypeName>, cache: TypeCache, d1: TypeName, d2: TypeName, a: TypeName)
    requires WellFormed(cache) && d1 in cache && d2 in cache && a in cache && a in allTypeNames
    ensures AllCached(cache, [d1, d2])
    ensures var tiers := TierList(allTypeNames, CombinedRelations(allTypeNames, cache, [d1, d2]), AllLevels);
      exists i :: 0 <= i < |tiers| && a in tiers[i].types &&
        tiers[i].level == Effectiveness(cache[a], d1) * Effectiveness(cache[a], d2)
    ensures var tiers := TierList(allTypeNames, CombinedRelations(allTypeNames, cache, [d1, d2]), AllLevels);
      forall i, j :: 0 <= i < |tiers| && 0 <= j < |tiers| && a in tiers[i].types && a in tiers[j].types ==> i == j
  {
    DualTypeDefender(allTypeNames, cache, d1, d2, a);
    ProductFullTier(allTypeNames, CombinedRelations(allTypeNames, cache, [d1, d2]), a,
      Effectiveness(cache[a], d1) * Effectiveness(cache[a], d2));
  }

  /** A known type whose value is one of the six dual-type values is in exactly one
      tier of the full breakdown. */
  lemma ProductFullTier(keys: seq<TypeName>, mult: Table, a: TypeName, m: real)
    requires a in keys && a in mult && mult[a] == Finite(m) && DualValue(m)
    ensures exists i :: (0 <= i < |TierList(keys, mult, AllLevels)| &&
      a in TierList(keys, mult, AllLevels)[i].types && TierList(keys, mult, AllLevels)[i].level == m)
    ensures forall i, j ::
      (0 <= i < |TierList(keys, mult, AllLevels)| && 0 <= j < |TierList(keys, mult, AllLevels)| &&
       a in TierList(keys, mult, AllLevels)[i].types && a in TierList(keys, mult, AllLevels)[j].types) ==> i == j
  {
    assert Increasing(AllLevels);
    assert m in AllLevels;
    ExactlyOneTier(keys, mult, AllLevels, a);
  }
}
