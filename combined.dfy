/** The combined effectiveness table of a defending creature: for every known type,
    the multiplier an attack of that type deals to a creature of the given defending
    types. `allTypeNames` and `cachedTypes`, module-level state in the viewer, are
    parameters here. */
module Combined {
  import opened Multipliers
  import opened TypeData

  /** The `mult` dictionary: type name to multiplier. */
  type Table = map<TypeName, JsValue>

  /** Reading `mult[a]`: a key the table lacks reads as `undefined`. */
  function Entry(m: Table, a: TypeName): JsValue {
    if a in m then m[a] else Undefined
  }

  /** `mult[a] *= f`: stores the product, creating the key if it was missing. */
  function MultiplyEntry(m: Table, a: TypeName, f: real): Table {
    m[a := Times(Entry(m, a), f)]
  }

  /** The entry of every name of `names`, taken in order, multiplied by `f`. */
  function MultiplyListed(m: Table, names: seq<TypeName>, f: real): Table
    decreases |names|
  {
    if names == [] then m
    else MultiplyEntry(MultiplyListed(m, names[..|names| - 1], f), names[|names| - 1], f)
  }

  /** One pass of the loop over the defending types: doubles, then halves, then zeroes. */
  function ApplyDefender(m: Table, rel: DamageRelations): Table {
    MultiplyListed(MultiplyListed(MultiplyListed(m, rel.doubleDamageFrom, 2.0), rel.halfDamageFrom, 0.5),
                   rel.noDamageFrom, 0.0)
  }

  /** Every defending type has a cached record (`cachedTypes[def]` is defined). */
  predicate AllCached(cache: TypeCache, defenders: seq<TypeName>) {
    forall d :: d in defenders ==> d in cache
  }

  /** The loop over the defending types, in order. */
  function ApplyDefenders(m: Table, cache: TypeCache, defenders: seq<TypeName>): Table
    requires AllCached(cache, defenders)
    decreases |defenders|
  {
    if defenders == [] then m
    else ApplyDefender(ApplyDefenders(m, cache, defenders[..|defenders| - 1]), cache[defenders[|defenders| - 1]])
  }

  /** The starting table: 1 for every known type. */
  function Neutral(names: seq<TypeName>): Table {
    map t | t in names :: Finite(1.0)
  }

  /** The normalisation loop, applied to every key. */
  function NormalizeTable(m: Table): Table {
    map k | k in m :: NormalizeValue(m[k])
  }

  /** What `computeCombinedRelations(defenders)` returns. */
  function CombinedRelations(allTypeNames: seq<TypeName>, cache: TypeCache, defenders: seq<TypeName>): Table
    requires AllCached(cache, defenders)
  {
    NormalizeTable(ApplyDefenders(Neutral(allTypeNames), cache, defenders))
  }

  /** `computeCombinedRelations`: fill the table with 1, multiply in the damage-from
      lists of each defending type, then normalise every entry in place. */
  method ComputeCombinedRelations(allTypeNames: seq<TypeName>, cachedTypes: TypeCache, defenderTypes: seq<TypeName>)
    returns (mult: Table)
    requires AllCached(cachedTypes, defenderTypes)
    ensures mult == CombinedRelations(allTypeNames, cachedTypes, defenderTypes)
  {
    mult := map[];
    for i := 0 to |allTypeNames|
      invariant mult == Neutral(allTypeNames[..i])
    {
      assert allTypeNames[..i + 1] == allTypeNames[..i] + [allTypeNames[i]];
      mult := mult[allTypeNames[i] := Finite(1.0)];
    }
    assert allTypeNames[..|allTypeNames|] == allTypeNames;

    ghost var neutral := mult;
    for i := 0 to |defenderTypes|
      invariant mult == ApplyDefenders(neutral, cachedTypes, defenderTypes[..i])
    {
      assert defenderTypes[..i + 1][..i] == defenderTypes[..i];
      var rel := cachedTypes[defenderTypes[i]];
      mult := MultiplyEach(mult, rel.doubleDamageFrom, 2.0);
      mult := MultiplyEach(mult, rel.halfDamageFrom, 0.5);
      mult := MultiplyEach(mult, rel.noDamageFrom, 0.0);
    }
    assert defenderTypes[..|defenderTypes|] == defenderTypes;

    ghost var raw := mult;
    var pending := mult.Keys;
    while pending != {}
      invariant pending <= raw.Keys == mult.Keys
      invariant forall k :: k in raw && k !in pending ==> mult[k] == NormalizeValue(raw[k])
      invariant forall k :: k in pending ==> mult[k] == raw[k]
      decreases pending
    {
      var k :| k in pending;
      mult := mult[k := NormalizeValue(mult[k])];
      pending := pending - {k};
    }
  }

  /** `for (const d of names) mult[d.name] *= f` */
  method MultiplyEach(m: Table, names: seq<TypeName>, f: real) returns (mult: Table)
    ensures mult == MultiplyListed(m, names, f)
  {
    mult := m;
    for j := 0 to |names|
      invariant mult == MultiplyListed(m, names[..j], f)
    {
      assert names[..j + 1][..j] == names[..j];
      mult := mult[names[j] := Times(Entry(mult, names[j]), f)];
    }
    assert names[..|names|] == names;
  }

  // ---------------------------------------------------------------------------
  // Reference definition: the combined multiplier in closed form.

  /** The factor one defending type contributes against attacker `a`: 0 once it
      lists `a` in `no_damage_from`, otherwise 2 for each listing in
      `double_damage_from` and 0.5 for each listing in `half_damage_from`. */
  function DefenderFactor(rel: DamageRelations, a: TypeName): real {
    if a in rel.noDamageFrom then 0.0
    else Pow2(Count(rel.doubleDamageFrom, a) - Count(rel.halfDamageFrom, a))
  }

  /** Some defending type lists `a` in `no_damage_from`. */
  predicate Immune(cache: TypeCache, defenders: seq<TypeName>, a: TypeName) {
    exists d :: d in defenders && d in cache && a in cache[d].noDamageFrom
  }

  /** The net power of two over all defending types: double listings of `a` minus
      half listings of `a`. */
  function Exponent(cache: TypeCache, defenders: seq<TypeName>, a: TypeName): int
    requires AllCached(cache, defenders)
    decreases |defenders|
  {
    if defenders == [] then 0
    else
      var rel := cache[defenders[|defenders| - 1]];
      Exponent(cache, defenders[..|defenders| - 1], a) + Count(rel.doubleDamageFrom, a) - Count(rel.halfDamageFrom, a)
  }

  /** The exact combined multiplier: 0 when a defending type is immune to `a`,
      otherwise 2 to the net exponent. */
  function RawMultiplier(cache: TypeCache, defenders: seq<TypeName>, a: TypeName): real
    requires AllCached(cache, defenders)
  {
    if Immune(cache, defenders, a) then 0.0 else Pow2(Exponent(cache, defenders, a))
  }

  /** `a` occurs in one of the damage-from lists of `rel`. */
  predicate Listed(rel: DamageRelations, a: TypeName) {
    a in rel.doubleDamageFrom || a in rel.halfDamageFrom || a in rel.noDamageFrom
  }

  /** `a` occurs in a damage-from list of one of the defending types. */
  predicate ListedByAny(cache: TypeCache, defenders: seq<TypeName>, a: TypeName) {
    exists d :: d in defenders && d in cache && Listed(cache[d], a)
  }

  /** Every name in a damage-from list of a defending type is a known type name.
      `allTypeNames` leaves out `shadow` and `unknown`, so this is what keeps the
      table free of stray keys. */
  ghost predicate KnownAttackers(allTypeNames: seq<TypeName>, cache: TypeCache, defenders: seq<TypeName>) {
    forall d, a :: d in defenders && d in cache && Listed(cache[d], a) ==> a in allTypeNames
  }

  lemma AllCachedPrefix(cache: TypeCache, s: seq<TypeName>, k: nat)
    requires AllCached(cache, s) && k <= |s|
    ensures AllCached(cache, s[..k])
  {
    forall d | d in s[..k] ensures d in cache {
      var i :| 0 <= i < k && s[..k][i] == d;
      assert s[i] == d;
    }
  }

  lemma ImmuneSnoc(cache: TypeCache, p: seq<TypeName>, x: TypeName, a: TypeName)
    requires x in cache
    ensures Immune(cache, p + [x], a) <==> Immune(cache, p, a) || a in cache[x].noDamageFrom
  {
    var s := p + [x];
    if Immune(cache, p, a) {
      var d :| d in p && d in cache && a in cache[d].noDamageFrom;
      assert d in s;
    }
    if a in cache[x].noDamageFrom {
      assert x in s;
    }
    if Immune(cache, s, a) && a !in cache[x].noDamageFrom {
      var d :| d in s && d in cache && a in cache[d].noDamageFrom;
      assert d in p;
    }
  }

  /** The exact multiplier is the product, over the defending types, of each
      type's factor. */
  lemma RawMultiplierSnoc(cache: TypeCache, p: seq<TypeName>, x: TypeName, a: TypeName)
    requires AllCached(cache, p) && x in cache
    ensures AllCached(cache, p + [x])
    ensures RawMultiplier(cache, p + [x], a) == RawMultiplier(cache, p, a) * DefenderFactor(cache[x], a)
  {
    var s := p + [x];
    assert s[..|p|] == p;
    ImmuneSnoc(cache, p, x, a);
    var rel := cache[x];
    var e, d := Exponent(cache, p, a), Count(rel.doubleDamageFrom, a) - Count(rel.halfDamageFrom, a);
    assert Exponent(cache, s, a) == e + d;
    if !Immune(cache, s, a) {
      Pow2Add(e, d);
    }
  }

  // ---------------------------------------------------------------------------
  // The loop computes the reference multiplier.

  /** `n` multiplications of a table value by `f`. */
  function Scaled(x: JsValue, f: real, n: nat): JsValue {
    if n == 0 then x else Times(x, Power(f, n))
  }

  lemma ScaledStep(x: JsValue, f: real, n: nat)
    ensures Times(Scaled(x, f, n), f) == Scaled(x, f, n + 1)
  {
    assert Power(f, n + 1) == Power(f, n) * f;
    if n == 0 {
      assert Power(f, 1) == f;
    } else if x.Finite? {
      assert x.value * Power(f, n) * f == x.value * (Power(f, n) * f);
    }
  }

  lemma {:induction false} MultiplyListedEntry(m: Table, names: seq<TypeName>, f: real, a: TypeName)
    ensures a in MultiplyListed(m, names, f) <==> a in m || a in names
    ensures Entry(MultiplyListed(m, names, f), a) == Scaled(Entry(m, a), f, Count(names, a))
    decreases |names|
  {
    if names != [] {
      var p, last := names[..|names| - 1], names[|names| - 1];
      assert names == p + [last];
      MultiplyListedEntry(m, p, f, a);
      if last == a {
        ScaledStep(Entry(m, a), f, Count(p, a));
      }
    }
  }

  lemma ScaledFinite(v: real, f: real, n: nat)
    ensures Scaled(Finite(v), f, n) == Finite(v * Power(f, n))
  {
  }

  /** One defending type multiplies a number by its factor, turns `undefined` into
      `NaN` exactly when it lists the attacker, and keeps `NaN`. */
  lemma ApplyDefenderEntry(m: Table, rel: DamageRelations, a: TypeName)
    ensures a in ApplyDefender(m, rel) <==> a in m || Listed(rel, a)
    ensures Entry(m, a).Finite? ==>
      Entry(ApplyDefender(m, rel), a) == Finite(Entry(m, a).value * DefenderFactor(rel, a))
    ensures Entry(m, a).NaN? ==> Entry(ApplyDefender(m, rel), a) == NaN
    ensures Entry(m, a).Undefined? ==>
      Entry(ApplyDefender(m, rel), a) == if Listed(rel, a) then NaN else Undefined
  {
    var c1, c2, c3 := Count(rel.doubleDamageFrom, a), Count(rel.halfDamageFrom, a), Count(rel.noDamageFrom, a);
    var m1 := MultiplyListed(m, rel.doubleDamageFrom, 2.0);
    var m2 := MultiplyListed(m1, rel.halfDamageFrom, 0.5);
    MultiplyListedEntry(m, rel.doubleDamageFrom, 2.0, a);
    MultiplyListedEntry(m1, rel.halfDamageFrom, 0.5, a);
    MultiplyListedEntry(m2, rel.noDamageFrom, 0.0, a);
    CountPositive(rel.doubleDamageFrom, a);
    CountPositive(rel.halfDamageFrom, a);
    CountPositive(rel.noDamageFrom, a);
    if Entry(m, a).Finite? {
      var v := Entry(m, a).value;
      ScaledFinite(v, 2.0, c1);
      ScaledFinite(v * Power(2.0, c1), 0.5, c2);
      ScaledFinite(v * Power(2.0, c1) * Power(0.5, c2), 0.0, c3);
      FactorProduct(v, c1, c2, c3);
    }
  }

  /** Multiplying by 2 `c1` times, by 0.5 `c2` times and by 0 `c3` times. */
  lemma FactorProduct(v: real, c1: nat, c2: nat, c3: nat)
    ensures v * Power(2.0, c1) * Power(0.5, c2) * Power(0.0, c3) ==
      v * (if c3 > 0 then 0.0 else Pow2(c1 - c2))
  {
    var p1, p2 := Power(2.0, c1), Power(0.5, c2);
    if c3 > 0 {
      PowerOfZero(c3);
    } else {
      PowerOfTwo(c1);
      PowerOfHalf(c2);
      Pow2Add(c1, -(c2 as int));
      assert v * p1 * p2 == v * (p1 * p2);
    }
  }

  /** Starting from the neutral table, the loop over the defending types leaves the
      exact multiplier on every known type, `NaN` on every other listed name, and
      no other key. */
  lemma {:induction false} ApplyDefendersEntry(names: seq<TypeName>, cache: TypeCache, defenders: seq<TypeName>, a: TypeName)
    requires AllCached(cache, defenders)
    ensures a in ApplyDefenders(Neutral(names), cache, defenders) <==> a in names || ListedByAny(cache, defenders, a)
    ensures Entry(ApplyDefenders(Neutral(names), cache, defenders), a) ==
      if a in names then Finite(RawMultiplier(cache, defenders, a))
      else if ListedByAny(cache, defenders, a) then NaN
      else Undefined
    decreases |defenders|
  {
    if defenders == [] {
      assert !Immune(cache, defenders, a);
    } else {
      var p, last := defenders[..|defenders| - 1], defenders[|defenders| - 1];
      assert defenders == p + [last];
      AllCachedPrefix(cache, defenders, |defenders| - 1);
      ApplyDefendersEntry(names, cache, p, a);
      ApplyDefenderEntry(ApplyDefenders(Neutral(names), cache, p), cache[last], a);
      ListedByAnySnoc(cache, p, last, a);
      RawMultiplierSnoc(cache, p, last, a);
    }
  }

  lemma ListedByAnySnoc(cache: TypeCache, p: seq<TypeName>, last: TypeName, a: TypeName)
    requires last in cache
    ensures ListedByAny(cache, p + [last], a) <==> ListedByAny(cache, p, a) || Listed(cache[last], a)
  {
    var s := p + [last];
    if ListedByAny(cache, p, a) {
      var d :| d in p && d in cache && Listed(cache[d], a);
      assert d in s;
    }
    if Listed(cache[last], a) {
      assert last in s;
    }
    if ListedByAny(cache, s, a) && !Listed(cache[last], a) {
      var d :| d in s && d in cache && Listed(cache[d], a);
      assert d in p;
    }
  }

  /** Each entry of the combined table: the normalised exact multiplier for a known
      type, `NaN` for any other name a defending type lists, and no key otherwise. */
  lemma CombinedEntry(allTypeNames: seq<TypeName>, cache: TypeCache, defenders: seq<TypeName>, a: TypeName)
    requires AllCached(cache, defenders)
    ensures a in CombinedRelations(allTypeNames, cache, defenders) <==> a in allTypeNames || ListedByAny(cache, defenders, a)
    ensures Entry(CombinedRelations(allTypeNames, cache, defenders), a) ==
      if a in allTypeNames then Finite(Normalize(RawMultiplier(cache, defenders, a)))
      else if ListedByAny(cache, defenders, a) then NaN
      else Undefined
  {
    ApplyDefendersEntry(allTypeNames, cache, defenders, a);
  }

  // ---------------------------------------------------------------------------
  // Properties of the combined table.

  /** The keys of the table are the known types plus every listed name; a listed
      name outside `allTypeNames` gets a key holding `NaN`. */
  lemma CombinedKeys(allTypeNames: seq<TypeName>, cache: TypeCache, defenders: seq<TypeName>)
    requires AllCached(cache, defenders)
    ensures forall a :: a in CombinedRelations(allTypeNames, cache, defenders) <==>
      a in allTypeNames || ListedByAny(cache, defenders, a)
    ensures forall a :: a in CombinedRelations(allTypeNames, cache, defenders) && a !in allTypeNames ==>
      CombinedRelations(allTypeNames, cache, defenders)[a] == NaN
  {
    forall a
      ensures a in CombinedRelations(allTypeNames, cache, defenders) <==> a in allTypeNames || ListedByAny(cache, defenders, a)
      ensures a in CombinedRelations(allTypeNames, cache, defenders) && a !in allTypeNames ==>
        CombinedRelations(allTypeNames, cache, defenders)[a] == NaN
    {
      CombinedEntry(allTypeNames, cache, defenders, a);
    }
  }

  /** When every listed attacker is a known type, the table is total over exactly the
      known types and holds a number for each. */
  lemma CombinedTotal(allTypeNames: seq<TypeName>, cache: TypeCache, defenders: seq<TypeName>)
    requires AllCached(cache, defenders)
    requires KnownAttackers(allTypeNames, cache, defenders)
    ensures forall a :: a in CombinedRelations(allTypeNames, cache, defenders) <==> a in allTypeNames
    ensures forall a :: a in allTypeNames ==> CombinedRelations(allTypeNames, cache, defenders)[a].Finite?
  {
    forall a
      ensures a in CombinedRelations(allTypeNames, cache, defenders) <==> a in allTypeNames
      ensures a in allTypeNames ==> CombinedRelations(allTypeNames, cache, defenders)[a].Finite?
    {
      CombinedEntry(allTypeNames, cache, defenders, a);
      if ListedByAny(cache, defenders, a) {
        var d :| d in defenders && d in cache && Listed(cache[d], a);
      }
    }
  }

  lemma {:induction false} ExponentUnlisted(cache: TypeCache, defenders: seq<TypeName>, a: TypeName)
    requires AllCached(cache, defenders)
    requires !ListedByAny(cache, defenders, a)
    ensures Exponent(cache, defenders, a) == 0
    decreases |defenders|
  {
    if defenders != [] {
      var p, last := defenders[..|defenders| - 1], defenders[|defenders| - 1];
      assert defenders == p + [last];
      AllCachedPrefix(cache, defenders, |defenders| - 1);
      ListedByAnySnoc(cache, p, last, a);
      CountPositive(cache[last].doubleDamageFrom, a);
      CountPositive(cache[last].halfDamageFrom, a);
      ExponentUnlisted(cache, p, a);
    }
  }

  /** A known attacker that no defending type lists keeps multiplier 1. */
  lemma UnlistedStaysNeutral(allTypeNames: seq<TypeName>, cache: TypeCache, defenders: seq<TypeName>, a: TypeName)
    requires AllCached(cache, defenders)
    requires a in allTypeNames && !ListedByAny(cache, defenders, a)
    ensures a in CombinedRelations(allTypeNames, cache, defenders)
    ensures CombinedRelations(allTypeNames, cache, defenders)[a] == Finite(1.0)
  {
    CombinedEntry(allTypeNames, cache, defenders, a);
    ExponentUnlisted(cache, defenders, a);
    NormalizeKeepsReachable(1.0);
  }

  /** One defending type immune to attacker `a` makes the combined multiplier 0,
      whatever the other types say. */
  lemma ImmunityWins(allTypeNames: seq<TypeName>, cache: TypeCache, defenders: seq<TypeName>, d: TypeName, a: TypeName)
    requires AllCached(cache, defenders)
    requires a in allTypeNames && d in defenders && a in cache[d].noDamageFrom
    ensures a in CombinedRelations(allTypeNames, cache, defenders)
    ensures CombinedRelations(allTypeNames, cache, defenders)[a] == Finite(0.0)
  {
    CombinedEntry(allTypeNames, cache, defenders, a);
    assert Immune(cache, defenders, a);
  }

  lemma {:induction false} ExponentRemove(cache: TypeCache, t: seq<TypeName>, i: nat, a: TypeName)
    requires AllCached(cache, t) && i < |t|
    ensures AllCached(cache, t[..i] + t[i + 1..])
    ensures Exponent(cache, t, a) ==
      Exponent(cache, t[..i] + t[i + 1..], a) + Count(cache[t[i]].doubleDamageFrom, a) - Count(cache[t[i]].halfDamageFrom, a)
    decreases |t|
  {
    var n := |t|;
    var p := t[..n - 1];
    AllCachedPrefix(cache, t, n - 1);
    assert forall d :: d in t[..i] + t[i + 1..] ==> d in t;
    if i == n - 1 {
      assert t[..i] + t[i + 1..] == p;
    } else {
      var q := p[..i] + p[i + 1..];
      ExponentRemove(cache, p, i, a);
      var rest := t[..i] + t[i + 1..];
      assert rest == q + [t[n - 1]];
      assert rest[..|rest| - 1] == q;
    }
  }

  lemma {:induction false} ExponentPermutation(cache: TypeCache, s: seq<TypeName>, t: seq<TypeName>, a: TypeName)
    requires AllCached(cache, s) && AllCached(cache, t) && multiset(s) == multiset(t)
    ensures Exponent(cache, s, a) == Exponent(cache, t, a)
    decreases |s|
  {
    if s == [] {
      assert |t| == |multiset(t)| == 0;
    } else {
      var p, x := s[..|s| - 1], s[|s| - 1];
      assert s == p + [x];
      AllCachedPrefix(cache, s, |s| - 1);
      assert x in multiset(t);
      var i :| 0 <= i < |t| && t[i] == x;
      var rest := t[..i] + t[i + 1..];
      MultisetRemoveAt(t, i);
      MultisetRemoveAt(s, |s| - 1);
      assert s[..|s| - 1] + s[|s|..] == p;
      ExponentRemove(cache, t, i, a);
      ExponentPermutation(cache, p, rest, a);
    }
  }

  /** The table does not depend on the order of the defending types. */
  lemma CombinedOrderIndependent(allTypeNames: seq<TypeName>, cache: TypeCache, s: seq<TypeName>, t: seq<TypeName>)
    requires AllCached(cache, s) && AllCached(cache, t) && multiset(s) == multiset(t)
    ensures CombinedRelations(allTypeNames, cache, s) == CombinedRelations(allTypeNames, cache, t)
  {
    var left, right := CombinedRelations(allTypeNames, cache, s), CombinedRelations(allTypeNames, cache, t);
    forall d ensures d in s <==> d in t {
      assert d in s <==> d in multiset(s);
      assert d in t <==> d in multiset(t);
    }
    forall a
      ensures a in left <==> a in right
      ensures a in left ==> left[a] == right[a]
    {
      CombinedEntry(allTypeNames, cache, s, a);
      CombinedEntry(allTypeNames, cache, t, a);
      ExponentPermutation(cache, s, t, a);
      assert ListedByAny(cache, s, a) <==> ListedByAny(cache, t, a);
      assert Immune(cache, s, a) <==> Immune(cache, t, a);
    }
    assert left.Keys == right.Keys;
  }
}
