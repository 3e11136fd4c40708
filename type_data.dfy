/** The type records the viewer caches at start-up: each type's damage relations,
    reduced to the names they list, and the counting helpers the model needs. */
module TypeData {

  type TypeName = string

  /** The `damage_relations` record of one type. The `*From` lists name the
      attacking types that deal double, half or no damage to this type; the `*To`
      lists name the defending types this type deals double, half or no damage to. */
  datatype DamageRelations = DamageRelations(
    doubleDamageFrom: seq<TypeName>,
    halfDamageFrom: seq<TypeName>,
    noDamageFrom: seq<TypeName>,
    doubleDamageTo: seq<TypeName>,
    halfDamageTo: seq<TypeName>,
    noDamageTo: seq<TypeName>)

  /** `cachedTypes`: type name to that type's damage relations. */
  type TypeCache = map<TypeName, DamageRelations>

  /** How often `a` occurs in `s`. */
  function Count(s: seq<TypeName>, a: TypeName): nat
    decreases |s|
  {
    if s == [] then 0
    else Count(s[..|s| - 1], a) + (if s[|s| - 1] == a then 1 else 0)
  }

  predicate NoDuplicates(s: seq<TypeName>) {
    forall i, j :: 0 <= i < j < |s| ==> s[i] != s[j]
  }

  /** A name occurs in a list exactly when it is counted there at least once. */
  lemma {:induction false} CountPositive(s: seq<TypeName>, a: TypeName)
    ensures Count(s, a) > 0 <==> a in s
    decreases |s|
  {
    if s != [] {
      var p := s[..|s| - 1];
      CountPositive(p, a);
      assert s == p + [s[|s| - 1]];
    }
  }

  /** In a list without duplicates every name is counted at most once. */
  lemma {:induction false} CountAtMostOne(s: seq<TypeName>, a: TypeName)
    requires NoDuplicates(s)
    ensures Count(s, a) <= 1
    decreases |s|
  {
    if s != [] {
      var p := s[..|s| - 1];
      assert NoDuplicates(p);
      CountAtMostOne(p, a);
      if s[|s| - 1] == a {
        CountPositive(p, a);
        assert a !in p;
      }
    }
  }

  /** Taking out the element at `i` takes one copy of it out of the multiset. */
  lemma MultisetRemoveAt(t: seq<TypeName>, i: nat)
    requires i < |t|
    ensures multiset(t[..i] + t[i + 1..]) == multiset(t) - multiset{t[i]}
  {
    assert t == t[..i] + [t[i]] + t[i + 1..];
  }
}
