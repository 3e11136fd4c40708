/** The attacker-by-defender chart: one cell per pair of known types, holding the
    single-type multiplier the attacker deals and the CSS class that colours it. */
module TypeChart {
  import opened TypeData

  /** The multiplier attacker `rel` deals to defender `def`. The source tests the
      double, half and no-damage lists in that order, each overriding the last, so
      no-damage wins over half-damage, which wins over double-damage. */
  function Effectiveness(rel: DamageRelations, def: TypeName): (m: real)
    ensures m == 0.0 || m == 0.5 || m == 1.0 || m == 2.0
  {
    if def in rel.noDamageTo then 0.0
    else if def in rel.halfDamageTo then 0.5
    else if def in rel.doubleDamageTo then 2.0
    else 1.0
  }

  /** The four multipliers a chart cell can show. */
  predicate ChartValue(m: real) {
    m == 0.0 || m == 0.5 || m == 1.0 || m == 2.0
  }

  /** Each multiplier, spelled out as the lists that produce it. */
  lemma EffectivenessCases(rel: DamageRelations, def: TypeName)
    ensures ChartValue(Effectiveness(rel, def))
    ensures Effectiveness(rel, def) == 0.0 <==> def in rel.noDamageTo
    ensures Effectiveness(rel, def) == 0.5 <==> def !in rel.noDamageTo && def in rel.halfDamageTo
    ensures Effectiveness(rel, def) == 2.0 <==>
      def !in rel.noDamageTo && def !in rel.halfDamageTo && def in rel.doubleDamageTo
    ensures Effectiveness(rel, def) == 1.0 <==>
      def !in rel.noDamageTo && def !in rel.halfDamageTo && def !in rel.doubleDamageTo
  {
  }

  /** The cell's `let mult` and the three overriding tests. */
  method CellMultiplier(rel: DamageRelations, def: TypeName) returns (mult: real)
    ensures mult == Effectiveness(rel, def)
  {
    mult := 1.0;
    if def in rel.doubleDamageTo {
      mult := 2.0;
    }
    if def in rel.halfDamageTo {
      mult := 0.5;
    }
    if def in rel.noDamageTo {
      mult := 0.0;
    }
  }

  /** The CSS class of a cell: `mult-2`, `mult-05`, `mult-0`, and `mult-1` for
      everything else. */
  function CellClass(mult: real): (cls: string)
    ensures cls == "mult-2" || cls == "mult-05" || cls == "mult-0" || cls == "mult-1"
    ensures cls == "mult-1" <==> mult != 2.0 && mult != 0.5 && mult != 0.0
  {
    if mult == 2.0 then "mult-2"
    else if mult == 0.5 then "mult-05"
    else if mult == 0.0 then "mult-0"
    else "mult-1"
  }

  /** The multiplier a class stands for in the chart's legend. */
  function ClassMultiplier(cls: string): real {
    if cls == "mult-2" then 2.0
    else if cls == "mult-05" then 0.5
    else if cls == "mult-0" then 0.0
    else 1.0
  }

  /** On the four chart values the class names its multiplier, so no two chart
      values share a colour. */
  lemma ClassRoundTrip(m: real)
    requires ChartValue(m)
    ensures ClassMultiplier(CellClass(m)) == m
  {
  }

  lemma ClassDistinguishes(m1: real, m2: real)
    requires ChartValue(m1) && ChartValue(m2) && CellClass(m1) == CellClass(m2)
    ensures m1 == m2
  {
    ClassRoundTrip(m1);
    ClassRoundTrip(m2);
  }

  datatype Cell = Cell(mult: real, cls: string)

  /** The cell for attacker `rel` against defender `def`. */
  function ChartCell(rel: DamageRelations, def: TypeName): Cell {
    Cell(Effectiveness(rel, def), CellClass(Effectiveness(rel, def)))
  }

  /** `allTypeNames.map(def => ...)`: one attacker's row. */
  method ChartRow(rel: DamageRelations, allTypeNames: seq<TypeName>) returns (row: seq<Cell>)
    ensures |row| == |allTypeNames|
    ensures forall j :: 0 <= j < |row| ==> row[j] == ChartCell(rel, allTypeNames[j])
  {
    row := [];
    for j := 0 to |allTypeNames|
      invariant |row| == j
      invariant forall k :: 0 <= k < j ==> row[k] == ChartCell(rel, allTypeNames[k])
    {
      var mult := CellMultiplier(rel, allTypeNames[j]);
      row := row + [Cell(mult, CellClass(mult))];
    }
  }

  /** The body of the chart: one row per attacker, in `allTypeNames` order. Every
      known type has a cached record once the lazy fetch has run. */
  method BuildChart(allTypeNames: seq<TypeName>, cachedTypes: TypeCache) returns (rows: seq<seq<Cell>>)
    requires forall n :: n in allTypeNames ==> n in cachedTypes
    ensures |rows| == |allTypeNames|
    ensures forall i :: 0 <= i < |rows| ==> |rows[i]| == |allTypeNames|
    ensures forall i, j :: 0 <= i < |rows| && 0 <= j < |rows[i]| ==>
      rows[i][j] == ChartCell(cachedTypes[allTypeNames[i]], allTypeNames[j])
  {
    rows := [];
    for i := 0 to |allTypeNames|
      invariant |rows| == i
      invariant forall k :: 0 <= k < i ==> |rows[k]| == |allTypeNames|
      invariant forall k, j :: 0 <= k < i && 0 <= j < |rows[k]| ==>
        rows[k][j] == ChartCell(cachedTypes[allTypeNames[k]], allTypeNames[j])
    {
      var row := ChartRow(cachedTypes[allTypeNames[i]], allTypeNames);
      rows := rows + [row];
    }
  }

  /** Every cell of the chart shows one of the four chart values, coloured by its
      own class. */
  lemma ChartCellShows(rel: DamageRelations, def: TypeName)
    ensures ChartValue(ChartCell(rel, def).mult)
    ensures ClassMultiplier(ChartCell(rel, def).cls) == ChartCell(rel, def).mult
  {
    EffectivenessCases(rel, def);
    ClassRoundTrip(Effectiveness(rel, def));
  }
}
