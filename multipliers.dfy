/** Damage multipliers as the combined-effectiveness table holds them: JavaScript
    numbers, taken here as exact reals, together with the two non-numeric values
    that can reach the table. */
module Multipliers {

  /** A value read from, or stored in, the combined table. Reading a key that the
      table does not hold gives `undefined`; multiplying `undefined` by a number
      gives `NaN`, and `NaN` stays `NaN` under multiplication. */
  datatype JsValue = Undefined | NaN | Finite(value: real)

  function Abs(x: real): real {
    if x < 0.0 then -x else x
  }

  /** `x * f` for a table value `x` and a numeric factor `f`. */
  function Times(x: JsValue, f: real): (r: JsValue)
    ensures r.Finite? <==> x.Finite?
  {
    match x
    case Finite(v) => Finite(v * f)
    case _ => NaN
  }

  /** `Number(v.toFixed(2))`. Below 10^21, toFixed picks the integer n closest to
      |v| * 100, the larger one on a tie, and puts the sign back; from 10^21 on it
      falls back to the plain conversion, which reads back as `v` itself. */
  function ToFixed2(v: real): real {
    if Abs(v) >= 1000000000000000000000.0 then v
    else
      var n := (Abs(v) * 100.0 + 0.5).Floor;
      if v < 0.0 then -(n as real) / 100.0 else n as real / 100.0
  }

  /** The normalisation step of the combined table: snap to 0, 0.5, 2 or 1 (in that
      order of tests) when within 0.001 of it, otherwise keep two decimals. */
  function Normalize(v: real): real {
    if Abs(v) < 0.001 then 0.0
    else if Abs(v - 0.5) < 0.001 then 0.5
    else if Abs(v - 2.0) < 0.001 then 2.0
    else if Abs(v - 1.0) < 0.001 then 1.0
    else ToFixed2(v)
  }

  /** Normalisation of one table value: `Math.abs(NaN) < 0.001` is false and
      `Number(NaN.toFixed(2))` is `NaN`, so `NaN` is kept. The table never stores
      `undefined`; that case is kept as it is. */
  function NormalizeValue(x: JsValue): JsValue {
    match x
    case Finite(v) => Finite(Normalize(v))
    case _ => x
  }

  /** The products one or two defending types produce pass through the
      normalisation unchanged; 0.25 and 4 get there through the toFixed(2) branch. */
  lemma NormalizeKeepsReachable(v: real)
    requires v == 0.0 || v == 0.25 || v == 0.5 || v == 1.0 || v == 2.0 || v == 4.0
    ensures Normalize(v) == v
  {
    if v == 0.25 {
      assert (0.25 * 100.0 + 0.5).Floor == 25;
    } else if v == 4.0 {
      assert (4.0 * 100.0 + 0.5).Floor == 400;
    }
  }

  /** Every whole number of hundredths is left alone by the normalisation. */
  lemma NormalizeKeepsHundredths(k: int)
    ensures Normalize(k as real / 100.0) == k as real / 100.0
  {
    var r := k as real / 100.0;
    if Abs(r) < 0.001 {
      assert k == 0;
    } else if Abs(r - 0.5) < 0.001 {
      assert k == 50;
    } else if Abs(r - 2.0) < 0.001 {
      assert k == 200;
    } else if Abs(r - 1.0) < 0.001 {
      assert k == 100;
    } else if Abs(r) < 1000000000000000000000.0 {
      var m := if k < 0 then -k else k;
      assert Abs(r) * 100.0 + 0.5 == m as real + 0.5;
      assert (Abs(r) * 100.0 + 0.5).Floor == m;
    }
  }

  /** Normalising never moves a value by more than half a hundredth. */
  lemma NormalizeIsClose(v: real)
    ensures Abs(Normalize(v) - v) <= 0.005
  {
    if Abs(v) >= 0.001 && Abs(v - 0.5) >= 0.001 && Abs(v - 2.0) >= 0.001 && Abs(v - 1.0) >= 0.001
       && Abs(v) < 1000000000000000000000.0
    {
      var x := Abs(v) * 100.0 + 0.5;
      var n := x.Floor;
      assert n as real <= x < n as real + 1.0;
    }
  }

  /** Normalising a second time changes nothing. */
  lemma NormalizeIdempotent(v: real)
    ensures Normalize(Normalize(v)) == Normalize(v)
  {
    if Abs(v) < 0.001 || Abs(v - 0.5) < 0.001 || Abs(v - 2.0) < 0.001 || Abs(v - 1.0) < 0.001 {
      NormalizeKeepsReachable(Normalize(v));
    } else if Abs(v) < 1000000000000000000000.0 {
      var n := (Abs(v) * 100.0 + 0.5).Floor;
      var k := if v < 0.0 then -n else n;
      assert Normalize(v) == k as real / 100.0;
      NormalizeKeepsHundredths(k);
    }
  }

  // ---------------------------------------------------------------------------
  // Powers. Every multiplier the table can hold before normalisation is 0 or a
  // power of two.

  function Power(b: real, n: nat): real {
    if n == 0 then 1.0 else Power(b, n - 1) * b
  }

  /** 2 to the power `e`, for any integer `e`. */
  function Pow2(e: int): real
    decreases if e < 0 then -e else e
  {
    if e == 0 then 1.0 else if e > 0 then 2.0 * Pow2(e - 1) else Pow2(e + 1) / 2.0
  }

  lemma Pow2Succ(e: int)
    ensures Pow2(e + 1) == 2.0 * Pow2(e)
  {
  }

  lemma {:induction false} Pow2Positive(e: int)
    ensures Pow2(e) > 0.0
    decreases if e < 0 then -e else e
  {
    if e > 0 {
      Pow2Positive(e - 1);
    } else if e < 0 {
      Pow2Positive(e + 1);
    }
  }

  lemma {:induction false} Pow2AddUp(x: int, y: nat)
    ensures Pow2(x + y) == Pow2(x) * Pow2(y)
  {
    if y > 0 {
      Pow2AddUp(x, y - 1);
      Pow2Succ(x + y - 1);
      Pow2Succ(y - 1);
      assert Pow2(x) * Pow2(y) == 2.0 * (Pow2(x) * Pow2(y - 1));
    }
  }

  lemma {:induction false} Pow2AddDown(x: int, y: nat)
    ensures Pow2(x - y) == Pow2(x) * Pow2(-(y as int))
  {
    if y > 0 {
      Pow2AddDown(x, y - 1);
      Pow2Succ(x - y);
      Pow2Succ(-(y as int));
      assert Pow2(x) * Pow2(-(y as int) + 1) == 2.0 * (Pow2(x) * Pow2(-(y as int)));
    }
  }

  /** Powers of two multiply by adding exponents. */
  lemma Pow2Add(x: int, y: int)
    ensures Pow2(x + y) == Pow2(x) * Pow2(y)
  {
    if y >= 0 {
      Pow2AddUp(x, y);
    } else {
      Pow2AddDown(x, -y);
    }
  }

  lemma {:induction false} PowerOfTwo(n: nat)
    ensures Power(2.0, n) == Pow2(n)
  {
    if n > 0 {
      PowerOfTwo(n - 1);
      Pow2Succ(n - 1);
    }
  }

  lemma {:induction false} PowerOfHalf(n: nat)
    ensures Power(0.5, n) == Pow2(-(n as int))
  {
    if n > 0 {
      PowerOfHalf(n - 1);
      Pow2Succ(-(n as int));
    }
  }

  lemma PowerOfZero(n: nat)
    requires n > 0
    ensures Power(0.0, n) == 0.0
  {
  }
}
