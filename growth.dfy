/**
 * Applying a series of monthly percentage rates to an amount, in order. A rate
 * of `r` grows an amount by the factor (1 + r/100); the calculator and the chart
 * both apply rates this way.
 */
module Growth {

  /** `amount` after one month at rate `r` percent. */
  function Grow(amount: real, r: real): real
  {
    amount * (1.0 + r / 100.0)
  }

  /** `amount` after the rates `rs` are applied one after another, oldest first. */
  function Grown(amount: real, rs: seq<real>): real
  {
    if rs == [] then amount else Grow(Grown(amount, rs[..|rs| - 1]), rs[|rs| - 1])
  }

  /** The growth factor of a series of rates: what one unit grows to. */
  function Compound(rs: seq<real>): real
  {
    Grown(1.0, rs)
  }

  /** Applying one more rate grows the previous result by (1 + rate/100). */
  lemma GrownSnoc(amount: real, rs: seq<real>, r: real)
    ensures Grown(amount, rs + [r]) == Grow(Grown(amount, rs), r)
  {
    assert (rs + [r])[..|rs|] == rs;
  }

  /** Applying two consecutive stretches of rates is applying the second to the result of the first. */
  lemma {:induction false} GrownConcat(amount: real, a: seq<real>, b: seq<real>)
    ensures Grown(amount, a + b) == Grown(Grown(amount, a), b)
    decreases |b|
  {
    if b == [] {
      assert a + b == a;
    } else {
      var b' := b[..|b| - 1];
      var r := b[|b| - 1];
      assert a + b == (a + b') + [r];
      assert b == b' + [r];
      GrownConcat(amount, a, b');
      GrownSnoc(amount, a + b', r);
      GrownSnoc(Grown(amount, a), b', r);
    }
  }

  /** Applying rates to an amount scales the growth factor by that amount. */
  lemma {:induction false} GrownIsScaled(amount: real, rs: seq<real>)
    ensures Grown(amount, rs) == amount * Compound(rs)
  {
    if rs != [] {
      var rs' := rs[..|rs| - 1];
      GrownIsScaled(amount, rs');
      Associate(amount, Compound(rs'), 1.0 + rs[|rs| - 1] / 100.0);
    }
  }

  lemma Associate(a: real, b: real, c: real)
    ensures (a * b) * c == a * (b * c)
  {
  }

  /** The factor of two consecutive stretches is the product of their factors. */
  lemma CompoundConcat(a: seq<real>, b: seq<real>)
    ensures Compound(a + b) == Compound(a) * Compound(b)
  {
    GrownConcat(1.0, a, b);
    GrownIsScaled(Compound(a), b);
  }

  /**
   * With every rate a price increase, a positive amount never shrinks: it is at
   * least the amount, and above it once any rate applies.
   */
  lemma {:induction false} GrownGrows(amount: real, rs: seq<real>)
    requires amount > 0.0
    requires forall i :: 0 <= i < |rs| ==> rs[i] > 0.0
    ensures Grown(amount, rs) >= amount
    ensures rs != [] ==> Grown(amount, rs) > amount
  {
    if rs != [] {
      var rs' := rs[..|rs| - 1];
      GrownGrows(amount, rs');
      var g := Grown(amount, rs');
      var f := 1.0 + rs[|rs| - 1] / 100.0;
      assert f > 1.0;
      assert g * f > g * 1.0;
    }
  }
}
