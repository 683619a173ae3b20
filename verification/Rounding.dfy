/** What rounding and clamping mean, for the modules that state it. */
module Rounding {

  function Distance(x: real, y: real): real { if x <= y then y - x else x - y }

  function Thousandths(k: int): real { k as real / 1000.0 }

  /** `x` is a whole number of thousandths, the nearest one to `value`, upwards from the middle. */
  ghost predicate NearestThousandth(x: real, value: real) {
    exists k: int :: x == Thousandths(k) && Thousandths(k) - 0.0005 <= value < Thousandths(k) + 0.0005
  }

  /** `Math.round(value * 1000) / 1000` is that number. */
  lemma {:induction false} RoundedIsNearest(x: real, value: real)
    requires x == (value * 1000.0 + 0.5).Floor as real / 1000.0
    ensures NearestThousandth(x, value)
  {
    var k := (value * 1000.0 + 0.5).Floor;
    assert k as real <= value * 1000.0 + 0.5 < k as real + 1.0;
    assert x == Thousandths(k);
    assert Thousandths(k) - 0.0005 <= value < Thousandths(k) + 0.0005;
  }
}
