/** Counting the iterations of a loop driven by an elapsed-time counter.

    Both `for _ in range(0, stop, step)` and
    `t = 0; while t < stop: ...; t += step` run their body once for each
    `k >= 0` with `k * step < stop`. */
module Ranges {

  /** The `k`-th iteration (counting from 0) of the loop still runs. */
  predicate Runs(k: nat, step: nat, stop: int) {
    k * step < stop
  }

  /** `len(range(0, stop, step))`: ceil(stop / step) for a positive stop, else 0. */
  function RangeLength(stop: int, step: nat): (n: nat)
    requires step > 0
    ensures forall k: nat :: Runs(k, step, stop) <==> k < n
  {
    if stop <= 0 then 0
    else
      var n := (stop - 1) / step + 1;
      forall k: nat ensures Runs(k, step, stop) <==> k < n {
        RunsBelow(k, step, stop);
      }
      n
  }

  lemma RunsBelow(k: nat, step: nat, stop: int)
    requires step > 0 && stop > 0
    ensures Runs(k, step, stop) <==> k < (stop - 1) / step + 1
  {
    var q := (stop - 1) / step;
    assert stop - 1 == q * step + (stop - 1) % step;
    if k <= q {
      assert k * step <= q * step by { MulMono(k, q, step); }
    } else {
      assert (q + 1) * step <= k * step by { MulMono(q + 1, k, step); }
    }
  }

  lemma MulMono(a: nat, b: nat, c: nat)
    requires a <= b
    ensures a * c <= b * c
  {
  }
}
