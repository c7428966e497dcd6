/** Loops that advance by a fixed step, which need not be whole. */
module Rounds {
  /** A loop variable that starts at zero, after some rounds. */
  function At(step: real, rounds: nat): real {
    if rounds == 0 then 0.0 else At(step, rounds - 1) + step
  }

  lemma AtZero(step: real)
    ensures At(step, 0) == 0.0
  {
  }

  lemma {:induction false} AtIs(step: real, rounds: nat)
    ensures At(step, rounds) == rounds as real * step
  {
    if rounds > 0 {
      AtIs(step, rounds - 1);
      assert rounds as real * step == (rounds - 1) as real * step + step;
    }
  }

  lemma {:induction false} AtMonotone(step: real, j: nat, k: nat)
    requires step >= 0.0
    ensures j <= k ==> At(step, j) <= At(step, k)
  {
    if j < k { AtMonotone(step, j, k - 1); }
  }

  lemma {:induction false} AtNegative(step: real, rounds: nat)
    requires step <= 0.0
    ensures At(step, rounds) <= 0.0
  {
    if rounds > 0 { AtNegative(step, rounds - 1); }
  }

  lemma ScaleUp(x: real, y: real, z: real)
    requires x <= y && z >= 0.0
    ensures x * z <= y * z
  {
    assert (y - x) * z >= 0.0;
  }

  lemma EnoughRounds(step: real, n: nat) returns (rounds: nat)
    requires step > 0.0
    ensures At(step, rounds) >= n as real
  {
    var q := n as real / step;
    rounds := q.Floor + 1;
    ScaleUp(q, rounds as real, step);
    AtIs(step, rounds);
  }
}
