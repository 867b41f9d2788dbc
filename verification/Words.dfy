/** Arithmetic modulo 2^64, as unsigned machine words do it. */
module Words {
  import opened Common

  // Reducing modulo 2^64 at every step is reducing once.
  lemma ReduceStep(x: int, k: int, c: int)
    ensures (x % U64 * k + c) % U64 == (x * k + c) % U64
  {
    var q := x / U64;
    var r := x % U64;
    assert x == q * U64 + r;
    assert x * k + c == r * k + c + (q * k) * U64 by {
      assert (q * U64 + r) * k == q * k * U64 + r * k by { Distribute(q, r, k); }
    }
    AddRounds(r * k + c, q * k);
  }

  lemma Distribute(q: int, r: int, k: int)
    ensures (q * U64 + r) * k == q * k * U64 + r * k
  {
  }

  lemma {:induction false} AddRounds(a: int, k: int)
    ensures (a + k * U64) % U64 == a % U64
    decreases if k >= 0 then k else -k
  {
    if k > 0 {
      AddRounds(a, k - 1);
      AddRound(a + (k - 1) * U64);
    } else if k < 0 {
      AddRounds(a, k + 1);
      AddRound(a + k * U64);
    }
  }

  lemma AddRound(a: int)
    ensures (a + U64) % U64 == a % U64
  {
  }
}
