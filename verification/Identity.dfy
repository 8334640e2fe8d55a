/**
 Identities: a process-wide counter for rings and one counter per ring for
 requests, both starting at 1 and wrapping at their width.
 */
module Identity {
  import opened Arithmetic

  /** The value of the `n`-th draw, counting from zero. */
  function Draw(width: nat, n: nat): nat
    requires width > 0
  {
    (1 + n) % width
  }

  /** `RingId::next`'s static counter, or a `RequestIdSource`. */
  class Source {
    const width: nat
    var next: nat
    ghost var drawn: nat

    ghost predicate Valid()
      reads this
    {
      width > 1 && next == Draw(width, drawn)
    }

    constructor (width: nat)
      requires width > 1
      ensures Valid() && this.width == width && drawn == 0 && next == 1
    {
      this.width := width;
      next := 1;
      drawn := 0;
    }

    /** `fetch_add(1)`: hand out the current value and step past it, wrapping. */
    method Next() returns (id: nat)
      requires Valid()
      modifies this
      ensures Valid() && drawn == old(drawn) + 1
      ensures id == Draw(width, old(drawn)) == old(next)
    {
      id := next;
      StepWraps(width, 1 + drawn);
      next := (next + 1) % width;
      drawn := drawn + 1;
    }
  }

  lemma StepWraps(width: nat, n: nat)
    requires width > 0
    ensures (n % width + 1) % width == (n + 1) % width
  {
    var whole := n - n % width;
    assert whole == width * (n / width);
    ModUnique(whole, width, n / width, 0);
    SumMod(whole, n % width + 1, width);
  }

  lemma DrawsDiffer(width: nat, i: nat, j: nat)
    requires width > 0 && i < j < i + width
    ensures Draw(width, i) != Draw(width, j)
  {
    var p, q := (1 + i) / width, (1 + j) / width;
    if Draw(width, i) == Draw(width, j) {
      assert j - i == width * q - width * p;
      if q > p {
        MulStep(width, p, q);
      } else {
        MulMonotone(width, q, p);
      }
    }
  }

  /** The first `n` identities are all different exactly while the counter has not wrapped. */
  lemma DistinctIffNotWrapped(width: nat, n: nat)
    requires width > 0
    ensures (forall i: nat, j: nat :: i < j < n ==> Draw(width, i) != Draw(width, j)) <==> n <= width
  {
    if n <= width {
      forall i: nat, j: nat | i < j < n
        ensures Draw(width, i) != Draw(width, j)
      {
        DrawsDiffer(width, i, j);
      }
    } else {
      ModUnique(1 + width, width, 1 + 1 / width, 1 % width);
      assert Draw(width, 0) == Draw(width, width);
    }
  }
}
