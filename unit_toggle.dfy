/**
 * The toggle between the units a product can be displayed in. Its index is kept
 * on a page element's "data-index" attribute, so that the choice survives the
 * toggle being rebuilt.
 */
module UnitToggles {
  import opened Wrappers

  /** JavaScript's `%` on integers: the remainder takes the sign of the dividend. */
  function JsRem(a: int, n: int): (r: int)
    requires n > 0
    ensures -n < r < n
    ensures (a - r) % n == 0
    ensures a >= 0 ==> r == a % n
    ensures a >= 0 ==> r >= 0
    ensures a <= 0 ==> r <= 0
    ensures -n < a <= 0 ==> r == a
  {
    RemainderFacts(a, n);
    if a >= 0 then a % n else -((-a) % n)
  }

  /**
   * The Euclidean facts behind `JsRem`: a number minus its remainder is a
   * multiple of the divisor, and a number below the divisor is its own remainder.
   */
  lemma RemainderFacts(a: int, n: int)
    requires n > 0
    ensures (a - a % n) % n == 0
    ensures (a + (-a) % n) % n == 0
    ensures -n < a <= 0 ==> (-a) % n == -a
  {
    var q := a / n;
    assert a - a % n == n * q;
    MultipleRem(q, n);
    var q' := (-a) / n;
    assert a + (-a) % n == n * -q';
    MultipleRem(-q', n);
    if -n < a <= 0 {
      DivModUnique(-a, n, 0, -a);
    }
  }

  /** A multiple of the divisor leaves no remainder. */
  lemma MultipleRem(q: int, n: int)
    requires n > 0
    ensures (n * q) % n == 0
  {
    DivModUnique(n * q, n, q, 0);
  }

  /** The index reached from i after n calls of next. */
  function Rotated(i: int, n: nat, size: nat): (r: int)
    requires size > 0
    ensures -(size as int) < i < size ==> -(size as int) < r < size
    ensures 0 <= i ==> 0 <= r
  {
    if n == 0 then i else JsRem(Rotated(i, n - 1, size) + 1, size)
  }

  /** Euclidean division is unique: a quotient and a remainder in range are a / m and a % m. */
  lemma DivModUnique(a: int, m: int, q: int, r: int)
    requires m > 0 && 0 <= r < m && a == m * q + r
    ensures a / m == q && a % m == r
  {
    var q0, r0 := a / m, a % m;
    assert a == m * q0 + r0;
    if q0 < q {
      assert m * q - m * q0 == m * (q - q0);
      MulAtLeast(m, q - q0);
    } else if q < q0 {
      assert m * q0 - m * q == m * (q0 - q);
      MulAtLeast(m, q0 - q);
    }
  }

  lemma MulAtLeast(m: int, d: int)
    requires m > 0 && d >= 1
    ensures m * d >= m
  {
    assert m * d == m + m * (d - 1);
  }

  /** Adding one to a remainder: it either moves up by one or wraps to zero. */
  lemma RemSucc(t: nat, m: int)
    requires m > 0
    ensures (t + 1) % m == if t % m + 1 < m then t % m + 1 else 0
  {
    var q, r := t / m, t % m;
    if r + 1 < m {
      DivModUnique(t + 1, m, q, r + 1);
    } else {
      assert t + 1 == m * (q + 1) + 0;
      DivModUnique(t + 1, m, q + 1, 0);
    }
  }

  /** From a valid index, n calls of next move n places round the units. */
  lemma {:induction false} RotatedIsSum(i: int, n: nat, size: nat)
    requires size > 0 && 0 <= i < size
    ensures Rotated(i, n, size) == (i + n) % size
  {
    if n > 0 {
      RotatedIsSum(i, n - 1, size);
      var j := Rotated(i, n - 1, size);
      assert j == (i + n - 1) % size && 0 <= j < size;
      assert Rotated(i, n, size) == JsRem(j + 1, size) == (j + 1) % size;
      RemSucc(i + n - 1, size);
      if j + 1 < size {
        DivModUnique(j + 1, size, 0, j + 1);
      } else {
        DivModUnique(j + 1, size, 1, 0);
      }
    }
  }

  /** Calling next once per unit comes back to the unit it started on. */
  lemma FullCycle(i: int, size: nat)
    requires size > 0 && 0 <= i < size
    ensures Rotated(i, size, size) == i
  {
    RotatedIsSum(i, size, size);
    DivModUnique(i + size, size, 1, i);
  }

  /**
   * A negative index, which only a negative stored attribute can give, counts up
   * by one per call of next until it reaches the first units.
   */
  lemma {:induction false} NegativeCountsUp(i: int, k: nat, size: nat)
    requires size > 0 && -(size as int) < i <= 0 && k <= -i
    ensures Rotated(i, k, size) == i + k
  {
    if k > 0 {
      NegativeCountsUp(i, k - 1, size);
    }
  }

  class UnitToggle<U> {
    /** The units of the product, in display order. */
    const units: seq<U>
    /** The index of the active units. */
    var index: int
    /** The element's "data-index" attribute; None when it is not set. */
    var attribute: Option<int>

    /** The index stays within the range the remainder can produce. */
    ghost predicate Valid()
      reads this
    {
      |units| > 0 && -|units| < index < |units|
    }

    /**
     * Builds the toggle for the given units from the stored attribute, read as
     * 0 when it is not set.
     */
    constructor(units: seq<U>, stored: Option<int>)
      requires |units| > 0
      ensures Valid()
      ensures this.units == units && attribute == stored
      ensures index == JsRem(if stored.Some? then stored.value else 0, |units|)
      ensures stored.None? || 0 <= stored.value ==> Value() == Some(units[index])
    {
      this.units := units;
      this.attribute := stored;
      this.index := JsRem(if stored.Some? then stored.value else 0, |units|);
    }

    /** The active units: undefined when a negative attribute gave a negative index. */
    function Value(): (r: Option<U>)
      reads this
      requires Valid()
      ensures r.Some? <==> 0 <= index
      ensures r.Some? ==> r.value == units[index]
    {
      if 0 <= index then Some(units[index]) else None
    }

    /** Moves to the next units, wrapping round, and stores the new index on the element. */
    method Next()
      requires Valid()
      modifies this
      ensures Valid()
      ensures index == JsRem(old(index) + 1, |units|) && attribute == Some(index)
    {
      index := JsRem(index + 1, |units|);
      attribute := Some(index);
    }
  }
}
