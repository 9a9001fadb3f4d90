/** Why the integer check uses 2^53 - 1: binary64 rounding of integers, and what the check accepts. */
module SafeIntegers {
  import opened PyValues

  /** The leading 53 bits of m: m halved until it fits. */
  function Significand(m: nat): (q: nat)
    ensures m >= TWO53 ==> q >= TWO53 / 2
  { if m < TWO53 then m else Significand(m / 2) }

  /** What one unit of that significand is worth. */
  function Unit(m: nat): (u: nat)
    ensures u >= 1
    ensures m >= TWO53 ==> u >= 2
  { if m < TWO53 then 1 else 2 * Unit(m / 2) }

  /** m rounded to 53 significant bits, ties to even. */
  function RoundNat(m: nat): int {
    var q, u := Significand(m), Unit(m);
    var r := m - q * u;
    if 2 * r < u || (2 * r == u && q % 2 == 0) then q * u else (q + 1) * u
  }

  /** The double an integer becomes in a JSON reader that uses floats. */
  function Round(n: int): int { if n < 0 then -RoundNat(-n) else RoundNat(n) }

  lemma ProductAtLeast(a: int, b: int, q: int, u: int)
    requires 0 <= a <= q && 0 <= b <= u
    ensures a * b <= q * u
  {
    assert a * b <= a * u;
    assert a * u <= q * u;
  }

  lemma RoundLarge(m: nat)
    requires m >= TWO53
    ensures RoundNat(m) >= TWO53
  {
    var q, u := Significand(m), Unit(m);
    ProductAtLeast(TWO53 / 2, 2, q, u);
    ProductAtLeast(TWO53 / 2, 2, q + 1, u);
  }

  /** Dropping bits loses less than one unit, so the remainder above is the true one. */
  lemma {:induction false} SignificandSpec(m: nat)
    ensures 0 <= m - Significand(m) * Unit(m) < Unit(m)
  {
    if m >= TWO53 {
      SignificandSpec(m / 2);
      var q, u := Significand(m / 2), Unit(m / 2);
      assert q * (2 * u) == 2 * (q * u);
    }
  }

  /** The multiples of u are u apart. */
  lemma MultiplesApart(q: int, k: int, u: nat)
    ensures q < k ==> q * u + u <= k * u
  {
    if q < k {
      assert k * u == q * u + u + (k - q - 1) * u;
      ProductAtLeast(0, 0, k - q - 1, u);
    }
  }

  function Distance(a: int, b: int): nat { if a < b then b - a else a - b }

  /** Rounding between a, the q-th multiple of u, and the next one; b is the k-th. */
  lemma NearestMultiple(m: int, u: int, q: int, a: int, k: int, b: int, r: int)
    requires 0 <= m - a < u
    requires r == if 2 * (m - a) < u || (2 * (m - a) == u && q % 2 == 0) then a else a + u
    requires (k < q ==> b + u <= a) && (k == q ==> b == a) && (k == q + 1 ==> b == a + u) && (k > q + 1 ==> a + u + u <= b)
    ensures Distance(m, r) <= Distance(m, b)
    ensures b != r && Distance(m, r) == Distance(m, b) ==> k % 2 == 1
  {
  }

  lemma MultiplesAround(q: int, k: int, u: nat)
    ensures k < q ==> k * u + u <= q * u
    ensures k == q + 1 ==> k * u == q * u + u
    ensures k > q + 1 ==> q * u + u + u <= k * u
  {
    MultiplesApart(k, q, u);
    MultiplesApart(q + 1, k, u);
    assert (q + 1) * u == q * u + u;
  }

  lemma RoundCases(m: nat)
    ensures var a, u := Significand(m) * Unit(m), Unit(m);
            && 0 <= m - a < u
            && RoundNat(m) == if 2 * (m - a) < u || (2 * (m - a) == u && Significand(m) % 2 == 0) then a else a + u
  {
    SignificandSpec(m);
    assert (Significand(m) + 1) * Unit(m) == Significand(m) * Unit(m) + Unit(m);
  }

  /** No whole number of units is nearer to m than RoundNat(m), which is one, and of two as near it is the even one. */
  lemma RoundNearest(m: nat, k: int)
    ensures Distance(m, RoundNat(m)) <= Distance(m, k * Unit(m))
    ensures k * Unit(m) != RoundNat(m) && Distance(m, RoundNat(m)) == Distance(m, k * Unit(m)) ==> k % 2 == 1
  {
    var q, u := Significand(m), Unit(m);
    RoundCases(m);
    MultiplesAround(q, k, u);
    NearestMultiple(m, u, q, q * u, k, k * u, RoundNat(m));
  }

  /** The unit is the distance between doubles of the size of m: a power of two of which m has 2^52 to 2^53. */
  lemma {:induction false} UnitIsSpacing(m: nat)
    ensures exists e: nat :: Unit(m) == Pow2(e)
    ensures m < TWO53 * Unit(m)
    ensures m >= TWO53 ==> TWO53 / 2 * Unit(m) <= m
  {
    if m < TWO53 {
      assert Pow2(0) == 1;
    } else {
      UnitIsSpacing(m / 2);
      var e: nat :| Unit(m / 2) == Pow2(e);
      assert Pow2(e + 1) == 2 * Pow2(e);
    }
  }

  lemma RoundSmall(m: nat)
    requires m < TWO53
    ensures RoundNat(m) == m
  {
    assert Unit(m) == 1 && Significand(m) == m;
  }

  /** No other integer, however large, becomes the same double as n. */
  ghost predicate Unambiguous(n: int) { forall m :: Round(m) == Round(n) ==> m == n }

  /** The bound of the check is the largest one that only lets unambiguous integers through. */
  lemma BoundIsExact(bound: int)
    requires bound >= 0
    ensures (forall n: int :: -bound <= n <= bound ==> Unambiguous(n)) <==> bound <= MAX_SAFE
  {
    if bound <= MAX_SAFE {
      forall n: int, m: int | -bound <= n <= bound && Round(m) == Round(n) ensures m == n {
        RoundSmall(if n < 0 then -n else n);
        var a := if m < 0 then -m else m;
        if a < TWO53 { RoundSmall(a); } else { RoundLarge(a); }
      }
    } else {
      Collision();
      assert !Unambiguous(TWO53);
    }
  }

  lemma Collision()
    ensures Round(TWO53) == Round(TWO53 + 1)
  {
    var h := TWO53 / 2;
    assert (TWO53 + 1) / 2 == h && h < TWO53;
    assert Significand(h) == h && Unit(h) == 1;
    assert Significand(TWO53) == Significand(TWO53 + 1) == h;
    assert Unit(TWO53) == Unit(TWO53 + 1) == 2;
  }

  // ---------------------------------------------------------------- the recursive check

  predicate SafeLeaf(v: PyValue) { (v.PyInt? ==> IsSafe(v.n)) && !v.PyNonFinite? }

  /** l stands somewhere in v, as an item, a value or a key at any depth. */
  ghost predicate Occurs(l: PyValue, v: PyValue)
    decreases v
  {
    match v
    case PyList(items) => exists i :: 0 <= i < |items| && Occurs(l, items[i])
    case PyTuple(items) => exists i :: 0 <= i < |items| && Occurs(l, items[i])
    case PyDict(entries) =>
      exists i :: 0 <= i < |entries| && (Occurs(l, entries[i].key) || Occurs(l, entries[i].value))
    case _ => l == v
  }

  /** A value passes exactly when every number in it, keys included, is finite and in the safe range. */
  lemma {:induction false} ValidateExact(v: PyValue)
    ensures Validate(v) <==> forall l :: Occurs(l, v) ==> SafeLeaf(l)
    decreases v
  {
    if IsSequence(v) {
      forall i | 0 <= i < |v.items|
        ensures Validate(v.items[i]) <==> forall l :: Occurs(l, v.items[i]) ==> SafeLeaf(l)
      {
        ValidateExact(v.items[i]);
      }
      forall l, i | 0 <= i < |v.items| && Occurs(l, v.items[i]) ensures Occurs(l, v) {}
    } else if v.PyDict? {
      forall i | 0 <= i < |v.entries|
        ensures Validate(v.entries[i].key) <==> forall l :: Occurs(l, v.entries[i].key) ==> SafeLeaf(l)
        ensures Validate(v.entries[i].value) <==> forall l :: Occurs(l, v.entries[i].value) ==> SafeLeaf(l)
      {
        ValidateExact(v.entries[i].key);
        ValidateExact(v.entries[i].value);
      }
      forall l, i | 0 <= i < |v.entries| && (Occurs(l, v.entries[i].key) || Occurs(l, v.entries[i].value))
        ensures Occurs(l, v)
      {
      }
    } else {
      assert Occurs(v, v);
    }
  }
}
