// Strides, addresses and coordinate decoding of a D-dimensional array with an
// arbitrary memory layout (structured/field_utils.hpp).
//
// A layout is a permutation of 0..D-1: lm[i] is the rank of dimension i, rank 0 is the
// outermost (largest stride) and rank D-1 the innermost (unit stride) dimension.
// Vectors written "in rank order" list rank 0 first.

module MixedRadix {

  // ------------------------------------------------------------------ layouts

  ghost predicate IsLayout(lm: seq<nat>) {
    && (forall i :: 0 <= i < |lm| ==> lm[i] < |lm|)
    && (forall i, j :: 0 <= i < j < |lm| ==> lm[i] != lm[j])
    && (forall v :: 0 <= v < |lm| ==> v in lm)
  }

  /** The dimension whose rank is v. */
  function Find(lm: seq<nat>, v: nat): (i: nat)
    requires v in lm
    ensures i < |lm| && lm[i] == v
  {
    if lm[0] == v then 0 else 1 + Find(lm[1..], v)
  }

  /** A vector indexed by dimension, listed in rank order. */
  function Ranked(lm: seq<nat>, v: seq<int>): (r: seq<int>)
    requires IsLayout(lm) && |v| == |lm|
    ensures |r| == |lm|
    ensures forall k {:trigger r[k]} :: 0 <= k < |lm| ==> r[k] == v[Find(lm, k)]
  {
    seq(|lm|, k requires 0 <= k < |lm| => v[Find(lm, k)])
  }

  lemma {:induction false} RankedAt(lm: seq<nat>, v: seq<int>, i: nat)
    requires IsLayout(lm) && |v| == |lm| && i < |lm|
    ensures Find(lm, lm[i]) == i && Ranked(lm, v)[lm[i]] == v[i]
  {
  }

  /** A vector in rank order, listed by dimension: the inverse of Ranked. */
  function Spread(lm: seq<nat>, r: seq<int>): (v: seq<int>)
    requires IsLayout(lm) && |r| == |lm|
    ensures |v| == |lm|
    ensures forall i {:trigger v[i]} :: 0 <= i < |lm| ==> v[i] == r[lm[i]]
  {
    seq(|lm|, i requires 0 <= i < |lm| => r[lm[i]])
  }

  lemma {:induction false} SpreadRanked(lm: seq<nat>, v: seq<int>)
    requires IsLayout(lm) && |v| == |lm|
    ensures Spread(lm, Ranked(lm, v)) == v
  {
    forall i | 0 <= i < |lm|
      ensures Spread(lm, Ranked(lm, v))[i] == v[i]
    {
      RankedAt(lm, v, i);
    }
  }

  lemma {:induction false} RankedSpread(lm: seq<nat>, r: seq<int>)
    requires IsLayout(lm) && |r| == |lm|
    ensures Ranked(lm, Spread(lm, r)) == r
  {
  }

  // ------------------------------------------------- mixed-radix numbers

  function Product(e: seq<int>): int {
    if e == [] then 1 else e[0] * Product(e[1..])
  }

  ghost predicate Positive(e: seq<int>) {
    forall k :: 0 <= k < |e| ==> e[k] > 0
  }

  ghost predicate Within(x: seq<int>, e: seq<int>) {
    |x| == |e| && forall k :: 0 <= k < |e| ==> 0 <= x[k] < e[k]
  }

  lemma {:induction false} ProductPositive(e: seq<int>)
    requires Positive(e)
    ensures Product(e) > 0
  {
    if e != [] {
      ProductPositive(e[1..]);
      MulPositive(e[0], Product(e[1..]));
    }
  }

  lemma {:induction false} MulPositive(a: int, b: int)
    requires a > 0 && b > 0
    ensures a * b > 0
  {
  }

  /** The number whose digits, most significant first, are x in the radices e. */
  function Flat(e: seq<int>, x: seq<int>): int
    requires |x| == |e|
  {
    if e == [] then 0 else x[0] * Product(e[1..]) + Flat(e[1..], x[1..])
  }

  /** Digits of n by repeated division, as the kernels compute them: the leading digit is
      not reduced, so it absorbs the excess of an n that is out of range. */
  function Decode(e: seq<int>, n: nat): (x: seq<int>)
    requires Positive(e)
    ensures |x| == |e|
  {
    if e == [] then []
    else
      ProductPositive(e[1..]);
      var p := Product(e[1..]);
      DivNat(n, p);
      [n / p] + Decode(e[1..], n - n / p * p)
  }

  lemma {:induction false} DivNat(n: nat, p: nat)
    requires p > 0
    ensures n / p >= 0 && 0 <= n - n / p * p < p
    ensures n - n / p * p == n % p
  {
  }

  lemma {:induction false} MultipleBounds(d: int, p: int)
    requires p > 0
    ensures d >= 1 ==> d * p >= p
    ensures d <= -1 ==> d * p <= -p
  {
    if d >= 1 {
      MulLe(1, d, p);
    } else if d <= -1 {
      MulLe(d, -1, p);
    }
  }

  lemma {:induction false} DivUnique(n: int, p: int, q: int, r: int)
    requires p > 0 && n == q * p + r && 0 <= r < p
    ensures n / p == q
  {
    var d := n / p - q;
    assert d * p == n / p * p - q * p;
    MultipleBounds(d, p);
  }

  lemma {:induction false} MulLe(a: int, b: int, p: int)
    requires a <= b && p >= 0
    ensures a * p <= b * p
  {
  }

  lemma {:induction false} FlatRange(e: seq<int>, x: seq<int>)
    requires Within(x, e)
    ensures 0 <= Flat(e, x) < Product(e)
  {
    if e != [] {
      var p := Product(e[1..]);
      FlatRange(e[1..], x[1..]);
      MulLe(x[0] + 1, e[0], p);
      assert (x[0] + 1) * p == x[0] * p + p;
      MulLe(0, x[0], p);
    }
  }

  lemma {:induction false} DecodeRange(e: seq<int>, n: nat)
    requires Positive(e) && n < Product(e)
    ensures Within(Decode(e, n), e)
  {
    if e != [] {
      ProductPositive(e[1..]);
      var p := Product(e[1..]);
      DivNat(n, p);
      DecodeRange(e[1..], n - n / p * p);
      if n / p >= e[0] {
        MulLe(e[0], n / p, p);
      }
      var x := Decode(e, n);
      assert x[1..] == Decode(e[1..], n - n / p * p);
      forall k | 0 <= k < |e|
        ensures 0 <= x[k] < e[k]
      {
        if k > 0 {
          assert x[k] == x[1..][k - 1];
        }
      }
    }
  }

  lemma {:induction false} FlatDecode(e: seq<int>, n: nat)
    requires Positive(e)
    requires e == [] ==> n == 0
    ensures Flat(e, Decode(e, n)) == n
  {
    if e != [] {
      ProductPositive(e[1..]);
      var p := Product(e[1..]);
      DivNat(n, p);
      var x := Decode(e, n);
      assert x[1..] == Decode(e[1..], n - n / p * p);
      FlatDecode(e[1..], n - n / p * p);
    }
  }

  lemma {:induction false} DecodeFlat(e: seq<int>, x: seq<int>)
    requires Within(x, e) && Positive(e)
    ensures Flat(e, x) >= 0
    ensures Decode(e, Flat(e, x)) == x
  {
    FlatRange(e, x);
    if e != [] {
      ProductPositive(e[1..]);
      FlatRange(e[1..], x[1..]);
      var p := Product(e[1..]);
      DivUnique(Flat(e, x), p, x[0], Flat(e[1..], x[1..]));
      DecodeFlat(e[1..], x[1..]);
      assert x == [x[0]] + x[1..];
    }
  }

  // ------------------------------------------------------------------ strides

  /** Strides in rank order: `unit` for the innermost dimension, `padding` added once to
      the next one, and the running product of the extents beyond. */
  function Strides(e: seq<int>, unit: int, padding: int): (s: seq<int>)
    ensures |s| == |e|
  {
    if |e| <= 1 then seq(|e|, _ => unit)
    else
      var t := Strides(e[1..], unit, padding);
      [t[0] * e[1] + if |e| == 2 then padding else 0] + t
  }

  lemma {:induction false} StridesShift(e: seq<int>, unit: int, padding: int, k: nat)
    requires k <= |e|
    ensures Strides(e, unit, padding)[k..] == Strides(e[k..], unit, padding)
  {
    if k > 0 {
      StridesShift(e[1..], unit, padding, k - 1);
      assert e[1..][k - 1..] == e[k..];
      if |e| > 1 {
        assert Strides(e, unit, padding)[k..] == Strides(e[1..], unit, padding)[k - 1..];
      }
    }
  }

  /** Without padding, a stride is the unit times the product of all inner extents. */
  lemma {:induction false} StridesAreProducts(e: seq<int>, unit: int, k: nat)
    requires k < |e|
    ensures Strides(e, unit, 0)[k] == unit * Product(e[k + 1..])
    decreases |e| - k
  {
    StridesShift(e, unit, 0, k);
    assert Strides(e, unit, 0)[k] == Strides(e[k..], unit, 0)[0];
    if k + 1 < |e| {
      StridesAreProducts(e, unit, k + 1);
      var f := e[k..];
      StridesShift(e, unit, 0, k + 1);
      assert f[1..] == e[k + 1..];
      assert Strides(f, unit, 0)[0] == Strides(e, unit, 0)[k + 1] * e[k + 1];
      assert Product(e[k + 1..]) == e[k + 1] * Product(e[k + 1..][1..]);
      assert e[k + 1..][1..] == e[k + 2..];
      MulShuffle(unit, Product(e[k + 2..]), e[k + 1]);
    } else {
      assert e[k + 1..] == [];
    }
  }

  lemma {:induction false} MulShuffle(a: int, b: int, c: int)
    ensures a * b * c == a * (c * b)
  {
  }

  lemma {:induction false} StridesBack(e: seq<int>, unit: int, padding: int, i: nat)
    requires 0 < i < |e| && (padding == 0 || i + 2 <= |e|)
    ensures Strides(e, unit, padding)[i - 1] == Strides(e, unit, padding)[i] * e[i]
  {
    var s := Strides(e, unit, padding);
    StridesShift(e, unit, padding, i - 1);
    StridesShift(e, unit, padding, i);
    assert e[i - 1..][1..] == e[i..];
    assert s[i - 1..][0] == s[i - 1] && s[i..][0] == s[i];
  }

  /** The innermost stride is the unit, the next one also spans the padding, and every stride spans
      the whole extent of the next inner dimension. */
  ghost predicate Spanning(lm: seq<nat>, extents: seq<int>, strides: seq<int>, unit: int, padding: int) {
    && |strides| == |extents| == |lm|
    && (forall i :: 0 <= i < |lm| && lm[i] == |lm| - 1 ==> strides[i] == unit)
    && (forall i, j :: 0 <= i < |lm| && 0 <= j < |lm| && lm[j] == lm[i] + 1 ==>
          strides[i] == strides[j] * extents[j] + (if lm[j] == |lm| - 1 then padding else 0))
  }

  lemma {:induction false} StridesSpan(lm: seq<nat>, extents: seq<int>, unit: int, padding: int)
    requires IsLayout(lm) && |extents| == |lm|
    ensures Spanning(lm, extents, Spread(lm, Strides(Ranked(lm, extents), unit, padding)), unit, padding)
  {
    var e := Ranked(lm, extents);
    var s := Strides(e, unit, padding);
    forall i | 0 <= i < |lm| && lm[i] == |lm| - 1
      ensures s[lm[i]] == unit
    {
      StridesShift(e, unit, padding, lm[i]);
      assert s[lm[i]..][0] == s[lm[i]];
    }
    forall i, j | 0 <= i < |lm| && 0 <= j < |lm| && lm[j] == lm[i] + 1
      ensures s[lm[i]] == s[lm[j]] * extents[j] + (if lm[j] == |lm| - 1 then padding else 0)
    {
      RankedAt(lm, extents, j);
      StrideStep(e, unit, padding, lm[i]);
    }
  }

  lemma {:induction false} StrideStep(e: seq<int>, unit: int, padding: int, k: nat)
    requires k + 1 < |e|
    ensures Strides(e, unit, padding)[k] == Strides(e, unit, padding)[k + 1] * e[k + 1] + (if k + 2 == |e| then padding else 0)
  {
    var s := Strides(e, unit, padding);
    StridesShift(e, unit, padding, k);
    StridesShift(e, unit, padding, k + 1);
    assert e[k..][1..] == e[k + 1..];
    assert s[k..][0] == s[k] && s[k + 1..][0] == s[k + 1];
  }

  /** The recursive step of compute_strides_impl: fills the strides of ranks 0..i-1 from
      the stride of rank i. */
  method ComputeStridesImpl(lm: seq<nat>, extents: seq<int>, strides: array<int>, i: nat,
                            ghost unit: int, ghost padding: int)
    requires IsLayout(lm) && |extents| == |lm| == strides.Length
    requires i < |lm|
    requires padding == 0 || i + 2 <= |lm|
    requires forall k :: i <= k < |lm| ==>
      strides[Find(lm, k)] == Strides(Ranked(lm, extents), unit, padding)[k]
    modifies strides
    ensures strides[..] == Spread(lm, Strides(Ranked(lm, extents), unit, padding))
    decreases i
  {
    ghost var e := Ranked(lm, extents);
    ghost var s := Strides(e, unit, padding);
    if i == 0 {
      assert forall d :: 0 <= d < |lm| ==> strides[Find(lm, lm[d])] == s[lm[d]];
    } else {
      var lastIdx := Find(lm, i);
      var idx := Find(lm, i - 1);
      StridesBack(e, unit, padding, i);
      strides[idx] := strides[lastIdx] * extents[lastIdx];
      assert strides[idx] == s[i - 1];
      ComputeStridesImpl(lm, extents, strides, i - 1, unit, padding);
    }
  }

  /** compute_strides in elements. */
  method ComputeStrides(lm: seq<nat>, extents: seq<int>, strides: array<int>)
    requires IsLayout(lm) && |extents| == |lm| == strides.Length > 0
    modifies strides
    ensures strides[..] == Spread(lm, Strides(Ranked(lm, extents), 1, 0))
    ensures Spanning(lm, extents, strides[..], 1, 0)
  {
    StridesSpan(lm, extents, 1, 0);
    ghost var e := Ranked(lm, extents);
    var idx := Find(lm, |lm| - 1);
    strides[idx] := 1;
    StridesShift(e, 1, 0, |lm| - 1);
    assert Strides(e, 1, 0)[|lm| - 1..][0] == Strides(e, 1, 0)[|lm| - 1];
    ComputeStridesImpl(lm, extents, strides, |lm| - 1, 1, 0);
  }

  /** compute_strides in bytes with padding of the innermost line. */
  method ComputeByteStrides(lm: seq<nat>, extents: seq<int>, size: int, padding: int,
                            strides: array<int>)
    requires IsLayout(lm) && |extents| == |lm| == strides.Length > 0
    modifies strides
    ensures strides[..] == Spread(lm, Strides(Ranked(lm, extents), size, padding))
    ensures Spanning(lm, extents, strides[..], size, padding)
  {
    StridesSpan(lm, extents, size, padding);
    ghost var e := Ranked(lm, extents);
    ghost var s := Strides(e, size, padding);
    var D := |lm|;
    if D == 1 {
      strides[0] := size;
    } else {
      var idx := Find(lm, D - 1);
      strides[idx] := size;
      var idx2 := Find(lm, D - 2);
      strides[idx2] := size * extents[idx] + padding;
      StridesShift(e, size, padding, D - 2);
      assert e[D - 2..][1..] == e[D - 1..];
      assert s[D - 2..][0] == s[D - 2] && s[D - 2..][1] == s[D - 1];
      ComputeStridesImpl(lm, extents, strides, D - 2, size, padding);
    }
  }

  // ------------------------------------------------------- dot product, addresses

  /** Sum of products, by recursion. */
  function Weighted(s: seq<int>, x: seq<int>): int
    requires |s| == |x|
  {
    if s == [] then 0 else s[0] * x[0] + Weighted(s[1..], x[1..])
  }

  method Dot(a: seq<int>, b: seq<int>) returns (res: int)
    requires |a| == |b| > 0
    ensures res == Weighted(a, b)
  {
    res := a[0] * b[0];
    var i := 1;
    while i < |a|
      invariant 1 <= i <= |a|
      invariant res + Weighted(a[i..], b[i..]) == Weighted(a, b)
    {
      assert a[i..][1..] == a[i + 1..] && b[i..][1..] == b[i + 1..];
      res := res + a[i] * b[i];
      i := i + 1;
    }
  }

  function RemoveAt<T>(s: seq<T>, c: nat): (r: seq<T>)
    requires c < |s|
    ensures |r| == |s| - 1
    ensures forall i :: 0 <= i < |r| ==> r[i] == s[if i < c then i else i + 1]
  {
    s[..c] + s[c + 1..]
  }

  lemma {:induction false} WeightedRemove(a: seq<int>, b: seq<int>, c: nat)
    requires |a| == |b| && c < |a|
    ensures Weighted(a, b) == Weighted(RemoveAt(a, c), RemoveAt(b, c)) + a[c] * b[c]
  {
    if c == 0 {
      assert RemoveAt(a, 0) == a[1..] && RemoveAt(b, 0) == b[1..];
    } else {
      WeightedRemove(a[1..], b[1..], c - 1);
      assert RemoveAt(a, c)[1..] == RemoveAt(a[1..], c - 1);
      assert RemoveAt(b, c)[1..] == RemoveAt(b[1..], c - 1);
    }
  }

  /** Dropping the innermost dimension of a layout leaves a layout of the others: the
      reduced layout of the batched pack loops. */
  function Reduced(lm: seq<nat>): (r: seq<nat>)
    requires IsLayout(lm) && |lm| > 0
    ensures |r| == |lm| - 1
    ensures IsLayout(r)
  {
    var c := Find(lm, |lm| - 1);
    var r := RemoveAt(lm, c);
    assert forall v :: 0 <= v < |r| ==> v in r by {
      forall v | 0 <= v < |r| ensures v in r {
        var i := Find(lm, v);
        assert r[if i < c then i else i - 1] == v;
      }
    }
    r
  }

  lemma {:induction false} SpreadReduced(lm: seq<nat>, r: seq<int>)
    requires IsLayout(lm) && |lm| == |r| > 0
    ensures RemoveAt(Spread(lm, r), Find(lm, |lm| - 1)) == Spread(Reduced(lm), r[..|r| - 1])
  {
  }

  /** A dot product does not depend on the layout. */
  lemma {:induction false} WeightedSpread(lm: seq<nat>, s: seq<int>, x: seq<int>)
    requires IsLayout(lm) && |s| == |x| == |lm|
    ensures Weighted(Spread(lm, s), Spread(lm, x)) == Weighted(s, x)
  {
    if lm == [] {
    } else {
      var last := |lm| - 1;
      var c := Find(lm, last);
      WeightedRemove(Spread(lm, s), Spread(lm, x), c);
      WeightedRemove(s, x, last);
      assert RemoveAt(s, last) == s[..last] && RemoveAt(x, last) == x[..last];
      SpreadReduced(lm, s);
      SpreadReduced(lm, x);
      WeightedSpread(Reduced(lm), s[..last], x[..last]);
    }
  }

  /** Each stride covers at least the whole extent of the next inner dimension. */
  ghost predicate Nested(s: seq<int>, e: seq<int>, gap: int) {
    && |s| == |e|
    && (forall k :: 0 <= k < |s| - 1 ==> s[k] >= s[k + 1] * e[k + 1])
    && (|s| > 0 ==> s[|s| - 1] >= gap)
  }

  lemma {:induction false} StridesNested(e: seq<int>, unit: int, padding: int)
    requires padding >= 0
    ensures Nested(Strides(e, unit, padding), e, unit)
  {
    if |e| > 1 {
      StridesNested(e[1..], unit, padding);
      var s := Strides(e, unit, padding);
      var t := Strides(e[1..], unit, padding);
      assert s[1..] == t;
      forall k | 0 <= k < |s| - 1
        ensures s[k] >= s[k + 1] * e[k + 1]
      {
        if k > 0 {
          assert t[k - 1] >= t[k] * e[1..][k];
        }
      }
    }
  }

  lemma {:induction false} WeightedBound(s: seq<int>, e: seq<int>, gap: int, x: seq<int>)
    requires gap >= 0 && Nested(s, e, gap) && Within(x, e) && |s| > 0
    ensures s[0] >= gap
    ensures 0 <= Weighted(s, x) <= s[0] * e[0] - gap
  {
    if |s| > 1 {
      WeightedBound(s[1..], e[1..], gap, x[1..]);
      assert e[1] >= 1;
      assert s[1..][0] == s[1] && e[1..][0] == e[1];
      assert s[0] >= s[1] * e[1];
      MulLe(1, e[1], s[1]);
      MulComm(e[1], s[1]);
    } else {
      assert Weighted(s[1..], x[1..]) == 0;
    }
    MulLe(0, x[0], s[0]);
    MulLe(x[0] + 1, e[0], s[0]);
    MulComm(x[0], s[0]);
    MulComm(e[0], s[0]);
    assert (x[0] + 1) * s[0] == x[0] * s[0] + s[0];
  }

  lemma {:induction false} MulComm(a: int, b: int)
    ensures a * b == b * a
  {
  }

  /** Distinct coordinates get addresses at least `gap` apart, for padded strides too, and
      the order of addresses is the lexicographic order of the ranked coordinates. */
  lemma {:induction false} AddressesApart(s: seq<int>, e: seq<int>, gap: int, x: seq<int>, y: seq<int>)
    requires gap >= 0 && Nested(s, e, gap) && Within(x, e) && Within(y, e) && x != y
    ensures Weighted(s, x) + gap <= Weighted(s, y) || Weighted(s, y) + gap <= Weighted(s, x)
  {
    assert s != [];
    if x[0] == y[0] {
      assert x == [x[0]] + x[1..] && y == [y[0]] + y[1..];
      AddressesApart(s[1..], e[1..], gap, x[1..], y[1..]);
    } else if x[0] < y[0] {
      LowerFirst(s, e, gap, x, y);
    } else {
      LowerFirst(s, e, gap, y, x);
    }
  }

  lemma {:induction false} LowerFirst(s: seq<int>, e: seq<int>, gap: int, x: seq<int>, y: seq<int>)
    requires gap >= 0 && Nested(s, e, gap) && Within(x, e) && Within(y, e) && |s| > 0
    requires x[0] < y[0]
    ensures Weighted(s, x) + gap <= Weighted(s, y)
  {
    WeightedBound(s, e, gap, x);
    if |s| > 1 {
      WeightedBound(s[1..], e[1..], gap, x[1..]);
      WeightedBound(s[1..], e[1..], gap, y[1..]);
      assert s[0] >= s[1] * e[1];
    } else {
      assert Weighted(s[1..], x[1..]) == 0 && Weighted(s[1..], y[1..]) == 0;
    }
    MulLe(x[0] + 1, y[0], s[0]);
    assert (x[0] + 1) * s[0] == x[0] * s[0] + s[0];
    MulComm(x[0], s[0]);
    MulComm(y[0], s[0]);
  }

  /** With unpadded strides an address is the flat index scaled by the element size. */
  lemma {:induction false} WeightedIsFlat(e: seq<int>, unit: int, x: seq<int>)
    requires |x| == |e|
    ensures Weighted(Strides(e, unit, 0), x) == unit * Flat(e, x)
  {
    if e != [] {
      var s := Strides(e, unit, 0);
      StridesAreProducts(e, unit, 0);
      StridesShift(e, unit, 0, 1);
      WeightedIsFlat(e[1..], unit, x[1..]);
      var p := Product(e[1..]);
      MulShuffle(unit, p, x[0]);
      assert unit * (x[0] * p + Flat(e[1..], x[1..])) == unit * (x[0] * p) + unit * Flat(e[1..], x[1..]);
    }
  }

  // ------------------------------------------------------------ compute_coordinate

  /** The recursive step of compute_coordinate_impl<D,K>. */
  method ComputeCoordinateImpl(lm: seq<nat>, strides: seq<int>, coord: array<int>, i: nat, k: nat,
                               ghost e: seq<int>, ghost n: nat)
    requires IsLayout(lm) && |strides| == |lm| == coord.Length == |e|
    requires Positive(e) && strides == Spread(lm, Strides(e, 1, 0))
    requires k <= |lm|
    requires var x := Decode(e, n); var r := |lm| - k;
      && (forall j :: 0 <= j < r ==> coord[Find(lm, j)] == x[j])
      && Decode(e[r..], i) == x[r..]
    modifies coord
    ensures coord[..] == Spread(lm, Decode(e, n))
    decreases k
  {
    ghost var x := Decode(e, n);
    var r := |lm| - k;
    if k == 0 {
      assert forall d :: 0 <= d < |lm| ==> coord[Find(lm, lm[d])] == x[lm[d]];
    } else {
      var idx := Find(lm, r);
      ghost var p := Product(e[r..][1..]);
      assert e[r..][1..] == e[r + 1..];
      StridesAreProducts(e, 1, r);
      ProductPositive(e[r + 1..]);
      DivNat(i, p);
      coord[idx] := i / strides[idx];
      assert coord[idx] == Decode(e[r..], i)[0] == x[r];
      assert x[r + 1..] == Decode(e[r..], i)[1..];
      ComputeCoordinateImpl(lm, strides, coord, i - coord[idx] * strides[idx], k - 1, e, n);
    }
  }

  /** compute_coordinate: with the strides of compute_strides it decodes every index. */
  method ComputeCoordinate(lm: seq<nat>, strides: seq<int>, coord: array<int>, i: nat, ghost extents: seq<int>)
    requires IsLayout(lm) && |strides| == |lm| == coord.Length == |extents| > 0
    requires Positive(Ranked(lm, extents))
    requires strides == Spread(lm, Strides(Ranked(lm, extents), 1, 0))
    modifies coord
    ensures coord[..] == Spread(lm, Decode(Ranked(lm, extents), i))
  {
    ghost var e := Ranked(lm, extents);
    ProductPositive(e[1..]);
    StridesAreProducts(e, 1, 0);
    DivNat(i, Product(e[1..]));
    var idx := Find(lm, 0);
    coord[idx] := i / strides[idx];
    assert Decode(e, i)[1..] == Decode(e[1..], i - coord[idx] * strides[idx]);
    ComputeCoordinateImpl(lm, strides, coord, i - coord[idx] * strides[idx], |lm| - 1, e, i);
  }

  // ------------------------------------------------------------ main results

  lemma {:induction false} RankedWithin(lm: seq<nat>, x: seq<int>, extents: seq<int>)
    requires IsLayout(lm) && |extents| == |lm| == |x|
    ensures Within(x, extents) <==> Within(Ranked(lm, x), Ranked(lm, extents))
  {
    var rx, e := Ranked(lm, x), Ranked(lm, extents);
    if Within(rx, e) {
      forall i | 0 <= i < |lm|
        ensures 0 <= x[i] < extents[i]
      {
        RankedAt(lm, x, i);
        RankedAt(lm, extents, i);
        assert 0 <= rx[lm[i]] < e[lm[i]];
      }
    }
  }

  lemma {:induction false} WeightedRanked(lm: seq<nat>, s: seq<int>, x: seq<int>)
    requires IsLayout(lm) && |s| == |lm| == |x|
    ensures Weighted(Spread(lm, s), x) == Weighted(s, Ranked(lm, x))
  {
    SpreadRanked(lm, x);
    WeightedSpread(lm, s, Ranked(lm, x));
  }

  /** Decoding an index and taking the dot product with the strides are inverse to each
      other: a bijection between [0, product of extents) and the box, for every layout. */
  lemma {:induction false} DecodeDotInverse(lm: seq<nat>, extents: seq<int>, n: nat)
    requires IsLayout(lm) && |extents| == |lm| && Positive(Ranked(lm, extents))
    requires n < Product(Ranked(lm, extents))
    ensures var e := Ranked(lm, extents);
      var x := Spread(lm, Decode(e, n));
      Within(x, extents) && Weighted(Spread(lm, Strides(e, 1, 0)), x) == n
  {
    var e := Ranked(lm, extents);
    var d := Decode(e, n);
    var x := Spread(lm, d);
    DecodeRange(e, n);
    RankedSpread(lm, d);
    RankedWithin(lm, x, extents);
    WeightedRanked(lm, Strides(e, 1, 0), x);
    WeightedIsFlat(e, 1, d);
    FlatDecode(e, n);
  }

  lemma {:induction false} DotDecodeInverse(lm: seq<nat>, extents: seq<int>, x: seq<int>)
    requires IsLayout(lm) && |extents| == |lm| && Positive(Ranked(lm, extents))
    requires Within(x, extents)
    ensures var e := Ranked(lm, extents);
      var n := Weighted(Spread(lm, Strides(e, 1, 0)), x);
      0 <= n < Product(e) && Spread(lm, Decode(e, n)) == x
  {
    var e := Ranked(lm, extents);
    var r := Ranked(lm, x);
    RankedWithin(lm, x, extents);
    WeightedRanked(lm, Strides(e, 1, 0), x);
    WeightedIsFlat(e, 1, r);
    assert Weighted(Spread(lm, Strides(e, 1, 0)), x) == Flat(e, r);
    FlatRange(e, r);
    DecodeFlat(e, r);
    SpreadRanked(lm, x);
  }

  /** Byte strides, padded or not: elements at different coordinates occupy disjoint byte
      ranges, all inside [0, stride of rank 0 * extent of rank 0) = m_bytes. */
  lemma {:induction false} ElementsDisjoint(lm: seq<nat>, extents: seq<int>, size: int, padding: int, x: seq<int>, y: seq<int>)
    requires IsLayout(lm) && |extents| == |lm| > 0 && size > 0 && padding >= 0
    requires Within(x, extents) && Within(y, extents) && x != y
    ensures var s := Spread(lm, Strides(Ranked(lm, extents), size, padding));
      var bytes := s[Find(lm, 0)] * extents[Find(lm, 0)];
      && 0 <= Weighted(s, x) <= bytes - size
      && (Weighted(s, x) + size <= Weighted(s, y) || Weighted(s, y) + size <= Weighted(s, x))
  {
    var e := Ranked(lm, extents);
    var s := Strides(e, size, padding);
    var rx, ry := Ranked(lm, x), Ranked(lm, y);
    SpreadRanked(lm, x);
    SpreadRanked(lm, y);
    RankedWithin(lm, x, extents);
    RankedWithin(lm, y, extents);
    WeightedRanked(lm, s, x);
    WeightedRanked(lm, s, y);
    StridesNested(e, size, padding);
    WeightedBound(s, e, size, rx);
    AddressesApart(s, e, size, rx, ry);
  }

  lemma {:induction false} ProductRemove(e: seq<int>, c: nat)
    requires c < |e|
    ensures Product(e) == Product(RemoveAt(e, c)) * e[c]
  {
    if c == 0 {
      assert RemoveAt(e, 0) == e[1..];
    } else {
      ProductRemove(e[1..], c - 1);
      assert RemoveAt(e, c)[1..] == RemoveAt(e[1..], c - 1);
      assert RemoveAt(e, c)[0] == e[0];
      MulAssoc(e[0], Product(RemoveAt(e[1..], c - 1)), e[c]);
    }
  }

  lemma {:induction false} MulAssoc(a: int, b: int, c: int)
    ensures a * (b * c) == a * b * c
  {
  }

  /** The number of elements does not depend on the layout. */
  lemma {:induction false} ProductSpread(lm: seq<nat>, r: seq<int>)
    requires IsLayout(lm) && |r| == |lm|
    ensures Product(Spread(lm, r)) == Product(r)
  {
    if lm == [] {
    } else {
      var last := |lm| - 1;
      ProductRemove(Spread(lm, r), Find(lm, last));
      ProductRemove(r, last);
      assert RemoveAt(r, last) == r[..last];
      SpreadReduced(lm, r);
      ProductSpread(Reduced(lm), r[..last]);
    }
  }

  lemma {:induction false} ProductRanked(lm: seq<nat>, e: seq<int>)
    requires IsLayout(lm) && |e| == |lm|
    ensures Product(Ranked(lm, e)) == Product(e)
  {
    SpreadRanked(lm, e);
    ProductSpread(lm, Ranked(lm, e));
  }
}
