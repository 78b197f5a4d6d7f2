// Shared value types of the ALE remap model: the two-component vectors of the
// mesh geometry, the real vectors Phi that the remap transports, and the
// reductions (sums, means, minima) that the source computes with Kokkos
// reducers and that are modelled here as sequential folds.
module Common {

  datatype Option<T> = None | Some(value: T)

  /** A 2-D vector (RealArray1D<dim> in the source). */
  datatype Vec2 = Vec2(x: real, y: real)

  function Dot(a: Vec2, b: Vec2): real { a.x * b.x + a.y * b.y }

  function Minus(a: Vec2, b: Vec2): Vec2 { Vec2(a.x - b.x, a.y - b.y) }

  /** Component along the sweep axis: 0 is x, 1 is y. */
  function Component(a: Vec2, axis: nat): real
    requires axis < 2
  {
    if axis == 0 then a.x else a.y
  }

  const Ex: Vec2 := Vec2(1.0, 0.0)
  const Ey: Vec2 := Vec2(0.0, 1.0)

  function Abs(x: real): real { if x < 0.0 then -x else x }

  function Max(a: real, b: real): real { if a < b then b else a }

  function Min(a: real, b: real): real { if a < b then a else b }

  /** n vectors, all of width w. */
  predicate Width<T>(s: seq<seq<T>>, n: nat, w: nat)
  {
    |s| == n && forall i :: 0 <= i < n ==> |s[i]| == w
  }

  /** The all-zero vector of width d (Uzero in the source). */
  function Zeros(d: nat): (z: seq<real>)
    ensures |z| == d && forall i :: 0 <= i < d ==> z[i] == 0.0
  {
    seq(d, _ => 0.0)
  }

  function Add(a: seq<real>, b: seq<real>): (r: seq<real>)
    requires |a| == |b|
    ensures |r| == |a| && forall i :: 0 <= i < |a| ==> r[i] == a[i] + b[i]
  {
    seq(|a|, i requires 0 <= i < |a| => a[i] + b[i])
  }

  function Sub(a: seq<real>, b: seq<real>): (r: seq<real>)
    requires |a| == |b|
    ensures |r| == |a| && forall i :: 0 <= i < |a| ==> r[i] == a[i] - b[i]
  {
    seq(|a|, i requires 0 <= i < |a| => a[i] - b[i])
  }

  function Scale(k: real, a: seq<real>): (r: seq<real>)
    ensures |r| == |a| && forall i :: 0 <= i < |a| ==> r[i] == k * a[i]
  {
    seq(|a|, i requires 0 <= i < |a| => k * a[i])
  }

  /** Element-wise product. */
  function Mul(a: seq<real>, b: seq<real>): (r: seq<real>)
    requires |a| == |b|
    ensures |r| == |a| && forall i :: 0 <= i < |a| ==> r[i] == a[i] * b[i]
  {
    seq(|a|, i requires 0 <= i < |a| => a[i] * b[i])
  }

  function DivScalar(a: seq<real>, k: real): (r: seq<real>)
    requires k != 0.0
    ensures |r| == |a| && forall i :: 0 <= i < |a| ==> r[i] == a[i] / k
  {
    seq(|a|, i requires 0 <= i < |a| => a[i] / k)
  }

  /** Left-to-right sum, the order of the source's sequential accumulation. */
  function Sum(s: seq<real>): real
  {
    if s == [] then 0.0 else Sum(s[..|s| - 1]) + s[|s| - 1]
  }

  lemma {:induction false} SumAppend(s: seq<real>, x: real)
    ensures Sum(s + [x]) == Sum(s) + x
  {
    assert (s + [x])[..|s|] == s;
  }

  /** The sum over a prefix grows by the next element. */
  lemma {:induction false} SumStep(s: seq<real>, i: nat)
    requires i < |s|
    ensures Sum(s[..i + 1]) == Sum(s[..i]) + s[i]
  {
    assert s[..i + 1] == s[..i] + [s[i]];
    SumAppend(s[..i], s[i]);
  }

  lemma {:induction false} SumOfZeros(s: seq<real>)
    requires forall i :: 0 <= i < |s| ==> s[i] == 0.0
    ensures Sum(s) == 0.0
  {
    if s != [] {
      SumOfZeros(s[..|s| - 1]);
    }
  }

  lemma {:induction false} SumNonNegative(s: seq<real>)
    requires forall i :: 0 <= i < |s| ==> s[i] >= 0.0
    ensures Sum(s) >= 0.0
  {
    if s != [] {
      SumNonNegative(s[..|s| - 1]);
    }
  }

  lemma {:induction false} SumScale(k: real, s: seq<real>)
    ensures Sum(Scale(k, s)) == k * Sum(s)
  {
    if s != [] {
      var init := s[..|s| - 1];
      assert forall i :: 0 <= i < |init| ==> Scale(k, s)[..|s| - 1][i] == Scale(k, init)[i];
      assert Scale(k, s)[..|s| - 1] == Scale(k, init);
      SumScale(k, s[..|s| - 1]);
    }
  }

  lemma {:induction false} SumBounds(s: seq<real>, lo: real, hi: real)
    requires forall i :: 0 <= i < |s| ==> lo <= s[i] <= hi
    ensures |s| as real * lo <= Sum(s) <= |s| as real * hi
  {
    if s != [] {
      SumBounds(s[..|s| - 1], lo, hi);
    }
  }

  lemma {:induction false} SumConstant(s: seq<real>, v: real)
    requires forall i :: 0 <= i < |s| ==> s[i] == v
    ensures Sum(s) == |s| as real * v
  {
    if s != [] {
      SumConstant(s[..|s| - 1], v);
    }
  }

  lemma {:induction false} WeightedSumStep(a: seq<real>, b: seq<real>, i: nat)
    requires |a| == |b| && i < |a|
    ensures Sum(Mul(a[..i + 1], b[..i + 1])) == Sum(Mul(a[..i], b[..i])) + a[i] * b[i]
  {
    var longer := Mul(a[..i + 1], b[..i + 1]);
    var shorter := Mul(a[..i], b[..i]);
    assert forall j :: 0 <= j < i ==> longer[j] == shorter[j];
    assert |longer| == i + 1 && longer[i] == a[i] * b[i];
    assert longer == shorter + [a[i] * b[i]];
    SumAppend(shorter, a[i] * b[i]);
  }

  /** A sum is monotone in its terms. */
  lemma {:induction false} SumMonotone(a: seq<real>, b: seq<real>)
    requires |a| == |b| && forall i :: 0 <= i < |a| ==> a[i] <= b[i]
    ensures Sum(a) <= Sum(b)
  {
    if a != [] {
      SumMonotone(a[..|a| - 1], b[..|b| - 1]);
    }
  }

  /** Non-negative weights: lo * sum(w) <= sum(w * v) when every v >= lo. */
  lemma {:induction false} WeightedSumAtLeast(w: seq<real>, v: seq<real>, lo: real)
    requires |w| == |v|
    requires forall i :: 0 <= i < |w| ==> w[i] >= 0.0 && lo <= v[i]
    ensures lo * Sum(w) <= Sum(Mul(w, v))
  {
    forall i | 0 <= i < |w|
      ensures Scale(lo, w)[i] <= Mul(w, v)[i]
    {
      TermAtLeast(w[i], v[i], lo);
    }
    SumMonotone(Scale(lo, w), Mul(w, v));
    SumScale(lo, w);
  }

  /** Non-negative weights: sum(w * v) <= hi * sum(w) when every v <= hi. */
  lemma {:induction false} WeightedSumAtMost(w: seq<real>, v: seq<real>, hi: real)
    requires |w| == |v|
    requires forall i :: 0 <= i < |w| ==> w[i] >= 0.0 && v[i] <= hi
    ensures Sum(Mul(w, v)) <= hi * Sum(w)
  {
    forall i | 0 <= i < |w|
      ensures Mul(w, v)[i] <= Scale(hi, w)[i]
    {
      TermAtMost(w[i], v[i], hi);
    }
    SumMonotone(Mul(w, v), Scale(hi, w));
    SumScale(hi, w);
  }

  lemma {:induction false} TermAtLeast(w: real, v: real, lo: real)
    requires w >= 0.0 && lo <= v
    ensures lo * w <= w * v
  {
    assert w * (v - lo) >= 0.0;
  }

  lemma {:induction false} TermAtMost(w: real, v: real, hi: real)
    requires w >= 0.0 && v <= hi
    ensures w * v <= hi * w
  {
    assert w * (hi - v) >= 0.0;
  }

  /** Smallest element of a non-empty sequence (a Kokkos min-reduction). */
  function MinOf(s: seq<real>): (m: real)
    requires |s| > 0
    ensures forall i :: 0 <= i < |s| ==> m <= s[i]
    ensures exists i :: 0 <= i < |s| && m == s[i]
  {
    if |s| == 1 then s[0]
    else
      var m' := MinOf(s[..|s| - 1]);
      assert forall i :: 0 <= i < |s| - 1 ==> s[..|s| - 1][i] == s[i];
      Min(m', s[|s| - 1])
  }

  /** The sum of an element-wise sum is the sum of the two sums. */
  lemma {:induction false} SumOfAdd(x: seq<real>, y: seq<real>)
    requires |x| == |y|
    ensures Sum(Add(x, y)) == Sum(x) + Sum(y)
  {
    if |x| > 0 {
      var n := |x| - 1;
      var xy := Add(x, y);
      SumOfAdd(x[..n], y[..n]);
      var shorter := Add(x[..n], y[..n]);
      assert |xy[..n]| == |shorter| && forall i :: 0 <= i < n ==> xy[..n][i] == shorter[i];
      assert xy[..n] == shorter;
    }
  }

  /** A sequence that is zero everywhere but at x sums to its value at x. */
  lemma {:induction false} SumOfUnit(s: seq<real>, x: nat)
    requires x < |s| && forall i :: 0 <= i < |s| && i != x ==> s[i] == 0.0
    ensures Sum(s) == s[x]
  {
    var n := |s| - 1;
    if x == n {
      SumOfZeros(s[..n]);
    } else {
      SumOfUnit(s[..n], x);
    }
  }

  // ---------------------------------------------------------------------
  // Tables: one row of reals per index, summed row by row

  function RowSums(t: seq<seq<real>>): (r: seq<real>)
    ensures |r| == |t| && forall c :: 0 <= c < |t| ==> r[c] == Sum(t[c])
  {
    seq(|t|, c requires 0 <= c < |t| => Sum(t[c]))
  }

  /** The entries of t at the positions of S, zero elsewhere. */
  function Masked(t: seq<seq<real>>, S: set<(nat, nat)>): (r: seq<seq<real>>)
    ensures |r| == |t|
    ensures forall c :: 0 <= c < |t| ==> |r[c]| == |t[c]|
    ensures forall c, k :: 0 <= c < |t| && 0 <= k < |t[c]| ==> r[c][k] == if (c, k) in S then t[c][k] else 0.0
  {
    seq(|t|, c requires 0 <= c < |t| =>
      seq(|t[c]|, k requires 0 <= k < |t[c]| => if (c, k) in S then t[c][k] else 0.0))
  }

  predicate InTable(t: seq<seq<real>>, x: (nat, nat))
  {
    x.0 < |t| && x.1 < |t[x.0]|
  }

  /** Taking one position out of the mask takes its entry out of the sum. */
  lemma {:induction false} MaskedSplit(t: seq<seq<real>>, S: set<(nat, nat)>, x: (nat, nat))
    requires x in S && InTable(t, x)
    ensures Sum(RowSums(Masked(t, S))) == Sum(RowSums(Masked(t, S - {x}))) + t[x.0][x.1]
  {
    var c := x.0;
    var before, after := RowSums(Masked(t, S)), RowSums(Masked(t, S - {x}));
    var rowUnit := seq(|t|, j requires 0 <= j < |t| => if j == c then t[c][x.1] else 0.0);
    forall j | 0 <= j < |t|
      ensures before[j] == after[j] + rowUnit[j]
    {
      if j == c {
        MaskedRowSplit(t, S, x);
      } else {
        MaskedOtherRow(t, S, x, j);
      }
    }
    assert before == Add(after, rowUnit);
    SumOfAdd(after, rowUnit);
    SumOfUnit(rowUnit, c);
  }

  lemma {:induction false} MaskedRowSplit(t: seq<seq<real>>, S: set<(nat, nat)>, x: (nat, nat))
    requires x in S && InTable(t, x)
    ensures Sum(Masked(t, S)[x.0]) == Sum(Masked(t, S - {x})[x.0]) + t[x.0][x.1]
  {
    var (c, k) := x;
    var before, after := Masked(t, S)[c], Masked(t, S - {x})[c];
    var unit := seq(|t[c]|, j requires 0 <= j < |t[c]| => if j == k then t[c][k] else 0.0);
    forall j | 0 <= j < |t[c]|
      ensures before[j] == after[j] + unit[j]
    {
      if j != k {
        assert (c, j) != x;
      }
    }
    assert before == Add(after, unit);
    SumOfAdd(after, unit);
    SumOfUnit(unit, k);
  }

  lemma {:induction false} MaskedOtherRow(t: seq<seq<real>>, S: set<(nat, nat)>, x: (nat, nat), j: nat)
    requires j < |t| && j != x.0
    ensures Masked(t, S)[j] == Masked(t, S - {x})[j]
  {
    var before, after := Masked(t, S)[j], Masked(t, S - {x})[j];
    forall i | 0 <= i < |t[j]|
      ensures before[i] == after[i]
    {
      assert (j, i) != x;
    }
  }

  /** `pair` matches each position of S with another position of S holding
      the opposite entry, and matches that one back. */
  ghost predicate Paired(t: seq<seq<real>>, S: set<(nat, nat)>, pair: ((nat, nat)) -> (nat, nat))
  {
    forall x :: x in S ==>
      InTable(t, x) && pair(x) in S && pair(x) != x && pair(pair(x)) == x
      && InTable(t, pair(x)) && t[pair(x).0][pair(x).1] == -t[x.0][x.1]
  }

  /** A table whose masked entries come in pairs of opposite values sums to
      zero. */
  lemma {:induction false} PairedEntriesCancel(t: seq<seq<real>>, S: set<(nat, nat)>, pair: ((nat, nat)) -> (nat, nat))
    requires Paired(t, S, pair)
    ensures Sum(RowSums(Masked(t, S))) == 0.0
    decreases |S|
  {
    if S == {} {
      EmptyMaskSumsToZero(t);
    } else {
      var x :| x in S;
      var y := pair(x);
      MaskedSplit(t, S, x);
      MaskedSplit(t, S - {x}, y);
      var rest := S - {x} - {y};
      PairRemoved(t, S, pair, x);
      PairedEntriesCancel(t, rest, pair);
    }
  }

  lemma {:induction false} EmptyMaskSumsToZero(t: seq<seq<real>>)
    ensures Sum(RowSums(Masked(t, {}))) == 0.0
  {
    var empty := Masked(t, {});
    forall c | 0 <= c < |t|
      ensures Sum(empty[c]) == 0.0
    {
      SumOfZeros(empty[c]);
    }
    SumOfZeros(RowSums(empty));
  }

  /** Taking a matched pair out of S leaves a smaller set that is still
      paired. */
  lemma {:induction false} PairRemoved(t: seq<seq<real>>, S: set<(nat, nat)>, pair: ((nat, nat)) -> (nat, nat), x: (nat, nat))
    requires Paired(t, S, pair) && x in S
    ensures Paired(t, S - {x} - {pair(x)}, pair)
    ensures |S - {x} - {pair(x)}| < |S|
  {
    var y := pair(x);
    var rest := S - {x} - {y};
    forall z | z in rest
      ensures pair(z) in rest
    {
      assert z in S && pair(pair(z)) == z;
      assert pair(y) == x;
    }
    assert S == rest + {x, y};
  }
}
