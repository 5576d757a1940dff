/** The comparison operators of `Vector<T,N>` (src/lib/world/array.h) with
    `T = int`: element-wise `==`, its negation `!=`, and the lexicographic `<`.

    Each operator's loop is modelled as a recursive scan that starts at index
    `i` and exits the way the loop does; the lemmas below state what the
    scans decide. */
module VectorCompare {
  import opened Options

  // ---------------------------------------------------------------------
  // operator== and operator!=
  // ---------------------------------------------------------------------

  /** The loop of `operator==` from index `i` on: false at the first index
      where the elements differ, true once the end is reached. */
  function EqualFrom(v: seq<int>, w: seq<int>, i: nat): bool
    requires |v| == |w| && i <= |v|
    decreases |v| - i
  {
    if i == |v| then true
    else if v[i] != w[i] then false
    else EqualFrom(v, w, i + 1)
  }

  /** `operator==`: true iff the two vectors hold the same elements. */
  function Equal(v: seq<int>, w: seq<int>): (r: bool)
    requires |v| == |w|
    ensures r <==> v == w
  {
    EqualFromAgrees(v, w, 0);
    EqualFrom(v, w, 0)
  }

  /** `operator!=`, defined by the source as `!(*this == other)`: true iff
      some index holds different elements. */
  function NotEqual(v: seq<int>, w: seq<int>): (r: bool)
    requires |v| == |w|
    ensures r <==> exists k :: 0 <= k < |v| && v[k] != w[k]
  {
    !Equal(v, w)
  }

  /** The scan from `i` succeeds exactly when the elements agree at every
      index from `i` on. */
  lemma {:induction false} EqualFromAgrees(v: seq<int>, w: seq<int>, i: nat)
    requires |v| == |w| && i <= |v|
    ensures EqualFrom(v, w, i) <==> forall k :: i <= k < |v| ==> v[k] == w[k]
    decreases |v| - i
  {
    if i < |v| && v[i] == w[i] {
      EqualFromAgrees(v, w, i + 1);
    }
  }

  /** `==` holds iff the elements agree at every index, i.e. iff the two
      vectors are the same value. */
  lemma EqualIffSame(v: seq<int>, w: seq<int>)
    requires |v| == |w|
    ensures Equal(v, w) <==> forall k :: 0 <= k < |v| ==> v[k] == w[k]
    ensures Equal(v, w) <==> v == w
  {
    EqualFromAgrees(v, w, 0);
  }

  // ---------------------------------------------------------------------
  // operator<
  // ---------------------------------------------------------------------

  /** The loop of `operator<` from index `i` on: `Some(true)` at the first
      index where `v` is smaller, `Some(false)` at the first where it is
      larger, `None` when the loop runs to completion. */
  function LessScan(v: seq<int>, w: seq<int>, i: nat): Option<bool>
    requires |v| == |w| && i <= |v|
    decreases |v| - i
  {
    if i == |v| then None
    else if v[i] < w[i] then Some(true)
    else if v[i] > w[i] then Some(false)
    else LessScan(v, w, i + 1)
  }

  /** `operator<` as written: the loop, and after it the test of the last
      elements (`return false` if they are equal, `return true` otherwise).
      The source reads `v[N-1]` after the loop, which is out of bounds for
      `N == 0`, so the model requires `N > 0`. */
  function Less(v: seq<int>, w: seq<int>): (r: bool)
    requires |v| == |w| > 0
    ensures r <==> LexLess(v, w)
  {
    LessScanDecidesAtFirstDifference(v, w, 0);
    LessScanExhaustsOnAgreement(v, w, 0);
    match LessScan(v, w, 0)
    case Some(decided) => decided
    case None => if v[|v| - 1] == w[|v| - 1] then false else true
  }

  /** `k` is the first index at which `v` and `w` differ. */
  ghost predicate FirstDifference(v: seq<int>, w: seq<int>, k: int)
    requires |v| == |w|
  {
    && 0 <= k < |v|
    && v[k] != w[k]
    && forall j :: 0 <= j < k ==> v[j] == w[j]
  }

  /** Lexicographic order: `v` is smaller at the first index where the two differ. */
  ghost predicate LexLess(v: seq<int>, w: seq<int>)
    requires |v| == |w|
  {
    exists k :: FirstDifference(v, w, k) && v[k] < w[k]
  }

  /** The loop runs to completion exactly when the elements from `i` on agree. */
  lemma {:induction false} LessScanExhaustsOnAgreement(v: seq<int>, w: seq<int>, i: nat)
    requires |v| == |w| && i <= |v|
    ensures LessScan(v, w, i) == None <==> forall k :: i <= k < |v| ==> v[k] == w[k]
    decreases |v| - i
  {
    if i < |v| && v[i] == w[i] {
      LessScanExhaustsOnAgreement(v, w, i + 1);
    }
  }

  /** When the elements before `i` agree, a decision by the loop from `i`
      is the comparison at the first difference. */
  lemma {:induction false} LessScanDecidesAtFirstDifference(v: seq<int>, w: seq<int>, i: nat)
    requires |v| == |w| && i <= |v|
    requires forall j :: 0 <= j < i ==> v[j] == w[j]
    ensures LessScan(v, w, i) == Some(true) <==> LexLess(v, w)
    ensures LessScan(v, w, i) == Some(false) <==> LexLess(w, v)
    decreases |v| - i
  {
    if i == |v| {
      assert !LexLess(v, w) && !LexLess(w, v);
    } else if v[i] < w[i] {
      assert FirstDifference(v, w, i);
      FirstDifferenceUnique(v, w, i);
    } else if v[i] > w[i] {
      assert FirstDifference(w, v, i);
      FirstDifferenceUnique(w, v, i);
    } else {
      LessScanDecidesAtFirstDifference(v, w, i + 1);
    }
  }

  /** Two vectors have at most one first difference. */
  lemma FirstDifferenceUnique(v: seq<int>, w: seq<int>, k: int)
    requires |v| == |w| && FirstDifference(v, w, k)
    ensures forall m :: FirstDifference(v, w, m) ==> m == k
    ensures forall m :: FirstDifference(w, v, m) ==> m == k
  {
  }

  /** The final `return true` of `operator<` is dead code for integer
      elements: when the loop runs to completion the last elements are
      equal, so the `return false` before it is always taken. */
  lemma LessFinalReturnTrueUnreachable(v: seq<int>, w: seq<int>)
    requires |v| == |w| > 0
    ensures LessScan(v, w, 0) == None ==> v[|v| - 1] == w[|v| - 1]
  {
    LessScanExhaustsOnAgreement(v, w, 0);
  }

  /** Equal vectors are never less. */
  lemma LessIrreflexive(v: seq<int>)
    requires |v| > 0
    ensures !Less(v, v)
  {
  }

  /** Vectors that differ have a first difference. */
  lemma {:induction false} DifferentHaveFirstDifference(v: seq<int>, w: seq<int>, i: nat)
    requires |v| == |w| && i <= |v|
    requires forall j :: 0 <= j < i ==> v[j] == w[j]
    requires exists k :: i <= k < |v| && v[k] != w[k]
    ensures exists k :: FirstDifference(v, w, k)
    decreases |v| - i
  {
    if v[i] != w[i] {
      assert FirstDifference(v, w, i);
    } else {
      var k :| i <= k < |v| && v[k] != w[k];
      assert k != i;
      DifferentHaveFirstDifference(v, w, i + 1);
    }
  }

  /** For integer elements exactly one of `a < b`, `b < a` and `a == b` holds. */
  lemma LessTrichotomy(v: seq<int>, w: seq<int>)
    requires |v| == |w| > 0
    ensures Less(v, w) || Less(w, v) || Equal(v, w)
    ensures !(Less(v, w) && Less(w, v))
    ensures !(Less(v, w) && Equal(v, w))
    ensures !(Less(w, v) && Equal(v, w))
  {
    EqualIffSame(v, w);
    if v != w {
      assert exists k :: 0 <= k < |v| && v[k] != w[k] by {
        assert !(forall k :: 0 <= k < |v| ==> v[k] == w[k]);
      }
      DifferentHaveFirstDifference(v, w, 0);
      var k :| FirstDifference(v, w, k);
      FirstDifferenceUnique(v, w, k);
      assert FirstDifference(w, v, k);
    }
  }

  /** `operator<` is transitive, so it imposes a strict total order on
      vectors of one dimension. */
  lemma LessTransitive(u: seq<int>, v: seq<int>, w: seq<int>)
    requires |u| == |v| == |w| > 0
    requires Less(u, v) && Less(v, w)
    ensures Less(u, w)
  {
    var a :| FirstDifference(u, v, a) && u[a] < v[a];
    var b :| FirstDifference(v, w, b) && v[b] < w[b];
    var m := if a < b then a else b;
    assert FirstDifference(u, w, m) && u[m] < w[m];
  }
}
