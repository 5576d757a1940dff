/** `Vector<T,N>` of src/lib/world/array.h with `T = int`.

    A vector is a value of type `seq<int>` whose length is the template
    dimension `N`. Every operation of the class that runs a loop over the
    N slots is modelled as a method with the same loop; its contract relates
    the result to a reference definition given once below. Because vectors
    are values, an operation can never change its operands: the source's
    "returns a new vector" is the only behaviour the model can express. */
module Vectors {
  import opened Errors
  import VectorCompare

  // ---------------------------------------------------------------------
  // Reference definitions (what each loop is meant to compute, per index)
  // ---------------------------------------------------------------------

  /** N copies of `t`. */
  function Fill(n: nat, t: int): (r: seq<int>)
    ensures |r| == n
    ensures forall i :: 0 <= i < n ==> r[i] == t
  {
    seq(n, _ => t)
  }

  /** Element-wise sum of two vectors of the same dimension. */
  function Plus(v: seq<int>, w: seq<int>): (r: seq<int>)
    requires |v| == |w|
    ensures |r| == |v|
    ensures forall i :: 0 <= i < |v| ==> r[i] == v[i] + w[i]
  {
    seq(|v|, i requires 0 <= i < |v| => v[i] + w[i])
  }

  /** Element-wise difference of two vectors of the same dimension. */
  function Minus(v: seq<int>, w: seq<int>): (r: seq<int>)
    requires |v| == |w|
    ensures |r| == |v|
    ensures forall i :: 0 <= i < |v| ==> r[i] == v[i] - w[i]
  {
    seq(|v|, i requires 0 <= i < |v| => v[i] - w[i])
  }

  /** Element-wise product of two vectors of the same dimension. */
  function Times(v: seq<int>, w: seq<int>): (r: seq<int>)
    requires |v| == |w|
    ensures |r| == |v|
    ensures forall i :: 0 <= i < |v| ==> r[i] == v[i] * w[i]
  {
    seq(|v|, i requires 0 <= i < |v| => v[i] * w[i])
  }

  /** `q` added to every element. */
  function PlusScalar(v: seq<int>, q: int): (r: seq<int>)
    ensures |r| == |v|
    ensures forall i :: 0 <= i < |v| ==> r[i] == v[i] + q
  {
    seq(|v|, i requires 0 <= i < |v| => v[i] + q)
  }

  /** `q` subtracted from every element. */
  function MinusScalar(v: seq<int>, q: int): (r: seq<int>)
    ensures |r| == |v|
    ensures forall i :: 0 <= i < |v| ==> r[i] == v[i] - q
  {
    seq(|v|, i requires 0 <= i < |v| => v[i] - q)
  }

  /** Every element multiplied by `q`. */
  function TimesScalar(v: seq<int>, q: int): (r: seq<int>)
    ensures |r| == |v|
    ensures forall i :: 0 <= i < |v| ==> r[i] == v[i] * q
  {
    seq(|v|, i requires 0 <= i < |v| => v[i] * q)
  }

  /** Storage of a freshly declared `Vector<T,N> r;`, whose contents the
      source leaves uninitialised. Every method below overwrites all N slots
      before returning, so which placeholder is chosen never shows in a result. */
  function Uninitialised(n: nat): (r: seq<int>)
    ensures |r| == n
  {
    Fill(n, 0)
  }

  // ---------------------------------------------------------------------
  // Construction and assignment
  // ---------------------------------------------------------------------

  /** `Vector(T t)`: every one of the N elements is `t`. */
  method FillConstruct(n: nat, t: int) returns (r: seq<int>)
    ensures r == Fill(n, t)
  {
    r := Uninitialised(n);
    for i := 0 to n
      invariant |r| == n
      invariant forall j :: 0 <= j < i ==> r[j] == t
    {
      r := r[i := t];
    }
  }

  /** `operator=(T t)`: the receiver `self` is overwritten with N copies of `t`. */
  method FillAssign(self: seq<int>, t: int) returns (r: seq<int>)
    ensures r == Fill(|self|, t)
  {
    r := self;
    for i := 0 to |self|
      invariant |r| == |self|
      invariant forall j :: 0 <= j < i ==> r[j] == t
    {
      r := r[i := t];
    }
  }

  /** `Vector(const T (&t)[N])`: a copy of a C array of the same dimension. */
  method FromArray(t: seq<int>) returns (r: seq<int>)
    ensures |r| == |t|
    ensures forall i :: 0 <= i < |t| ==> r[i] == t[i]
  {
    r := Uninitialised(|t|);
    for i := 0 to |t|
      invariant |r| == |t|
      invariant forall j :: 0 <= j < i ==> r[j] == t[j]
    {
      r := r[i := t[i]];
    }
  }

  /** `Vector(const std::vector<T> t)`: asserts `t.size() >= N`, then copies
      the first N elements of `t` in order. */
  method FromStdVector(n: nat, t: seq<int>) returns (r: Result<seq<int>>)
    ensures r.Err? <==> |t| < n
    ensures r.Err? ==> r.error == AssertionFailed("t.size() >= N")
    ensures r.Ok? ==> |r.value| == n && forall i :: 0 <= i < n ==> r.value[i] == t[i]
  {
    if |t| < n {
      return Err(AssertionFailed("t.size() >= N"));
    }
    var v := Uninitialised(n);
    for i := 0 to n
      invariant |v| == n
      invariant forall j :: 0 <= j < i ==> v[j] == t[j]
    {
      v := v[i := t[i]];
    }
    r := Ok(v);
  }

  /** `operator=(const std::vector<T>& other)`: the receiver's N elements are
      replaced by the first N elements of `other`. Unlike the constructor this
      operator performs no size check and reads `other[i]` for every `i < N`,
      so callers must supply at least N elements. */
  method AssignFromStdVector(self: seq<int>, other: seq<int>) returns (r: seq<int>)
    requires |other| >= |self|
    ensures r == other[..|self|]
  {
    r := self;
    for i := 0 to |self|
      invariant |r| == |self|
      invariant forall j :: 0 <= j < i ==> r[j] == other[j]
    {
      r := r[i := other[i]];
    }
  }

  /** Copy constructor: a deep, element-by-element copy of `other`. */
  method Copy(other: seq<int>) returns (r: seq<int>)
    ensures r == other
    ensures VectorCompare.Equal(r, other)
  {
    r := Uninitialised(|other|);
    for i := 0 to |other|
      invariant |r| == |other|
      invariant forall j :: 0 <= j < i ==> r[j] == other[j]
    {
      r := r[i := other[i]];
    }
    VectorCompare.EqualIffSame(r, other);
  }

  /** `operator=(const Vector<T,N>& other)`: the receiver is overwritten by a
      deep copy of `other`; the receiver's former contents do not survive. */
  method Assign(self: seq<int>, other: seq<int>) returns (r: seq<int>)
    requires |self| == |other|
    ensures r == other
    ensures VectorCompare.Equal(r, other)
  {
    r := self;
    for i := 0 to |self|
      invariant |r| == |self|
      invariant forall j :: 0 <= j < i ==> r[j] == other[j]
    {
      r := r[i := other[i]];
    }
    VectorCompare.EqualIffSame(r, other);
  }

  /** `VectorFactory(v0, ..., vk)` for the six overloads k = 0..5: the element
      at index i of the `Vector<T,k+1>` it returns is `vi`. */
  method VectorFactory(args: seq<int>) returns (v: seq<int>)
    requires 1 <= |args| <= 6
    ensures |v| == |args|
    ensures forall i :: 0 <= i < |args| ==> v[i] == args[i]
  {
    v := Uninitialised(|args|);
    for i := 0 to |args|
      invariant |v| == |args|
      invariant forall j :: 0 <= j < i ==> v[j] == args[j]
    {
      v := v[i := args[i]];
    }
  }

  /** `size()`: the template dimension N, whatever the contents. */
  function Size(n: nat, v: seq<int>): (r: nat)
    requires |v| == n
    ensures r == |v|
  {
    n
  }

  // ---------------------------------------------------------------------
  // Arithmetic
  // ---------------------------------------------------------------------

  /** `operator*(Q q)`: a new vector holding `v[i] * q`. */
  method MulScalar(v: seq<int>, q: int) returns (r: seq<int>)
    ensures r == TimesScalar(v, q)
  {
    r := Uninitialised(|v|);
    for i := 0 to |v|
      invariant |r| == |v|
      invariant forall j :: 0 <= j < i ==> r[j] == v[j] * q
    {
      r := r[i := v[i] * q];
    }
  }

  /** `operator*=(Q q)`: the receiver after multiplying each element in place. */
  method MulScalarInPlace(v: seq<int>, q: int) returns (r: seq<int>)
    ensures r == TimesScalar(v, q)
  {
    r := v;
    for i := 0 to |v|
      invariant |r| == |v|
      invariant forall j :: 0 <= j < i ==> r[j] == v[j] * q
      invariant forall j :: i <= j < |v| ==> r[j] == v[j]
    {
      r := r[i := r[i] * q];
    }
  }

  /** `operator*(const Vector<Q,N>& q)`: a new vector holding `v[i] * q[i]`. */
  method Mul(v: seq<int>, q: seq<int>) returns (r: seq<int>)
    requires |q| == |v|
    ensures r == Times(v, q)
  {
    r := Uninitialised(|v|);
    for i := 0 to |v|
      invariant |r| == |v|
      invariant forall j :: 0 <= j < i ==> r[j] == v[j] * q[j]
    {
      r := r[i := v[i] * q[i]];
    }
  }

  /** `operator+(Q q)`: a new vector holding `v[i] + q`. */
  method AddScalar(v: seq<int>, q: int) returns (r: seq<int>)
    ensures r == PlusScalar(v, q)
  {
    r := Uninitialised(|v|);
    for i := 0 to |v|
      invariant |r| == |v|
      invariant forall j :: 0 <= j < i ==> r[j] == v[j] + q
    {
      r := r[i := v[i] + q];
    }
  }

  /** `operator+=(Q q)`: the receiver after adding `q` to each element in place. */
  method AddScalarInPlace(v: seq<int>, q: int) returns (r: seq<int>)
    ensures r == PlusScalar(v, q)
  {
    r := v;
    for i := 0 to |v|
      invariant |r| == |v|
      invariant forall j :: 0 <= j < i ==> r[j] == v[j] + q
      invariant forall j :: i <= j < |v| ==> r[j] == v[j]
    {
      r := r[i := r[i] + q];
    }
  }

  /** `operator+(const Vector<Q,N>& q)`: a new vector holding `v[i] + q[i]`. */
  method Add(v: seq<int>, q: seq<int>) returns (r: seq<int>)
    requires |q| == |v|
    ensures r == Plus(v, q)
  {
    r := Uninitialised(|v|);
    for i := 0 to |v|
      invariant |r| == |v|
      invariant forall j :: 0 <= j < i ==> r[j] == v[j] + q[j]
    {
      r := r[i := v[i] + q[i]];
    }
  }

  /** `operator-(Q q)`: a new vector holding `v[i] - q`. */
  method SubScalar(v: seq<int>, q: int) returns (r: seq<int>)
    ensures r == MinusScalar(v, q)
  {
    r := Uninitialised(|v|);
    for i := 0 to |v|
      invariant |r| == |v|
      invariant forall j :: 0 <= j < i ==> r[j] == v[j] - q
    {
      r := r[i := v[i] - q];
    }
  }

  /** `operator-(const Vector<Q,N>& q)`: a new vector holding `v[i] - q[i]`. */
  method Sub(v: seq<int>, q: seq<int>) returns (r: seq<int>)
    requires |q| == |v|
    ensures r == Minus(v, q)
  {
    r := Uninitialised(|v|);
    for i := 0 to |v|
      invariant |r| == |v|
      invariant forall j :: 0 <= j < i ==> r[j] == v[j] - q[j]
    {
      r := r[i := v[i] - q[i]];
    }
  }

  // ---------------------------------------------------------------------
  // Algebraic facts about the reference definitions
  // ---------------------------------------------------------------------

  /** Subtracting the vector that was added gives back the original:
      `(a + b) - b == a` for integer elements. */
  lemma AddThenSubRestores(a: seq<int>, b: seq<int>)
    requires |a| == |b|
    ensures Minus(Plus(a, b), b) == a
  {
  }

  /** The same round trip for a scalar: `(a + q) - q == a`. */
  lemma AddScalarThenSubRestores(a: seq<int>, q: int)
    ensures MinusScalar(PlusScalar(a, q), q) == a
  {
  }
}
