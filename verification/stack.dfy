/** `Stack<T,N>` of src/lib/world/array.h with `T = int`: a bounded stack
    kept in a `Vector<T,N>` of slots `t` and a count `n` of occupied slots.

    The slots at and above `n` hold whatever was last written there (or the
    uninitialised contents of the vector); only the `n` slots below the top
    are the stack's elements. */
module Stacks {
  import opened Errors

  datatype Stack = Stack(t: seq<int>, n: nat)

  /** The class invariant: the count never exceeds the capacity `N = |t|`. */
  predicate Valid(s: Stack) {
    s.n <= |s.t|
  }

  /** The elements on the stack, bottom first. */
  function Contents(s: Stack): (xs: seq<int>)
    requires Valid(s)
    ensures |xs| == s.n
  {
    s.t[..s.n]
  }

  /** `Stack()`: the slot vector is default-constructed, so its contents are
      whatever `storage` (of length N) holds, and the count starts at 0. */
  function New(storage: seq<int>): (s: Stack)
    ensures Valid(s)
    ensures |s.t| == |storage|
    ensures s.n == 0 && Contents(s) == []
  {
    Stack(storage, 0)
  }

  /** `push`: asserts `n < N`, writes `value` at slot `n` and increments `n`. */
  function Push(s: Stack, value: int): (r: Result<Stack>)
    requires Valid(s)
    ensures r.Err? <==> s.n == |s.t|
    ensures r.Err? ==> r.error == AssertionFailed("n < N")
    ensures r.Ok? ==> Valid(r.value) && |r.value.t| == |s.t| && r.value.n == s.n + 1
    ensures r.Ok? ==> r.value.t[s.n] == value
    ensures r.Ok? ==> forall i :: 0 <= i < |s.t| && i != s.n ==> r.value.t[i] == s.t[i]
    ensures r.Ok? ==> Contents(r.value) == Contents(s) + [value]
  {
    if s.n < |s.t| then
      var t' := s.t[s.n := value];
      assert t'[..s.n + 1] == s.t[..s.n] + [value];
      Ok(Stack(t', s.n + 1))
    else
      Err(AssertionFailed("n < N"))
  }

  /** What `pop` leaves behind: the stack after the call and the element
      the returned reference designates. */
  datatype Popped = Popped(stack: Stack, top: int)

  /** `pop`: asserts `n > 0`, decrements `n` and returns the element at the
      new `n`. The slot itself is not cleared. */
  function Pop(s: Stack): (r: Result<Popped>)
    requires Valid(s)
    ensures r.Err? <==> s.n == 0
    ensures r.Err? ==> r.error == AssertionFailed("n > 0")
    ensures r.Ok? ==> Valid(r.value.stack) && r.value.stack.t == s.t && r.value.stack.n == s.n - 1
    ensures r.Ok? ==> Contents(s) == Contents(r.value.stack) + [r.value.top]
  {
    if s.n > 0 then
      var n' := s.n - 1;
      assert s.t[..s.n] == s.t[..n'] + [s.t[n']];
      Ok(Popped(Stack(s.t, n'), s.t[n']))
    else
      Err(AssertionFailed("n > 0"))
  }

  /** `size`: the number of elements on the stack, never more than N. */
  function Size(s: Stack): (r: nat)
    requires Valid(s)
    ensures r == |Contents(s)|
    ensures r <= |s.t|
  {
    s.n
  }

  /** Pushing `x` and then popping returns `x` and restores the previous
      size and contents; no slot other than the old top is touched. */
  lemma PushThenPop(s: Stack, x: int)
    requires Valid(s) && s.n < |s.t|
    ensures Push(s, x).Ok?
    ensures var p := Pop(Push(s, x).value);
      && p.Ok? && p.value.top == x
      && Size(p.value.stack) == Size(s)
      && Contents(p.value.stack) == Contents(s)
  {
  }

  // ---------------------------------------------------------------------
  // Sequences of operations against an unbounded-list reference
  // ---------------------------------------------------------------------

  datatype Op = PushOp(value: int) | PopOp

  /** Runs `ops` in order; the result carries the final stack and the values
      popped, in the order they were popped. The first failed assertion
      stops the run. */
  function Run(s: Stack, ops: seq<Op>): (r: Result<(Stack, seq<int>)>)
    requires Valid(s)
    ensures r.Ok? ==> Valid(r.value.0) && |r.value.0.t| == |s.t|
    decreases |ops|
  {
    if |ops| == 0 then Ok((s, []))
    else match ops[0]
      case PushOp(x) =>
        var s' :- Push(s, x);
        Run(s', ops[1..])
      case PopOp =>
        var p :- Pop(s);
        var rest :- Run(p.stack, ops[1..]);
        Ok((rest.0, [p.top] + rest.1))
  }

  /** The reference discipline: a list of at most `cap` elements with the
      top at the end. A push onto a full list and a pop from an empty one
      fail with the assertions the stack checks. */
  function ListRun(xs: seq<int>, cap: nat, ops: seq<Op>): Result<(seq<int>, seq<int>)>
    decreases |ops|
  {
    if |ops| == 0 then Ok((xs, []))
    else match ops[0]
      case PushOp(x) =>
        if |xs| < cap then ListRun(xs + [x], cap, ops[1..])
        else Err(AssertionFailed("n < N"))
      case PopOp =>
        if |xs| > 0 then
          var rest :- ListRun(xs[..|xs| - 1], cap, ops[1..]);
          Ok((rest.0, [xs[|xs| - 1]] + rest.1))
        else Err(AssertionFailed("n > 0"))
  }

  /** What a run of the stack shows through its contents. */
  function Observe(r: Result<(Stack, seq<int>)>): Result<(seq<int>, seq<int>)>
    requires r.Ok? ==> Valid(r.value.0)
  {
    match r
    case Ok((s, popped)) => Ok((Contents(s), popped))
    case Err(e) => Err(e)
  }

  /** The bounded stack follows LIFO order: any sequence of pushes and pops
      fails exactly when the list reference fails, with the same assertion,
      and otherwise pops the same values and ends with the same contents. */
  lemma {:induction false} RunFollowsList(s: Stack, ops: seq<Op>)
    requires Valid(s)
    ensures Observe(Run(s, ops)) == ListRun(Contents(s), |s.t|, ops)
    decreases |ops|
  {
    if |ops| > 0 {
      match ops[0]
      case PushOp(x) =>
        if s.n < |s.t| {
          RunFollowsList(Push(s, x).value, ops[1..]);
        }
      case PopOp =>
        if s.n > 0 {
          var p := Pop(s).value;
          RunFollowsList(p.stack, ops[1..]);
          assert Contents(s)[..|Contents(s)| - 1] == Contents(p.stack);
        }
    }
  }
}
