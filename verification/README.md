# Fixed-size containers of the MADNESS world layer, in Dafny

This project models the fixed-size containers of `src/lib/world/array.h`:
the fixed-dimension `Vector<T,N>` (construction, assignment, comparison,
element-wise and scalar arithmetic, `size`), its stream printer
`operator<<`, the `VectorFactory` overloads, and the bounded `Stack<T,N>`
built on a `Vector<T,N>`. The element type `T` is `int`, so all arithmetic
is exact.

A `Vector<int,N>` is a Dafny `seq<int>` of length `N`. Every constructor,
assignment and arithmetic operator is a method with the same `for` loop as
the source, and its contract ties the result to a per-index reference
definition (`Vectors.Plus`, `Vectors.TimesScalar`, ...). The loops of
`operator==` and `operator<` are recursive scans that exit where the C++
loop returns. A `Stack<int,N>` is an
immutable record of its slot vector and its count. A failing `MADNESS_ASSERT`
becomes an `Err(AssertionFailed(condition))` result that names the asserted
condition.

Files:
- `errors.dfy` (module `Errors`): the error and result types.
- `options.dfy` (module `Options`): the optional-value type.
- `vectors.dfy` (module `Vectors`): constructors, assignments, `VectorFactory`, `size`, arithmetic.
- `compare.dfy` (module `VectorCompare`): `operator==`, `operator!=`, `operator<`.
- `print.dfy` (module `VectorPrint`): `operator<<`, with a parser as its partner.
- `stack.dfy` (module `Stacks`): `Stack<T,N>`, plus a list reference for sequences of operations.

Modelling decisions:
- `operator<` reads `v[N-1]` after its loop. That read is out of bounds for
  `N == 0`, so `VectorCompare.Less` requires `N > 0`. For integer elements
  the final `return true` (array.h:88) is dead code.
  `VectorCompare.LessFinalReturnTrueUnreachable` proves this.
- `operator=(const std::vector<T>&)` (array.h:56-59) reads `other[i]` for every
  `i < N` without the size assertion the constructor makes (array.h:40). The
  model therefore requires at least N elements of its callers.
- A default-constructed `Vector<T,N>` has unspecified contents. The
  out-of-place operators start from such a vector (`Vectors.Uninitialised`).
  Every slot is overwritten, so no result depends on those contents.
  `Stacks.New` takes the slot contents as a parameter.
- Vectors are values, so an operator cannot change its operands. The source
  promises the out-of-place operators leave their operands alone; in the model
  this holds by construction.
- The macrotask scheduler, partitioner and record store used by
  `src/madness/mra/test_vectormacrotask.cc` are not part of this model. Their
  implementations are in headers outside the modelled files.

## Model

| member | source | states |
|---|---|---|
| `Vectors.Uninitialised` | src/lib/world/array.h:25-26 | a default-constructed vector has N slots; a fixed placeholder stands for their unspecified contents, and every operation below overwrites all of them |
| `Vectors.FillConstruct` | src/lib/world/array.h:29-31 | the fill constructor gives N elements, and every one of them equals the scalar |
| `Vectors.FillAssign` | src/lib/world/array.h:62-65 | fill assignment overwrites every one of the receiver's N elements with the scalar and keeps the dimension |
| `Vectors.FromArray` | src/lib/world/array.h:34-36 | construction from a C array of dimension N copies each element to the same index |
| `Vectors.FromStdVector` | src/lib/world/array.h:39-42 | construction from a `std::vector` fails with the assertion `t.size() >= N` exactly when it has fewer than N elements; otherwise the result holds its first N elements in order |
| `Vectors.AssignFromStdVector` | src/lib/world/array.h:56-59 | assignment from a `std::vector` with at least N elements leaves the receiver equal to that vector's first N elements |
| `Vectors.Copy` | src/lib/world/array.h:45-47 | the copy constructor's result is the same value as the source and compares `==` to it |
| `Vectors.Assign` | src/lib/world/array.h:50-53 | after copy assignment the receiver is the same value as `other` and compares `==` to it, whatever it held before |
| `Vectors.VectorFactory` | src/lib/world/array.h:258-324 | each of the arity-1 to arity-6 factories returns a vector whose dimension is its number of arguments and whose element i is argument i |
| `Vectors.Size` | src/lib/world/array.h:200-202 | `size()` is the number of elements the vector holds |
| `Vectors.MulScalar` | src/lib/world/array.h:104-109 | scalar `*` returns the vector with `r[i] = v[i] * q` at every index |
| `Vectors.MulScalarInPlace` | src/lib/world/array.h:114-118 | in-place `*= q` leaves the receiver equal to what out-of-place `* q` returns |
| `Vectors.Mul` | src/lib/world/array.h:123-128 | vector `*` returns `r[i] = v[i] * q[i]` at every index |
| `Vectors.AddScalar` | src/lib/world/array.h:133-138 | scalar `+` returns `r[i] = v[i] + q` at every index |
| `Vectors.AddScalarInPlace` | src/lib/world/array.h:143-147 | in-place `+= q` leaves the receiver equal to what out-of-place `+ q` returns |
| `Vectors.Add` | src/lib/world/array.h:152-157 | vector `+` returns `r[i] = v[i] + q[i]` at every index |
| `Vectors.SubScalar` | src/lib/world/array.h:162-167 | scalar `-` returns `r[i] = v[i] - q` at every index |
| `Vectors.Sub` | src/lib/world/array.h:172-177 | vector `-` returns `r[i] = v[i] - q[i]` at every index |
| `Vectors.AddThenSubRestores` | src/lib/world/array.h:152-177 | for integer vectors `(a + b) - b == a` |
| `Vectors.AddScalarThenSubRestores` | src/lib/world/array.h:133-167 | for an integer scalar `(a + q) - q == a` |
| `VectorCompare.EqualFromAgrees` | src/lib/world/array.h:69-71 | the `==` loop started at index i returns true iff the elements agree at every index from i on |
| `VectorCompare.EqualIffSame` | src/lib/world/array.h:68-72 | `==` holds iff the elements agree at every index, which is iff the two vectors are the same value |
| `VectorCompare.Equal` | src/lib/world/array.h:68-72 | `==` holds iff the two vectors are the same value |
| `VectorCompare.NotEqual` | src/lib/world/array.h:75-77 | `!=`, defined as the negation of `==`, holds iff some index holds different elements |
| `VectorCompare.LessScanExhaustsOnAgreement` | src/lib/world/array.h:83-86 | the `<` loop runs to completion from index i iff the elements agree at every index from i on |
| `VectorCompare.LessScanDecidesAtFirstDifference` | src/lib/world/array.h:83-86 | when the elements before i agree, the loop returns true iff `v` is smaller at the first difference and false iff it is larger there |
| `VectorCompare.LessFinalReturnTrueUnreachable` | src/lib/world/array.h:87-88 | when the loop runs to completion the last elements are equal, so the final `return true` is never reached for integer elements |
| `VectorCompare.Less` | src/lib/world/array.h:82-89 | for N > 0, `a < b` (the loop and the test after it) holds iff `a` is smaller at the first index where the two differ |
| `VectorCompare.LessIrreflexive` | src/lib/world/array.h:82-89 | equal vectors are never less |
| `VectorCompare.LessTrichotomy` | src/lib/world/array.h:68-89 | for N > 0 exactly one of `a < b`, `b < a` and `a == b` holds |
| `VectorCompare.LessTransitive` | src/lib/world/array.h:79-89 | `<` is transitive, so it is the standard ordering the comment promises |
| `VectorPrint.Print` | src/lib/world/array.h:217-226 | the printer's output is `[`, the decimal texts of the N elements joined by single commas, then `]` |
| `VectorPrint.DecimalRoundTrip` | src/lib/world/array.h:221 | the decimal text written for any integer element reads back as that integer |
| `VectorPrint.PrintRoundTrip` | src/lib/world/array.h:217-226 | parsing the printed text gives back the printed vector, so no element or order information is lost |
| `VectorPrint.RenderBrackets` | src/lib/world/array.h:219-224 | the printed text opens with `[` and closes with `]` |
| `VectorPrint.RenderCommaCount` | src/lib/world/array.h:220-223 | the printed text holds exactly N-1 commas for N > 0 and none for N == 0 |
| `VectorPrint.RenderNoTrailingComma` | src/lib/world/array.h:220-223 | for N > 0 the character before `]` is not a comma |
| `Stacks.New` | src/lib/world/array.h:237 | a new stack has size 0 and holds no elements |
| `Stacks.Push` | src/lib/world/array.h:239-242 | push fails with the assertion `n < N` exactly when the stack is full; otherwise it writes the value at index n, increments the size by one, leaves every other slot alone and appends the value to the contents |
| `Stacks.Pop` | src/lib/world/array.h:244-247 | pop fails with the assertion `n > 0` exactly when the stack is empty; otherwise it decrements the size, leaves the slots alone and returns the top element, which is the last element of the contents |
| `Stacks.Size` | src/lib/world/array.h:249-251 | the size is the number of elements held and never exceeds N |
| `Stacks.PushThenPop` | src/lib/world/array.h:239-247 | pushing x onto a non-full stack and then popping returns x and restores the previous size and contents |
| `Stacks.RunFollowsList` | src/lib/world/array.h:231-252 | any sequence of pushes and pops fails exactly when a capacity-N list stack does, with the same assertion; otherwise it pops the same values in the same order and ends with the same contents (LIFO order) |

## Left out

- `serialize` and `hash` (array.h:205-213) are calls into the archive and hashing layers, which are not part of this model.
- The raw-pointer iterators `begin`/`end` (array.h:180-197) are represented by the sequence itself.
- `operator[]` (array.h:92-99) is sequence indexing `v[i]`. A write through the returned reference is sequence update `v[i := x]`.
- Floating-point element types are not modelled. NaN breaks the trichotomy of `operator<`, and the dead-code result holds only for totally ordered `T`.
- A scalar or vector operand of a different type `Q` with implicit conversion to `T` is not modelled; every operand is `int`.
- Machine-integer overflow is not modelled: elements are unbounded integers, where C++ `int` overflow is undefined behaviour.
- `MADNESS_ASSERT` is modelled as always enabled and always reporting failure. The macro's configuration lives in `world/worldexc.h`, which is not part of this model.
- `Vectors.Uninitialised`: the source leaves a default-constructed vector's contents unspecified. The model uses a fixed placeholder of zeros, so it says nothing about reading a slot before it is written; no modelled operation does so.
- `VectorPrint.Print`: the stream is assumed to be in its default state: the classic locale, decimal base, and no `showpos` or field width. The element texts and the round trip `VectorPrint.PrintRoundTrip` hold only in that state. With a grouping locale, for example, `[1,234567]` and `[1234,567]` would both print as `[1,234,567]`.
- `Stacks.Pop`: returns the element's value. The source returns a reference into the slot, and a later `push` that reuses the slot changes what that reference reads.
- `src/madness/mra/test_vectormacrotask.cc`, `src/apps/molresponse/iterate_freq.cc` and `src/lib/world/binfsar.h` are not part of this model. They are a distributed test harness, a floating-point response solver, and a file-stream archive wrapper whose cookie constant is defined in a header that is not part of this model.
