# Vector: a verified model of the in-place buffer wrapper

This project models `Vector<T>` from `stl_algorithms/Vector.h`. The class wraps one
`std::vector<T>` buffer. Its public mutators rewrite that buffer in place with a standard
algorithm each:

- `Fill(value)` uses `std::fill`.
- `Fill(count, value)` uses `std::fill_n`.
- `FillwithSequentialValues(start)` uses `std::iota`.
- The two `FillwithRandomGeneratedValues` overloads use `std::generate` and `std::generate_n`.
- `ReplaceValues(a, b)` uses `std::replace`.

The model is one Dafny module, `StlAlgorithms` (`Vector.dfy`), in two layers:

- Specification functions on `seq<int>`: `Filled`, `FilledN`, `Iota`, `Replaced` and
  `GeneratedN`. Each is defined recursively. Its `ensures` clauses state, position by position,
  what the algorithm leaves in the buffer and that the length does not change. Lemmas relate them
  to each other: idempotence, composition, "no `a` remains", multiset counts, and generate with a
  constant or a counting generator being fill or iota.
- The class `Vector`, with the buffer as an `array<int>` field. Each mutator is a `for` loop over
  the array that writes in place. Its `ensures` equates the new contents with the specification
  function applied to the old contents. The const `GetVector` is the abstract view. The non-const
  accessor returns the array itself, so writes through it alias the buffer.

The element type `T` is fixed to `int`. The generator that `std::generate` and `std::generate_n`
call is an abstract value source, `draw: nat -> int`, where `draw(k)` is the value its `k`-th call
returns during that one operation.

## Model

| member | source | states |
|---|---|---|
| `StlAlgorithms.Filled` | stl_algorithms/Vector.h:153-155 | fill keeps the length and makes every element equal the fill value |
| `StlAlgorithms.FilledN` | stl_algorithms/Vector.h:162-164 | fill_n keeps the length, sets positions below `count` to the value and leaves positions from `count` on unchanged; defined only for `count` at most the length |
| `StlAlgorithms.Iota` | stl_algorithms/Vector.h:172-174 | iota over `n` elements yields exactly `n` elements, element `i` being `start + i` |
| `StlAlgorithms.Replaced` | stl_algorithms/Vector.h:199-201 | replace keeps the length, turns every element equal to `a` into `b` and leaves every other element unchanged |
| `StlAlgorithms.GeneratedN` | stl_algorithms/Vector.h:194-197 | generate_n keeps the length, stores the `k`-th generator value at position `k` for `k` below `count`, and leaves the rest unchanged |
| `StlAlgorithms.FillIdempotent` | stl_algorithms/Vector.h:153-155 | filling twice with the same value equals filling once |
| `StlAlgorithms.FillNWholeIsFill` | stl_algorithms/Vector.h:153-164 | fill_n over the full length equals fill |
| `StlAlgorithms.FillNZeroIsIdentity` | stl_algorithms/Vector.h:162-164 | fill_n with count zero leaves the buffer unchanged |
| `StlAlgorithms.FillNCompose` | stl_algorithms/Vector.h:162-164 | two fill_n calls with one value equal one fill_n over the longer prefix |
| `StlAlgorithms.FilledCount` | stl_algorithms/Vector.h:153-155 | after fill, the buffer holds the fill value exactly length times and no other value |
| `StlAlgorithms.IotaSuccessive` | stl_algorithms/Vector.h:172-174 | each iota element is one more than the element before it |
| `StlAlgorithms.IotaStrictlyIncreasing` | stl_algorithms/Vector.h:172-174 | an iota range is strictly increasing, so its values are distinct |
| `StlAlgorithms.ReplaceRemovesAll` | stl_algorithms/Vector.h:199-201 | after replacing `a` by a different `b`, no element equals `a` |
| `StlAlgorithms.ReplaceSameIsIdentity` | stl_algorithms/Vector.h:199-201 | replacing `a` by `a` leaves the buffer unchanged |
| `StlAlgorithms.ReplaceIdempotent` | stl_algorithms/Vector.h:199-201 | a second identical replace changes nothing more |
| `StlAlgorithms.ReplaceCounts` | stl_algorithms/Vector.h:199-201 | for `a` different from `b`, replace leaves no `a`; the count of `b` becomes the old count of `a` plus the old count of `b`; every other value keeps its count |
| `StlAlgorithms.ReplaceAfterFill` | stl_algorithms/Vector.h:153-155 | replacing `a` by `b` in a buffer filled with `a` equals filling with `b` |
| `StlAlgorithms.GenerateConstantIsFillN` | stl_algorithms/Vector.h:194-197 | generate_n with a constant generator equals fill_n with that constant |
| `StlAlgorithms.GenerateCountingIsIota` | stl_algorithms/Vector.h:182-185 | generate over the whole buffer, with a generator whose `k`-th call returns `start + k`, equals iota from `start` |
| `StlAlgorithms.Vector.GetVector` | stl_algorithms/Vector.h:58 | the const accessor yields exactly the buffer's elements, in order, with the buffer's length |
| `StlAlgorithms.Vector.GetVectorRef` | stl_algorithms/Vector.h:65 | the non-const accessor returns the buffer itself, not a copy |
| `StlAlgorithms.Vector.constructor` | stl_algorithms/Vector.h:44 | the default constructor yields a fresh, empty buffer; its fill with 0 changes nothing |
| `StlAlgorithms.Vector.WithSize` | stl_algorithms/Vector.h:51 | the sized constructor yields a fresh buffer of exactly `size` elements, all zero |
| `StlAlgorithms.Vector.Fill` | stl_algorithms/Vector.h:153-155 | the loop leaves the buffer equal to `Filled` of its old contents |
| `StlAlgorithms.Vector.FillN` | stl_algorithms/Vector.h:162-164 | the loop, for `count` at most the length, leaves the buffer equal to `FilledN` of its old contents |
| `StlAlgorithms.Vector.FillWithSequentialValues` | stl_algorithms/Vector.h:172-174 | the loop, incrementing a running value, leaves the buffer equal to `Iota` of its length from `start` |
| `StlAlgorithms.Vector.FillWithRandomGeneratedValues` | stl_algorithms/Vector.h:182-185 | the loop stores the `k`-th generator value at every position `k` of the buffer |
| `StlAlgorithms.Vector.FillWithRandomGeneratedValuesN` | stl_algorithms/Vector.h:194-197 | the loop, for `count` at most the length, leaves the buffer equal to `GeneratedN` of its old contents |
| `StlAlgorithms.Vector.ReplaceValues` | stl_algorithms/Vector.h:199-201 | the loop leaves the buffer equal to `Replaced` of its old contents |

`StlAlgorithms.Client` uses only these contracts. It walks a five-element buffer through fill,
iota, generate_n, fill_n, replace and a write through the non-const accessor, and asserts the
contents after each step.

## Left out

- Element type: `T` is fixed to `int`. The instantiation `Vector<double>` would need floating
  point, which is not modelled.
- StlAlgorithms.Vector.FillWithSequentialValues: models unbounded integers. For a fixed-width `T`,
  a running value that passes the type's maximum is signed overflow, which C++ leaves undefined.
  The model gives the mathematically intended values `start + i`.
- The generator: `std::function<T(void)>` is a value source supplied as a parameter. The default
  `RandomGenerator` (Vector.h:204-208) reads `std::random_device`, a hardware entropy source, and is
  not modelled. The same holds for the default arguments that name it (Vector.h:183, 195). How a
  stateful generator's state carries over from one call of a mutator to the next is up to the
  caller, who supplies the `draw` values of each call.
- `fill_n` and `generate_n` with `count` beyond the length are undefined behaviour in C++. The
  model makes `count <= length` a precondition.
- Resizing through the non-const `GetVector()` (for example `push_back`): the model's storage is a
  fixed-length array, so length changes made by callers through the reference are not modelled.
  Element writes through it are modelled.
- The nested `Iterator` class and `Begin`/`End` (Vector.h:70-146): they are raw pointer arithmetic
  and ill-formed as written. A `T&` initialises a `T*` at line 81, and lines 144 and 146 pass
  `std::vector` iterators to that constructor.
- `operator<<` for `std::vector` (Vector.h:22-30): output formatting to a stream.
- The `mSize` field (Vector.h:210): the default constructor leaves it uninitialised, and it falls out
  of step once callers resize through `GetVector()`. The model uses the buffer's length instead.
- The copy constructor used by callers is the compiler-generated one. It is not modelled.
