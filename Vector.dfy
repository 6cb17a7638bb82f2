/**
 * A model of the buffer class `Vector<T>`: a wrapper around one growable
 * buffer whose mutators rewrite the buffer in place with the standard
 * algorithms fill, fill_n, iota, generate, generate_n and replace.
 *
 * The element type is fixed to `int`. The meaning of each algorithm is given
 * twice: once as a recursive function on sequences (the specification used by
 * the class), whose `ensures` clauses say position by position what the
 * algorithm leaves in the buffer, and once as a loop over the array in the
 * class itself, proved equal to that function.
 */
module StlAlgorithms {

  // ---------------------------------------------------------------------
  // Specification of the algorithms, on sequences
  // ---------------------------------------------------------------------

  /** std::fill over the whole range: every element becomes `v`. */
  function Filled(s: seq<int>, v: int): (r: seq<int>)
    ensures |r| == |s|
    ensures forall i :: 0 <= i < |r| ==> r[i] == v
  {
    if s == [] then [] else [v] + Filled(s[1..], v)
  }

  /**
   * std::fill_n from the start: the first `count` elements become `v`, the
   * rest keep their value. Running past the end is undefined, hence the
   * precondition.
   */
  function FilledN(s: seq<int>, count: nat, v: int): (r: seq<int>)
    requires count <= |s|
    ensures |r| == |s|
    ensures forall i :: 0 <= i < count ==> r[i] == v
    ensures forall i :: count <= i < |s| ==> r[i] == s[i]
  {
    if count == 0 then s else [v] + FilledN(s[1..], count - 1, v)
  }

  /**
   * std::iota over a range of `n` elements: element `i` is `start + i`,
   * obtained by incrementing the running value once per element.
   */
  function Iota(n: nat, start: int): (r: seq<int>)
    ensures |r| == n
    ensures forall i :: 0 <= i < n ==> r[i] == start + i
  {
    if n == 0 then [] else [start] + Iota(n - 1, start + 1)
  }

  /** The value std::replace leaves in place of `x`. */
  function ReplacedValue(x: int, a: int, b: int): int
  {
    if x == a then b else x
  }

  /**
   * std::replace over the whole range: every element equal to `a` becomes
   * `b`, every other element keeps its value.
   */
  function Replaced(s: seq<int>, a: int, b: int): (r: seq<int>)
    ensures |r| == |s|
    ensures forall i :: 0 <= i < |s| ==> (s[i] == a ==> r[i] == b)
    ensures forall i :: 0 <= i < |s| ==> (s[i] != a ==> r[i] == s[i])
  {
    if s == [] then [] else [ReplacedValue(s[0], a, b)] + Replaced(s[1..], a, b)
  }

  /**
   * std::generate_n from the start: the generator is called `count` times,
   * and the value of its `k`-th call (`draw(k)`, counting from 0) is stored
   * at position `k`; the elements from `count` on keep their value.
   * std::generate over the whole range is the case `count == |s|`.
   */
  function GeneratedN(s: seq<int>, count: nat, draw: nat -> int): (r: seq<int>)
    requires count <= |s|
    ensures |r| == |s|
    ensures forall i :: 0 <= i < count ==> r[i] == draw(i)
    ensures forall i :: count <= i < |s| ==> r[i] == s[i]
  {
    if count == 0 then s else GeneratedN(s, count - 1, draw)[count - 1 := draw(count - 1)]
  }

  // ---------------------------------------------------------------------
  // Properties of the algorithms
  // ---------------------------------------------------------------------

  /** Filling twice with the same value is filling once. */
  lemma FillIdempotent(s: seq<int>, v: int)
    ensures Filled(Filled(s, v), v) == Filled(s, v)
  {
  }

  /** fill_n with the full length is fill. */
  lemma FillNWholeIsFill(s: seq<int>, v: int)
    ensures FilledN(s, |s|, v) == Filled(s, v)
  {
  }

  /** fill_n with a count of zero leaves the buffer as it was. */
  lemma FillNZeroIsIdentity(s: seq<int>, v: int)
    ensures FilledN(s, 0, v) == s
  {
  }

  /** Two fill_n calls with the same value cover the longer of the two prefixes. */
  lemma FillNCompose(s: seq<int>, c1: nat, c2: nat, v: int)
    requires c1 <= |s| && c2 <= |s|
    ensures FilledN(FilledN(s, c1, v), c2, v) == FilledN(s, if c1 < c2 then c2 else c1, v)
  {
  }

  /** Every element of a filled buffer is counted once as `v`. */
  lemma {:induction false} FilledCount(s: seq<int>, v: int)
    ensures multiset(Filled(s, v))[v] == |s|
    ensures forall x :: x != v ==> multiset(Filled(s, v))[x] == 0
  {
    if s != [] {
      FilledCount(s[1..], v);
      assert Filled(s, v) == [v] + Filled(s[1..], v);
    }
  }

  /** Element `i + 1` of an iota range is one more than element `i`. */
  lemma IotaSuccessive(n: nat, start: int, i: nat)
    requires i + 1 < n
    ensures Iota(n, start)[i + 1] == Iota(n, start)[i] + 1
  {
  }

  /** An iota range is strictly increasing, so no value occurs twice in it. */
  lemma IotaStrictlyIncreasing(n: nat, start: int)
    ensures forall i, j :: 0 <= i < j < n ==> Iota(n, start)[i] < Iota(n, start)[j]
  {
  }

  /** After replacing `a` by a different `b`, no element equals `a`. */
  lemma ReplaceRemovesAll(s: seq<int>, a: int, b: int)
    requires a != b
    ensures a !in Replaced(s, a, b)
  {
  }

  /** Replacing a value by itself changes nothing. */
  lemma ReplaceSameIsIdentity(s: seq<int>, a: int)
    ensures Replaced(s, a, a) == s
  {
  }

  /** Replacing a second time with the same arguments changes nothing more. */
  lemma ReplaceIdempotent(s: seq<int>, a: int, b: int)
    ensures Replaced(Replaced(s, a, b), a, b) == Replaced(s, a, b)
  {
  }

  /**
   * Replace moves every occurrence of `a` to `b` and leaves the number of
   * occurrences of every other value as it was.
   */
  lemma {:induction false} ReplaceCounts(s: seq<int>, a: int, b: int)
    requires a != b
    ensures multiset(Replaced(s, a, b))[a] == 0
    ensures multiset(Replaced(s, a, b))[b] == multiset(s)[a] + multiset(s)[b]
    ensures forall x :: x != a && x != b ==> multiset(Replaced(s, a, b))[x] == multiset(s)[x]
  {
    if s != [] {
      ReplaceCounts(s[1..], a, b);
      assert s == [s[0]] + s[1..];
      assert Replaced(s, a, b) == [ReplacedValue(s[0], a, b)] + Replaced(s[1..], a, b);
    }
  }

  /** Replacing `a` by `b` in a buffer filled with `a` fills it with `b`. */
  lemma ReplaceAfterFill(s: seq<int>, a: int, b: int)
    ensures Replaced(Filled(s, a), a, b) == Filled(s, b)
  {
  }

  /** A generator that always returns `v` makes generate_n the same as fill_n. */
  lemma GenerateConstantIsFillN(s: seq<int>, count: nat, v: int)
    requires count <= |s|
    ensures GeneratedN(s, count, _ => v) == FilledN(s, count, v)
  {
  }

  /**
   * A generator whose `k`-th call returns `start + k` makes generate over the
   * whole range the same as iota from `start`.
   */
  lemma GenerateCountingIsIota(s: seq<int>, start: int)
    ensures GeneratedN(s, |s|, k => start + k) == Iota(|s|, start)
  {
  }

  // ---------------------------------------------------------------------
  // The buffer class
  // ---------------------------------------------------------------------

  /**
   * The wrapped buffer. Its length is fixed by the constructor; every
   * mutator rewrites the elements in place and never the length.
   */
  class Vector {
    var buffer: array<int>

    /** The const accessor: the elements of the buffer, in order. */
    function GetVector(): (r: seq<int>)
      reads this, buffer
      ensures |r| == buffer.Length
      ensures forall i :: 0 <= i < |r| ==> r[i] == buffer[i]
    {
      buffer[..]
    }

    /**
     * The default constructor: an empty buffer, then a fill with 0 over it,
     * which changes nothing.
     */
    constructor ()
      ensures fresh(buffer)
      ensures GetVector() == []
    {
      buffer := new int[0];
      new;
      Fill(0);
    }

    /** The sized constructor: `size` value-initialised (zero) elements. */
    constructor WithSize(size: nat)
      ensures fresh(buffer)
      ensures |GetVector()| == size
      ensures forall i :: 0 <= i < size ==> GetVector()[i] == 0
    {
      buffer := new int[size](_ => 0);
    }

    /**
     * The non-const accessor: a reference to the buffer itself, so that
     * writes through it are writes to this Vector.
     */
    method GetVectorRef() returns (v: array<int>)
      ensures v == buffer
    {
      v := buffer;
    }

    /** Fill(value): std::fill over the whole buffer. */
    method Fill(value: int)
      modifies buffer
      ensures GetVector() == Filled(old(GetVector()), value)
    {
      for i := 0 to buffer.Length
        invariant forall k :: 0 <= k < i ==> buffer[k] == value
        invariant forall k :: i <= k < buffer.Length ==> buffer[k] == old(buffer[k])
      {
        buffer[i] := value;
      }
    }

    /** Fill(count, value): std::fill_n from the start of the buffer. */
    method FillN(count: nat, value: int)
      requires count <= buffer.Length
      modifies buffer
      ensures GetVector() == FilledN(old(GetVector()), count, value)
    {
      for i := 0 to count
        invariant forall k :: 0 <= k < i ==> buffer[k] == value
        invariant forall k :: i <= k < buffer.Length ==> buffer[k] == old(buffer[k])
      {
        buffer[i] := value;
      }
    }

    /** FillwithSequentialValues(start): std::iota over the whole buffer. */
    method FillWithSequentialValues(start: int)
      modifies buffer
      ensures GetVector() == Iota(buffer.Length, start)
    {
      var value := start;
      for i := 0 to buffer.Length
        invariant value == start + i
        invariant forall k :: 0 <= k < i ==> buffer[k] == start + k
      {
        buffer[i] := value;
        value := value + 1;
      }
    }

    /**
     * FillwithRandomGeneratedValues(func): std::generate over the whole
     * buffer; `draw(k)` is the value of the generator's `k`-th call.
     */
    method FillWithRandomGeneratedValues(draw: nat -> int)
      modifies buffer
      ensures GetVector() == GeneratedN(old(GetVector()), buffer.Length, draw)
    {
      for i := 0 to buffer.Length
        invariant forall k :: 0 <= k < i ==> buffer[k] == draw(k)
      {
        buffer[i] := draw(i);
      }
    }

    /**
     * FillwithRandomGeneratedValues(count, func): std::generate_n from the
     * start of the buffer; `draw(k)` is the value of the generator's `k`-th
     * call.
     */
    method FillWithRandomGeneratedValuesN(count: nat, draw: nat -> int)
      requires count <= buffer.Length
      modifies buffer
      ensures GetVector() == GeneratedN(old(GetVector()), count, draw)
    {
      for i := 0 to count
        invariant forall k :: 0 <= k < i ==> buffer[k] == draw(k)
        invariant forall k :: i <= k < buffer.Length ==> buffer[k] == old(buffer[k])
      {
        buffer[i] := draw(i);
      }
    }

    /** ReplaceValues(a, b): std::replace over the whole buffer. */
    method ReplaceValues(a: int, b: int)
      modifies buffer
      ensures GetVector() == Replaced(old(GetVector()), a, b)
    {
      for i := 0 to buffer.Length
        invariant forall k :: 0 <= k < i ==> buffer[k] == ReplacedValue(old(buffer[k]), a, b)
        invariant forall k :: i <= k < buffer.Length ==> buffer[k] == old(buffer[k])
      {
        if buffer[i] == a {
          buffer[i] := b;
        }
      }
    }
  }

  /**
   * A client that uses only the contracts above: a five-element buffer,
   * filled, numbered from 101, partly overwritten by a counting generator
   * and then cleaned of one value.
   */
  method Client() {
    var vec := new Vector.WithSize(5);
    assert vec.GetVector() == [0, 0, 0, 0, 0];
    vec.Fill(110);
    assert vec.GetVector() == [110, 110, 110, 110, 110];
    vec.FillWithSequentialValues(101);
    assert vec.GetVector() == [101, 102, 103, 104, 105];
    vec.FillWithRandomGeneratedValuesN(2, k => k + 1);
    assert vec.GetVector() == [1, 2, 103, 104, 105];
    vec.FillN(3, 2);
    vec.ReplaceValues(2, 5);
    assert vec.GetVector() == [5, 5, 5, 104, 105];
    var raw := vec.GetVectorRef();
    raw[4] := 7;
    assert vec.GetVector() == [5, 5, 5, 104, 7];
  }
}
