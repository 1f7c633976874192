/** The fixed-size sample arrays of `loop()` together with the index that
selects the slot the next sample goes to (`dat_*Samples[io_*CurrentSample]`).

The capacity is `io_accelSamples` for the accelerometer arrays and
`io_altSamples` for the altimeter arrays; both are 4 in the firmware, so a
single constant serves both. Globals are zero-initialised in C++,
so the slots a fresh buffer has not yet written still hold their initial
values.
 */
module RingBuffer {

  /** `io_accelSamples` and `io_altSamples`. */
  const Capacity: nat := 4

  datatype Ring<T> = Ring(slots: seq<T>, index: nat) {

    /** One slot per sample and an index that names an existing slot. */
    predicate Valid() {
      |slots| == Capacity && index < Capacity
    }
  }

  /** A buffer whose slots all hold `init` and whose index is 0, as the
      zero-initialised globals start out. */
  function Fresh<T>(init: T): (r: Ring<T>)
    ensures r.Valid() && r.index == 0
    ensures forall i :: 0 <= i < Capacity ==> r.slots[i] == init
  {
    Ring([init, init, init, init], 0)
  }

  /** The firmware's index step: add one, and reset to 0 once the index has
      gone past the last slot. */
  function Advance(i: nat): (j: nat)
    requires i < Capacity
    ensures j < Capacity
    ensures j == (i + 1) % Capacity
  {
    if i + 1 > Capacity - 1 then 0 else i + 1
  }

  /** Store one sample at the current index and advance the index. */
  function Write<T>(r: Ring<T>, v: T): (r': Ring<T>)
    requires r.Valid()
    ensures r'.Valid()
    ensures r'.index == (r.index + 1) % Capacity
    ensures r'.slots[r.index] == v
    ensures forall i :: 0 <= i < Capacity && i != r.index ==> r'.slots[i] == r.slots[i]
  {
    Ring(r.slots[r.index := v], Advance(r.index))
  }

  /** The buffer after storing `vs` in order. */
  function WriteAll<T>(r: Ring<T>, vs: seq<T>): (r': Ring<T>)
    requires r.Valid()
    ensures r'.Valid()
    decreases |vs|
  {
    if |vs| == 0 then r else WriteAll(Write(r, vs[0]), vs[1..])
  }

  /** The index advances by exactly one (modulo the capacity) per write. */
  lemma {:induction false} WriteAllIndex<T>(r: Ring<T>, vs: seq<T>)
    requires r.Valid()
    ensures WriteAll(r, vs).index == (r.index + |vs|) % Capacity
    decreases |vs|
  {
    if |vs| > 0 {
      WriteAllIndex(Write(r, vs[0]), vs[1..]);
    }
  }

  /** The contents from the oldest sample to the newest: the slot at the
      index is the next to be overwritten, so it holds the oldest sample. */
  function Ordered<T>(r: Ring<T>): seq<T>
    requires r.Valid()
  {
    r.slots[r.index..] + r.slots[..r.index]
  }

  /** One write drops the oldest sample and appends the new one. */
  lemma OrderedWrite<T>(r: Ring<T>, v: T)
    requires r.Valid()
    ensures Ordered(Write(r, v)) == Ordered(r)[1..] + [v]
  {
    var s := r.slots;
    var p := r.index;
    var s' := s[p := v];
    assert Ordered(r)[1..] == s[p + 1..] + s[..p];
    if p == Capacity - 1 {
      assert Ordered(Write(r, v)) == s';
      assert s' == s[..p] + [v];
    } else {
      assert Ordered(Write(r, v)) == s'[p + 1..] + s'[..p + 1];
      assert s'[p + 1..] == s[p + 1..];
      assert s'[..p + 1] == s[..p] + [v];
    }
  }

  /** After writing `vs`, the contents read oldest-first are the last
      `Capacity` values of the old contents followed by `vs`: writes leave
      the buffer in the order they were made, and the slots no write has
      reached yet keep what they held. */
  lemma {:induction false} OrderedWriteAll<T>(r: Ring<T>, vs: seq<T>)
    requires r.Valid()
    ensures Ordered(WriteAll(r, vs)) == (Ordered(r) + vs)[|vs|..]
    decreases |vs|
  {
    if |vs| == 0 {
      assert Ordered(r) + vs == Ordered(r);
    } else {
      var r1 := Write(r, vs[0]);
      OrderedWrite(r, vs[0]);
      OrderedWriteAll(r1, vs[1..]);
      assert Ordered(r1) + vs[1..] == (Ordered(r) + vs)[1..];
    }
  }

  /** Once at least `Capacity` values have been written, the contents read
      oldest-first are exactly the last `Capacity` values written. */
  lemma OrderedIsLatest<T>(r: Ring<T>, vs: seq<T>)
    requires r.Valid() && |vs| >= Capacity
    ensures Ordered(WriteAll(r, vs)) == vs[|vs| - Capacity..]
  {
    OrderedWriteAll(r, vs);
    assert (Ordered(r) + vs)[|vs|..] == vs[|vs| - Capacity..];
  }

  /** Sum of a numeric view of each element, as the averaging loop computes it. */
  function SumOf<T>(xs: seq<T>, f: T -> real): real
  {
    if |xs| == 0 then 0.0 else SumOf(xs[..|xs| - 1], f) + f(xs[|xs| - 1])
  }

  lemma {:induction false} SumOfConcat<T>(a: seq<T>, b: seq<T>, f: T -> real)
    ensures SumOf(a + b, f) == SumOf(a, f) + SumOf(b, f)
    decreases |b|
  {
    if |b| > 0 {
      assert (a + b)[..|a + b| - 1] == a + b[..|b| - 1];
      SumOfConcat(a, b[..|b| - 1], f);
    } else {
      assert a + b == a;
    }
  }

  /** Once at least `Capacity` samples have been written, the slots hold
      exactly the last `Capacity` samples, rotated so that the oldest one
      sits at the current index. */
  lemma RingIsRotationOfLatest<T>(r: Ring<T>, vs: seq<T>)
    requires r.Valid() && |vs| >= Capacity
    ensures var latest := vs[|vs| - Capacity..];
            var q := WriteAll(r, vs).index;
            WriteAll(r, vs).slots == latest[Capacity - q..] + latest[..Capacity - q]
  {
    var out := WriteAll(r, vs);
    var q := out.index;
    var latest := vs[|vs| - Capacity..];
    OrderedIsLatest(r, vs);
    assert latest == out.slots[q..] + out.slots[..q];
    assert latest[Capacity - q..] == out.slots[..q];
    assert latest[..Capacity - q] == out.slots[q..];
    assert out.slots == out.slots[..q] + out.slots[q..];
  }

  /** Summing the slots of a buffer that has seen at least `Capacity` writes
      sums exactly the last `Capacity` samples written, whatever came before. */
  lemma LatestSum<T>(r: Ring<T>, vs: seq<T>, f: T -> real)
    requires r.Valid() && |vs| >= Capacity
    ensures SumOf(WriteAll(r, vs).slots, f) == SumOf(vs[|vs| - Capacity..], f)
  {
    var out := WriteAll(r, vs);
    var q := out.index;
    OrderedIsLatest(r, vs);
    SumOfConcat(out.slots[q..], out.slots[..q], f);
    SumOfConcat(out.slots[..q], out.slots[q..], f);
    assert out.slots == out.slots[..q] + out.slots[q..];
  }
}
