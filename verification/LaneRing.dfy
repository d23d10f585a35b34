/** One lane's ring (`LaneRingBuffer.swift`) as its own thread sees it: a bounded queue in a
    power-of-two buffer. `LaneRings.dfy` interleaves the two threads. */
module LaneRing {
  import opened Arithmetic
  import opened Samples

  /** The samples a strided copy reads. */
  function Strided<S>(source: seq<S>, stride: nat, count: nat): (r: seq<S>)
    requires forall i :: 0 <= i < count ==> i * stride < |source|
    ensures |r| == count
    ensures forall i :: 0 <= i < count ==> i * stride < |source| && r[i] == source[i * stride]
  {
    seq(count, i requires 0 <= i < count => source[i * stride])
  }

  /** Two channels averaged sample by sample. */
  function Mixed<S>(a: Arith<S>, left: seq<S>, right: seq<S>, half: S): (r: seq<S>)
    requires |left| == |right|
    ensures |r| == |left|
    ensures forall i :: 0 <= i < |r| ==> r[i] == a.mul(a.add(left[i], right[i]), half)
  {
    seq(|left|, i requires 0 <= i < |left| => a.mul(a.add(left[i], right[i]), half))
  }

  ghost predicate PowerOfTwo(n: nat) {
    n == 1 || (n > 0 && n % 2 == 0 && PowerOfTwo(n / 2))
  }

  /** Bitwise and. */
  function And(a: nat, b: nat): nat
    decreases a
  {
    if a == 0 || b == 0 then 0 else 2 * And(a / 2, b / 2) + (if a % 2 == 1 && b % 2 == 1 then 1 else 0)
  }

  /** Masking with one less than a power of two is the remainder. */
  lemma {:induction false} MaskIsMod(a: nat, size: nat)
    requires PowerOfTwo(size)
    ensures And(a, size - 1) == Slot(a, size)
    decreases a
  {
    if a == 0 || size == 1 {
    } else {
      MaskIsMod(a / 2, size / 2);
      assert (size - 1) / 2 == size / 2 - 1;
      HalfMod(a, size / 2);
    }
  }

  lemma HalfMod(a: nat, half: nat)
    requires half > 0
    ensures a % (2 * half) == 2 * (a / 2 % half) + a % 2
  {
    var (q, r) := (a / 2 / half, a / 2 % half);
    assert a / 2 == q * half + r;
    assert a == q * (2 * half) + (2 * r + a % 2);
    ModUnique(a, 2 * half, q, 2 * r + a % 2);
  }

  /** The `count` samples from position `from` on. */
  function Queue<S>(storage: seq<S>, from: nat, count: nat): (q: seq<S>)
    requires |storage| > 0
    ensures |q| == count
    ensures forall i :: 0 <= i < count ==> q[i] == storage[Slot(from + i, |storage|)]
  {
    seq(count, i requires 0 <= i < count => storage[Slot(from + i, |storage|)])
  }

  /** Storing right behind a queue that is not full extends it and overwrites none of it. */
  lemma PutExtends<S>(storage: seq<S>, from: nat, count: nat, sample: S)
    requires count < |storage|
    ensures Queue(storage[Slot(from + count, |storage|) := sample], from, count + 1)
         == Queue(storage, from, count) + [sample]
  {
    hide Slot;
    var after := storage[Slot(from + count, |storage|) := sample];
    var (q, r) := (Queue(storage, from, count), Queue(after, from, count + 1));
    forall i: nat | i < count ensures r[i] == q[i] {
      SlotsDiffer(from + i, from + count, |storage|);
    }
  }

  /** Taking from the front leaves the rest. */
  lemma QueueTail<S>(storage: seq<S>, from: nat, count: nat, taken: nat)
    requires |storage| > 0 && taken <= count
    ensures Queue(storage, from, count)[taken..] == Queue(storage, from + taken, count - taken)
  {
    hide Slot;
    var (q, t) := (Queue(storage, from, count), Queue(storage, from + taken, count - taken));
    forall i: nat | i < count - taken ensures q[taken..][i] == t[i] {
      assert q[taken + i] == storage[Slot(from + taken + i, |storage|)];
    }
  }

  class LaneRingBuffer<S(0)> {
    const capacity: nat
    const mask: nat
    const storage: array<S>
    const arith: Arith<S>
    var writeIndex: nat
    var readIndex: nat
    var dropped: nat

    ghost predicate Valid()
      reads this
      ensures Valid() ==> capacity > 0
    {
      && PowerOfTwo(capacity) && mask == capacity - 1 && storage.Length == capacity
      && readIndex <= writeIndex <= readIndex + capacity
    }

    /** The samples queued, oldest first. */
    ghost function Contents(): (c: seq<S>)
      reads this, storage
      requires Valid()
      ensures |c| == writeIndex - readIndex
    {
      Queue(storage[..], readIndex, writeIndex - readIndex)
    }

    /** The capacity is the least power of two that is at least 2 and at least what was asked for. */
    constructor (asked: nat, arith: Arith<S>)
      ensures Valid() && fresh(storage) && this.arith == arith
      ensures Contents() == [] && dropped == 0
      ensures capacity >= 2 && capacity >= asked && (capacity > 2 ==> capacity / 2 < asked)
    {
      var size := 2;
      while size < asked
        invariant size >= 2 && PowerOfTwo(size)
        invariant size > 2 ==> size / 2 < asked
      {
        assert 2 * size / 2 == size;
        size := 2 * size;
      }
      capacity, mask := size, size - 1;
      this.arith := arith;
      storage := new S[size](_ => arith.zero);
      writeIndex, readIndex, dropped := 0, 0, 0;
    }

    method HasRoom(count: int) returns (room: bool)
      requires Valid()
      ensures room <==> |Contents()| + count <= capacity
    {
      room := capacity - (writeIndex - readIndex) >= count;
    }

    /** The write index when `count` more samples fit; otherwise the drop is counted. */
    method Reserve(count: nat) returns (reserved: bool)
      requires Valid()
      modifies `dropped
      ensures reserved <==> |Contents()| + count <= capacity
      ensures dropped == old(dropped) + if reserved then 0 else count
    {
      reserved := capacity - (writeIndex - readIndex) >= count;
      if !reserved { dropped := dropped + count; }
    }

    /** The slot after `position`, which is position `count`'s. */
    method After(position: nat, ghost count: nat) returns (next: nat)
      requires Valid() && position == Slot(count, capacity)
      ensures next == Slot(count + 1, capacity)
    {
      NextSlot(count, capacity);
      MaskIsMod(position + 1, capacity);
      next := And(position + 1, mask);
    }

    /** Every producer method below is this: all of `samples` or none of them. */
    ghost predicate Enqueued(before: seq<S>, drops: nat, samples: seq<S>, accepted: bool)
      reads this, storage
    {
      && Valid()
      && (accepted <==> |before| + |samples| <= capacity)
      && Contents() == (if accepted then before + samples else before)
      && dropped == drops + (if accepted then 0 else |samples|)
    }

    method Write(source: array<S>, count: int, stride: nat) returns (accepted: bool)
      requires Valid() && source != storage
      requires forall i :: 0 <= i < count ==> i * stride < source.Length
      modifies this, storage
      ensures count <= 0 ==> accepted && Valid() && Contents() == old(Contents()) && dropped == old(dropped)
      ensures count > 0 ==> Enqueued(old(Contents()), old(dropped), Strided(source[..], stride, count), accepted)
    {
      if count <= 0 { return true; }
      accepted := Reserve(count);
      if !accepted { return; }
      ghost var samples := Strided(source[..], stride, count);
      hide Slot, And;
      ghost var before := Contents();
      var write := writeIndex;
      MaskIsMod(write, capacity);
      var position := And(write, mask);
      var index := 0;
      while index < count
        invariant 0 <= index <= count
        invariant position == Slot(write + index, capacity)
        invariant Holding(before + samples[..index])
        modifies storage
      {
        SliceGrows(before, samples, 0, index);
        position := Put(before + samples[..index], position, source[index * stride]);
        index := index + 1;
      }
      assert samples[..count] == samples;
      Publish(before + samples, write + count);
    }

    method WriteMixed(left: array<S>, right: array<S>, count: int, stride: nat, rightStride: nat, half: S)
      returns (accepted: bool)
      requires Valid() && left != storage && right != storage
      requires forall i :: 0 <= i < count ==> i * stride < left.Length && i * rightStride < right.Length
      modifies this, storage
      ensures count <= 0 ==> accepted && Valid() && Contents() == old(Contents()) && dropped == old(dropped)
      ensures count > 0 ==>
        Enqueued(old(Contents()), old(dropped),
          Mixed(arith, Strided(left[..], stride, count), Strided(right[..], rightStride, count), half), accepted)
    {
      if count <= 0 { return true; }
      accepted := Reserve(count);
      if !accepted { return; }
      ghost var samples := Mixed(arith, Strided(left[..], stride, count), Strided(right[..], rightStride, count), half);
      hide Slot, And;
      ghost var before := Contents();
      var write := writeIndex;
      MaskIsMod(write, capacity);
      var position := And(write, mask);
      var index := 0;
      while index < count
        invariant 0 <= index <= count
        invariant position == Slot(write + index, capacity)
        invariant Holding(before + samples[..index])
        modifies storage
      {
        SliceGrows(before, samples, 0, index);
        var sample := arith.mul(arith.add(left[index * stride], right[index * rightStride]), half);
        position := Put(before + samples[..index], position, sample);
        index := index + 1;
      }
      assert samples[..count] == samples;
      Publish(before + samples, write + count);
    }

    /** Zeros are written as one sample read with stride 0. */
    method WriteZeros(count: int) returns (accepted: bool)
      requires Valid()
      modifies this, storage
      ensures count <= 0 ==> accepted && Valid() && Contents() == old(Contents()) && dropped == old(dropped)
      ensures count > 0 ==> Enqueued(old(Contents()), old(dropped), Zeros(arith, count), accepted)
    {
      if count <= 0 { return true; }
      var zero := new S[1](_ => arith.zero);
      accepted := Write(zero, count, 0);
      assert Strided(zero[..], 0, count) == Zeros(arith, count);
    }

    /** Exactly `count` samples, or none. */
    method Read(destination: array<S>, count: int) returns (read: bool)
      requires Valid() && destination != storage && count <= destination.Length
      modifies this, destination
      ensures Valid() && dropped == old(dropped)
      ensures read <==> count <= |old(Contents())|
      ensures read && count > 0 ==>
        && destination[..count] == old(Contents())[..count]
        && destination[count..] == old(destination[count..])
        && Contents() == old(Contents())[count..]
      ensures !read || count <= 0 ==> Contents() == old(Contents()) && destination[..] == old(destination[..])
    {
      if count <= 0 { return true; }
      if writeIndex - readIndex < count { return false; }
      hide Slot, And;
      ghost var before := Contents();
      MaskIsMod(readIndex, capacity);
      var position := And(readIndex, mask);
      var index := 0;
      while index < count
        invariant 0 <= index <= count
        invariant position == Slot(readIndex + index, capacity)
        invariant Valid() && Contents() == before
        invariant destination[..index] == before[..index]
        invariant destination[count..] == old(destination[count..])
        modifies destination
      {
        destination[index] := storage[position];
        position := After(position, readIndex + index);
        index := index + 1;
      }
      QueueTail(storage[..], readIndex, writeIndex - readIndex, count);
      readIndex := readIndex + count;
      return true;
    }

    /** Only while no producer runs. */
    method Clear()
      requires Valid()
      modifies this, storage
      ensures Valid() && Contents() == [] && dropped == 0
      ensures storage[..] == Zeros(arith, capacity)
    {
      forall i | 0 <= i < capacity { storage[i] := arith.zero; }
      readIndex, writeIndex, dropped := 0, 0, 0;
    }

    /** The slots from the read index on hold `samples`, published or not. */
    ghost predicate Holding(samples: seq<S>)
      reads this, storage
    {
      Valid() && |samples| <= capacity && Queue(storage[..], readIndex, |samples|) == samples
    }

    /** Storing behind what the ring holds overwrites none of it. */
    method Put(ghost samples: seq<S>, position: nat, sample: S) returns (next: nat)
      requires Holding(samples) && |samples| < capacity
      requires position == Slot(readIndex + |samples|, capacity)
      modifies storage
      ensures Holding(samples + [sample])
      ensures next == Slot(readIndex + |samples| + 1, capacity)
    {
      PutExtends(storage[..], readIndex, |samples|, sample);
      storage[position] := sample;
      assert storage[..] == old(storage[..])[position := sample];
      next := After(position, readIndex + |samples|);
    }

    method Publish(ghost samples: seq<S>, end: nat)
      requires Holding(samples) && end == readIndex + |samples|
      modifies `writeIndex
      ensures Valid() && Contents() == samples
    {
      writeIndex := end;
    }
  }
}
