/** Bytes, and numbers as bytes in either order. */
module Bytes {
  import opened Sequences

  type Byte = b: int | 0 <= b < 256

  /** 256 to the power `n`: how many numbers `n` bytes hold. */
  function Range(n: nat): (r: nat)
    ensures r > 0
  {
    if n == 0 then 1 else 256 * Range(n - 1)
  }

  /** `value` in `n` bytes, least significant first. */
  function Little(value: nat, n: nat): (b: seq<Byte>)
    ensures |b| == n
  {
    if n == 0 then [] else [value % 256] + Little(value / 256, n - 1)
  }

  function LittleValue(b: seq<Byte>): nat {
    if b == [] then 0 else b[0] + 256 * LittleValue(b[1..])
  }

  /** `value` in `n` bytes, most significant first. */
  function Big(value: nat, n: nat): (b: seq<Byte>)
    ensures |b| == n
  {
    if n == 0 then [] else Big(value / 256, n - 1) + [value % 256]
  }

  function BigValue(b: seq<Byte>): nat {
    if b == [] then 0 else 256 * BigValue(b[..|b| - 1]) + b[|b| - 1]
  }

  lemma {:induction false} LittleBack(value: nat, n: nat)
    requires value < Range(n)
    ensures LittleValue(Little(value, n)) == value
  {
    if n > 0 {
      LittleBack(value / 256, n - 1);
      assert Little(value, n)[1..] == Little(value / 256, n - 1);
    }
  }

  lemma {:induction false} BigBack(value: nat, n: nat)
    requires value < Range(n)
    ensures BigValue(Big(value, n)) == value
  {
    if n > 0 {
      BigBack(value / 256, n - 1);
      assert Big(value, n)[..n - 1] == Big(value / 256, n - 1);
    }
  }

  lemma {:induction false} BigBelow(b: seq<Byte>)
    ensures BigValue(b) < Range(|b|)
  {
    if b != [] { BigBelow(b[..|b| - 1]); }
  }

  /** Two's complement of `n` bytes. */
  function Signed(b: seq<Byte>): int
    requires b != []
  {
    if b[0] < 128 then BigValue(b) else BigValue(b) - Range(|b|)
  }

  /** Bytes of numbers one after another, each in `n` bytes, least significant first. */
  function Packed(values: seq<nat>, n: nat): seq<Byte> {
    if values == [] then [] else Little(values[0], n) + Packed(values[1..], n)
  }

  lemma {:induction false} PackedLength(values: seq<nat>, n: nat)
    ensures |Packed(values, n)| == n * |values|
  {
    if values != [] {
      PackedLength(values[1..], n);
      MulSplit(n, 0, |values| - 1, |values|);
    }
  }

  lemma {:induction false} PackedJoin(a: seq<nat>, b: seq<nat>, n: nat)
    ensures Packed(a + b, n) == Packed(a, n) + Packed(b, n)
  {
    hide Little;
    if a == [] {
      assert a + b == b;
      assert [] + Packed(b, n) == Packed(b, n);
    } else {
      PackedJoin(a[1..], b, n);
      assert (a + b)[1..] == a[1..] + b;
      Associate(Little(a[0], n), Packed(a[1..], n), Packed(b, n));
    }
  }

  /** The bytes of the value at `i`. */
  lemma {:induction false} PackedAt(values: seq<nat>, n: nat, i: nat)
    requires i < |values|
    ensures n * i + n <= n * |values| == |Packed(values, n)|
    ensures Packed(values, n)[n * i..n * i + n] == Little(values[i], n)
  {
    var front, back := values[..i], values[i + 1..];
    assert values == front + ([values[i]] + back);
    PackedJoin(front, [values[i]] + back, n);
    assert ([values[i]] + back)[1..] == back;
    MulSplit(n, i, |back|, |values|);
    PackedLength(front, n);
    PackedLength(values, n);
    Middle(Packed(front, n), Little(values[i], n), Packed(back, n));
  }

  lemma MulSplit(n: nat, i: nat, rest: nat, all: nat)
    requires all == i + 1 + rest
    ensures n * all == n * i + n + n * rest
  {}

  lemma Middle<T>(a: seq<T>, b: seq<T>, c: seq<T>)
    ensures (a + (b + c))[|a|..|a| + |b|] == b
  {}

  lemma RangeOf48()
    ensures Range(4) == 0x1_0000_0000 && Range(7) == 0x100_0000_0000_0000 && Range(8) == 0x1_0000_0000_0000_0000
  {
    assert Range(1) == 256 && Range(2) == 0x1_0000 && Range(3) == 0x100_0000;
    assert Range(4) == 0x1_0000_0000 && Range(5) == 0x100_0000_0000 && Range(6) == 0x1_0000_0000_0000;
  }

  /** The first of the bytes says how much of the range a number takes. */
  lemma {:induction false} BigFirst(value: nat, n: nat, top: nat)
    requires n > 0 && 0 < top <= 256
    ensures value < top * Range(n - 1) ==> Big(value, n)[0] < top
    ensures top * Range(n - 1) <= value < 256 * Range(n - 1) ==> Big(value, n)[0] >= top
  {
    if n > 1 {
      BigFirst(value / 256, n - 1, top);
      Digit(value, top, Range(n - 2));
    } else {
      assert Big(value, 1) == [] + [value % 256];
    }
  }

  lemma Digit(value: nat, top: nat, r: nat)
    ensures value < top * (256 * r) <==> value / 256 < top * r
    ensures value < 256 * (256 * r) <==> value / 256 < 256 * r
  {
    assert top * (256 * r) == 256 * (top * r);
  }

  /** And bounds the number the bytes make. */
  lemma {:induction false} BigBelowTop(b: seq<Byte>, top: nat)
    requires b != [] && b[0] < top
    ensures BigValue(b) < top * Range(|b| - 1)
  {
    if |b| > 1 {
      BigBelowTop(b[..|b| - 1], top);
      assert top * (256 * Range(|b| - 2)) == 256 * (top * Range(|b| - 2));
    } else {
      assert b[..0] == [];
    }
  }

  /** A number below half the range is itself in two's complement. */
  lemma SignedBack(value: nat, n: nat)
    requires n > 0 && value < 128 * Range(n - 1)
    ensures Signed(Big(value, n)) == value
  {
    BigFirst(value, n, 128);
    BigBack(value, n);
  }

  // Files.

  function Part(d: seq<Byte>, at: nat, n: nat): (p: seq<Byte>)
    requires at + n <= |d|
    ensures |p| == n
  {
    d[at..at + n]
  }

  lemma PrefixPart(d: seq<Byte>, h: seq<Byte>, at: nat, n: nat)
    requires |h| <= |d| && d[..|h|] == h && at + n <= |h|
    ensures Part(d, at, n) == Part(h, at, n)
  {}

  lemma SubPart(d: seq<Byte>, at: nat, n: nat, from: nat, m: nat)
    requires at + n <= |d| && from + m <= n
    ensures Part(Part(d, at, n), from, m) == Part(d, at + from, m)
  {
    var p := d[at..at + n];
    var a, b := p[from..from + m], d[at + from..at + from + m];
    forall i | 0 <= i < m ensures a[i] == b[i] { assert p[from + i] == d[at + from + i]; }
  }

  /** What reaches a disk with `room` bytes left. */
  function Fitting(bytes: seq<Byte>, room: nat): seq<Byte> {
    if room < |bytes| then bytes[..room] else bytes
  }

  /** A file of packed values behind a header, appended to. */
  lemma AppendBytes(header: seq<Byte>, accepted: seq<nat>, more: seq<nat>, n: nat, room: nat)
    ensures var file, bytes := header + (Packed(accepted, n) + []), Packed(more, n);
      && file + bytes == header + (Packed(accepted + more, n) + [])
      && file + Fitting(bytes, room) == header + (Packed(accepted, n) + Fitting(bytes, room))
  {
    hide Packed, Fitting;
    PackedJoin(accepted, more, n);
    var bytes := Packed(more, n);
    assert Packed(accepted, n) + [] == Packed(accepted, n);
    assert Packed(accepted + more, n) + [] == Packed(accepted + more, n);
    Associate(header, Packed(accepted, n), bytes);
    Associate(header, Packed(accepted, n), Fitting(bytes, room));
  }

  lemma AppendBehind(a: seq<Byte>, b: seq<Byte>, c: seq<Byte>, d: seq<Byte>)
    ensures a + (b + c) + d == a + (b + (c + d))
  {}
}
