/**
 * Byte-level vocabulary shared by the LUXSim binary writer and its two readers:
 * little-endian 32-bit integers, 8-byte doubles kept as opaque words, and a
 * forward-only cursor represented by the bytes that remain to be read.
 */
module Wire {

  newtype Byte = x: int | 0 <= x < 256
  type Bytes = seq<Byte>

  datatype Option<T> = None | Some(value: T)

  datatype Result<T, E> = Ok(value: T) | Err(error: E)
  {
    predicate IsFailure() { Err? }

    function PropagateFailure<U>(): Result<U, E>
      requires Err?
    {
      Err(error)
    }

    function Extract(): T
      requires Ok?
    {
      value
    }
  }

  const TWO31: int := 0x8000_0000
  const TWO32: int := 0x1_0000_0000

  predicate IsInt32(x: int) { -TWO31 <= x < TWO31 }
  predicate IsUInt32(x: int) { 0 <= x < TWO32 }

  /** The value a C `int` holds after storing `x` with two's-complement wrap-around. */
  function Wrap32(x: int): (r: int)
    ensures IsInt32(r)
    ensures (r - x) % TWO32 == 0
    ensures IsInt32(x) ==> r == x
  {
    var u := x % TWO32;
    if u < TWO31 then u else u - TWO32
  }

  /** Four bytes, least significant first, of an unsigned 32-bit value. */
  function LE4(v: int): (r: Bytes)
    requires IsUInt32(v)
    ensures |r| == 4
  {
    var v1 := v / 256;
    var v2 := v1 / 256;
    var v3 := v2 / 256;
    [(v % 256) as Byte, (v1 % 256) as Byte, (v2 % 256) as Byte, (v3 % 256) as Byte]
  }

  function ValueLE4(b: Bytes): (r: int)
    requires |b| == 4
    ensures IsUInt32(r)
  {
    b[0] as int + 256 * (b[1] as int + 256 * (b[2] as int + 256 * b[3] as int))
  }

  lemma LE4Value(v: int)
    requires IsUInt32(v)
    ensures ValueLE4(LE4(v)) == v
  {
    var v1 := v / 256;
    var v2 := v1 / 256;
    var v3 := v2 / 256;
    assert v3 < 256;
    var b := LE4(v);
    assert b[0] as int == v % 256 && b[1] as int == v1 % 256;
    assert b[2] as int == v2 % 256 && b[3] as int == v3;
    assert v2 == v2 % 256 + 256 * v3;
    assert v1 == v1 % 256 + 256 * v2;
    assert v == v % 256 + 256 * v1;
  }

  lemma ValueLE4Bytes(b: Bytes)
    requires |b| == 4
    ensures LE4(ValueLE4(b)) == b
  {
    var c0, c1, c2, c3 := b[0] as int, b[1] as int, b[2] as int, b[3] as int;
    var v := ValueLE4(b);
    var v2 := c2 + 256 * c3;
    var v1 := c1 + 256 * v2;
    assert v == c0 + 256 * v1;
    assert v % 256 == c0 && v / 256 == v1;
    assert v1 % 256 == c1 && v1 / 256 == v2;
    assert v2 % 256 == c2 && v2 / 256 == c3;
    var r := LE4(v);
    assert r[0] == b[0] && r[1] == b[1] && r[2] == b[2] && r[3] == b[3];
  }

  /** What `write((char*)&x, sizeof(int))` emits for an `int` holding `Wrap32(x)`. */
  function EncodeInt32(x: int): (r: Bytes)
    ensures |r| == 4
  {
    LE4(x % TWO32)
  }

  /** What `unpack('i', ...)` or `fread(&i, sizeof(int), 1, ...)` yields from four bytes. */
  function DecodeInt32(b: Bytes): (r: int)
    requires |b| == 4
    ensures IsInt32(r)
  {
    var u := ValueLE4(b);
    if u < TWO31 then u else u - TWO32
  }

  /** What `unpack('I', ...)` yields from four bytes. */
  function DecodeUInt32(b: Bytes): (r: int)
    requires |b| == 4
    ensures IsUInt32(r)
  {
    ValueLE4(b)
  }

  lemma Int32Decode(x: int)
    ensures DecodeInt32(EncodeInt32(x)) == Wrap32(x)
  {
    LE4Value(x % TWO32);
  }

  lemma Int32RoundTrip(x: int)
    requires IsInt32(x)
    ensures DecodeInt32(EncodeInt32(x)) == x
  {
    Int32Decode(x);
  }

  lemma Int32Encode(b: Bytes)
    requires |b| == 4
    ensures EncodeInt32(DecodeInt32(b)) == b
  {
    var u := ValueLE4(b);
    var x := DecodeInt32(b);
    assert x % TWO32 == u by {
      if u >= TWO31 {
        assert x + TWO32 == u;
      }
    }
    ValueLE4Bytes(b);
  }

  lemma UInt32RoundTrip(x: int)
    requires IsInt32(x) && x >= 0
    ensures DecodeUInt32(EncodeInt32(x)) == x
  {
    LE4Value(x % TWO32);
  }

  /** An IEEE-754 double as the eight bytes that are written and read. */
  type F64 = b: Bytes | |b| == 8 witness [0, 0, 0, 0, 0, 0, 0, 0]

  /** +0.0, the value of a zero-initialised double. */
  const Zero64: F64 := [0, 0, 0, 0, 0, 0, 0, 0]

  /** The biased exponent field (bits 52..62) of a little-endian double. */
  function Exponent(d: F64): int
  {
    (d[7] as int % 128) * 16 + d[6] as int / 16
  }

  predicate MantissaIsZero(d: F64)
  {
    d[0] == 0 && d[1] == 0 && d[2] == 0 && d[3] == 0 && d[4] == 0 && d[5] == 0 && d[6] % 16 == 0
  }

  predicate IsNaN(d: F64) { Exponent(d) == 0x7FF && !MantissaIsZero(d) }

  /**
   * `d > 0.` in IEEE arithmetic: sign bit clear, not a zero, not a NaN
   * (positive infinity and subnormals compare greater than zero).
   */
  predicate IsPositive(d: F64)
  {
    d[7] < 128 && !IsNaN(d) && !(Exponent(d) == 0 && MantissaIsZero(d))
  }

  lemma ZeroNotPositive()
    ensures !IsPositive(Zero64)
  {
  }

  /** The byte of a character in the single-byte range (0 for any other character). */
  function ByteOf(c: char): Byte
  {
    if c as int < 256 then c as int as Byte else 0
  }

  /** The bytes a single-byte text literal stands for. */
  function Latin1(s: string): (r: Bytes)
    ensures |r| == |s|
    ensures forall i :: 0 <= i < |s| && s[i] as int < 256 ==> r[i] as int == s[i] as int
  {
    seq(|s|, i requires 0 <= i < |s| => ByteOf(s[i]))
  }

  datatype Vec3 = Vec3(x: F64, y: F64, z: F64)

  function EncodeVec3(v: Vec3): (r: Bytes)
    ensures |r| == 24
  {
    v.x + v.y + v.z
  }

  // ---------------------------------------------------------------------------
  // Reading with a forward cursor: repeated reads
  // ---------------------------------------------------------------------------

  /** A read at the cursor: a value and the bytes after it, or an error. */
  type Reader<T, E> = Bytes -> Result<(T, Bytes), E>

  /** Puts `x` in front of a decoded list; an error passes through. */
  function Cons<T, E>(x: T, r: Result<(seq<T>, Bytes), E>): (c: Result<(seq<T>, Bytes), E>)
    ensures c.Ok? <==> r.Ok?
    ensures c.Ok? ==> c.value == ([x] + r.value.0, r.value.1)
    ensures c.Err? ==> c.error == r.error
  {
    match r
    case Ok((xs, after)) => Ok(([x] + xs, after))
    case Err(e) => Err(e)
  }

  /** Puts the entries decoded so far in front of the rest of a decoded list. */
  function Prepend<T, E>(acc: seq<T>, r: Result<(seq<T>, Bytes), E>): (c: Result<(seq<T>, Bytes), E>)
    ensures c.Ok? <==> r.Ok?
    ensures c.Ok? ==> c.value == (acc + r.value.0, r.value.1)
    ensures c.Err? ==> c.error == r.error
  {
    match r
    case Ok((xs, after)) => Ok((acc + xs, after))
    case Err(e) => Err(e)
  }

  lemma PrependNothing<T, E>(r: Result<(seq<T>, Bytes), E>)
    ensures Prepend([], r) == r
  {
    if r.Ok? {
      assert [] + r.value.0 == r.value.0;
    }
  }

  lemma PrependCons<T, E>(acc: seq<T>, x: T, r: Result<(seq<T>, Bytes), E>)
    ensures Prepend(acc, Cons(x, r)) == Prepend(acc + [x], r)
  {
    if r.Ok? {
      assert acc + ([x] + r.value.0) == (acc + [x]) + r.value.0;
    }
  }

  /**
   * A loop of `n` reads of one entry: a count that is not positive reads
   * nothing, and the first error ends the loop.
   */
  function Many<T, E>(item: Reader<T, E>, rest: Bytes, n: int): (r: Result<(seq<T>, Bytes), E>)
    ensures r.Ok? ==> |r.value.0| == if n > 0 then n else 0
    decreases if n > 0 then n else 0
  {
    if n <= 0 then Ok(([], rest))
    else
      match item(rest)
      case Err(e) => Err(e)
      case Ok((x, after)) => Cons(x, Many(item, after, n - 1))
  }

  /** A property every entry `item` returns holds of every entry of the list. */
  lemma {:induction false} ManyAll<T, E>(item: Reader<T, E>, P: T -> bool, rest: Bytes, n: int)
    requires forall b :: item(b).Ok? ==> P(item(b).value.0)
    ensures Many(item, rest, n).Ok? ==>
              forall i :: 0 <= i < |Many(item, rest, n).value.0| ==> P(Many(item, rest, n).value.0[i])
    decreases if n > 0 then n else 0
  {
    if n > 0 && item(rest).Ok? {
      var x := item(rest).value.0;
      var tail := Many(item, item(rest).value.1, n - 1);
      assert Many(item, rest, n) == Cons(x, tail);
      ManyAll(item, P, item(rest).value.1, n - 1);
      if tail.Ok? {
        assert P(x);
        assert forall i :: 1 <= i < |Many(item, rest, n).value.0| ==>
                 Many(item, rest, n).value.0[i] == tail.value.0[i - 1];
      }
    }
  }

  /**
   * Two readers where the second succeeds wherever the first does and stops at
   * the same place: repeating them `n` times keeps that relation.
   */
  lemma {:induction false} ManyFollows<T, U, E>(a: Reader<T, E>, b: Reader<U, E>, rest: Bytes, n: int)
    requires forall r :: a(r).Ok? ==> b(r).Ok? && b(r).value.1 == a(r).value.1
    ensures Many(a, rest, n).Ok? ==> Many(b, rest, n).Ok? && Many(b, rest, n).value.1 == Many(a, rest, n).value.1
    decreases if n > 0 then n else 0
  {
    if n > 0 && a(rest).Ok? {
      var after := a(rest).value.1;
      assert Many(a, rest, n) == Cons(a(rest).value.0, Many(a, after, n - 1));
      assert Many(b, rest, n) == Cons(b(rest).value.0, Many(b, after, n - 1));
      ManyFollows(a, b, after, n - 1);
    }
  }

  /**
   * A second reader that returns what the first does wherever the first
   * succeeds: repeating them `n` times agrees wherever the first loop does.
   */
  lemma {:induction false} ManyAgrees<T, E>(a: Reader<T, E>, b: Reader<T, E>, rest: Bytes, n: int)
    requires forall r :: a(r).Ok? ==> b(r) == a(r)
    ensures Many(a, rest, n).Ok? ==> Many(b, rest, n) == Many(a, rest, n)
    decreases if n > 0 then n else 0
  {
    if n > 0 && a(rest).Ok? {
      var after := a(rest).value.1;
      assert Many(a, rest, n) == Cons(a(rest).value.0, Many(a, after, n - 1));
      assert Many(b, rest, n) == Cons(a(rest).value.0, Many(b, after, n - 1));
      ManyAgrees(a, b, after, n - 1);
    }
  }

  /** One entry per element of `xs`: an array filled element by element. */
  function Column<T, U>(xs: seq<T>, f: T -> U): (r: seq<U>)
    ensures |r| == |xs| && forall i :: 0 <= i < |xs| ==> r[i] == f(xs[i])
  {
    seq(|xs|, i requires 0 <= i < |xs| => f(xs[i]))
  }

  /**
   * Reading `|xs|` entries back from their encodings, one after another,
   * gives what `item` makes of each.
   */
  lemma {:induction false} ManyMap<S, T, E>(item: Reader<T, E>, enc: S -> Bytes, f: S -> T, xs: seq<S>, rest: Bytes)
    requires forall i, r :: 0 <= i < |xs| ==> item(enc(xs[i]) + r) == Ok((f(xs[i]), r))
    ensures Many(item, ConcatMap(xs, enc) + rest, |xs|) == Ok((Column(xs, f), rest))
  {
    if xs != [] {
      var after := ConcatMap(xs[1..], enc) + rest;
      assert ConcatMap(xs, enc) + rest == enc(xs[0]) + after;
      assert item(enc(xs[0]) + after) == Ok((f(xs[0]), after));
      assert Many(item, enc(xs[0]) + after, |xs|) == Cons(f(xs[0]), Many(item, after, |xs[1..]|));
      forall i, r | 0 <= i < |xs[1..]|
        ensures item(enc(xs[1..][i]) + r) == Ok((f(xs[1..][i]), r))
      {
        assert xs[1..][i] == xs[i + 1];
      }
      ManyMap(item, enc, f, xs[1..], rest);
      assert [f(xs[0])] + Column(xs[1..], f) == Column(xs, f);
    } else {
      assert ConcatMap(xs, enc) + rest == rest;
    }
  }

  /** Reading `|xs|` entries back from their encodings, one after another, gives `xs`. */
  lemma ManyOf<T, E>(item: Reader<T, E>, enc: T -> Bytes, xs: seq<T>, rest: Bytes)
    requires forall i, r :: 0 <= i < |xs| ==> item(enc(xs[i]) + r) == Ok((xs[i], r))
    ensures Many(item, ConcatMap(xs, enc) + rest, |xs|) == Ok((xs, rest))
  {
    ManyMap(item, enc, x => x, xs, rest);
    assert Column(xs, x => x) == xs;
  }

  /** The loop itself, entry by entry. */
  method ReadMany<T, E>(item: Reader<T, E>, rest0: Bytes, n: int) returns (res: Result<(seq<T>, Bytes), E>)
    ensures res == Many(item, rest0, n)
  {
    var acc: seq<T> := [];
    var rest := rest0;
    PrependNothing(Many(item, rest0, n));
    var k := 0;
    ghost var left := n;
    while k < n
      invariant 0 <= k && (n > 0 ==> k <= n)
      invariant left == n - k
      invariant Many(item, rest0, n) == Prepend(acc, Many(item, rest, left))
    {
      var x := item(rest);
      if x.Err? {
        assert Many(item, rest, left) == Err(x.error);
        return Err(x.error);
      }
      ghost var tail := Many(item, x.value.1, left - 1);
      assert Many(item, rest, left) == Cons(x.value.0, tail);
      PrependCons(acc, x.value.0, tail);
      acc := acc + [x.value.0];
      rest := x.value.1;
      k := k + 1;
      left := left - 1;
    }
    assert acc + [] == acc;
    return Ok((acc, rest));
  }

  /** Stores `xs` into `a` from index `at` on. */
  method StoreAll<T>(a: array<T>, at: nat, xs: seq<T>)
    requires at + |xs| <= a.Length
    modifies a
    ensures a[..at + |xs|] == old(a[..at]) + xs
  {
    var k := 0;
    while k < |xs|
      invariant 0 <= k <= |xs|
      invariant a[..at + k] == old(a[..at]) + xs[..k]
    {
      a[at + k] := xs[k];
      k := k + 1;
    }
    assert xs[..k] == xs;
  }

  /** Concatenated encodings of a list. */
  function ConcatMap<T>(xs: seq<T>, f: T -> Bytes): Bytes
  {
    if xs == [] then [] else f(xs[0]) + ConcatMap(xs[1..], f)
  }
}
