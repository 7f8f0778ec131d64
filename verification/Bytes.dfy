/** C++ exceptions as values: a throwing function returns `Throw` instead of a result. */
module Exceptions {
  datatype Fault =
    | OutOfRange
    | InvalidArgument
    | RuntimeError(what: string)

  datatype Result<+T> = Ok(value: T) | Throw(fault: Fault)
}

/** Byte buffers and the big-endian integers stored in them (parsing/buffer.h). */
module Bytes {
  import opened Exceptions

  type byte = x: int | 0 <= x < 256
  type Buffer = seq<byte>

  const U32 := 0x1_0000_0000
  const I32 := 0x8000_0000
  const I64 := 0x8000_0000_0000_0000
  const U64 := 0x1_0000_0000_0000_0000

  /** A 32-bit unsigned value passed on as an int. */
  function ToInt(v: nat): (i: int)
    requires v < U32
    ensures v < 0x8000_0000 ==> i == v
    ensures v >= 0x8000_0000 ==> -0x8000_0000 <= i < 0 && i + 0x1_0000_0000 == v
  {
    if v < I32 then v else v - U32
  }

  /** An int in arithmetic with sizes, which are unsigned and have 64 bits. */
  function SizeT(x: int): (n: nat)
    ensures 0 <= x < U64 ==> n == x
  {
    x % U64
  }

  function Zeros(n: nat): (z: Buffer)
    ensures |z| == n && forall k :: 0 <= k < n ==> z[k] == 0
  {
    seq(n, _ => 0)
  }

  /** The four bytes of a 32-bit value, most significant first. */
  function BE32(v: nat): (b: Buffer)
    requires v < U32
    ensures |b| == 4
  {
    [v / 0x100_0000, v / 0x1_0000 % 0x100, v / 0x100 % 0x100, v % 0x100]
  }

  /** The value whose four bytes start at `i`. */
  function At32(b: Buffer, i: nat): (v: nat)
    requires i + 4 <= |b|
    ensures v < U32
  {
    0x100_0000 * (b[i] as int) + 0x1_0000 * (b[i + 1] as int) + 0x100 * (b[i + 2] as int) + b[i + 3] as int
  }

  function ReadBE32(b: Buffer, i: nat): Result<nat> {
    if i + 4 > |b| then Throw(OutOfRange) else Ok(At32(b, i))
  }

  /** Reading undoes writing, wherever the four bytes sit. */
  lemma At32UndoesBE32(before: Buffer, v: nat, after: Buffer)
    requires v < U32
    ensures At32(before + BE32(v) + after, |before|) == v
  {
    var s := before + BE32(v) + after;
    var i := |before|;
    assert s[i] == BE32(v)[0] && s[i + 1] == BE32(v)[1] && s[i + 2] == BE32(v)[2] && s[i + 3] == BE32(v)[3];
  }

  /** Writing undoes reading: the four bytes are determined by the value. */
  lemma BE32UndoesAt32(b: Buffer, i: nat)
    requires i + 4 <= |b|
    ensures BE32(At32(b, i)) == b[i..i + 4]
  {
    var v := At32(b, i);
    assert v / 0x100_0000 == b[i];
    assert v / 0x1_0000 == 0x100 * (b[i] as int) + b[i + 1] as int;
    assert v / 0x100 == 0x1_0000 * (b[i] as int) + 0x100 * (b[i + 1] as int) + b[i + 2] as int;
  }

  /** A read looks at four bytes only. */
  lemma At32Local(a: Buffer, i: nat, b: Buffer, j: nat)
    requires i + 4 <= |a| && j + 4 <= |b|
    requires a[i..i + 4] == b[j..j + 4]
    ensures At32(a, i) == At32(b, j)
  {
    var x, y := a[i..i + 4], b[j..j + 4];
    assert x[0] == a[i] && x[1] == a[i + 1] && x[2] == a[i + 2] && x[3] == a[i + 3];
    assert y[0] == b[j] && y[1] == b[j + 1] && y[2] == b[j + 2] && y[3] == b[j + 3];
  }

  /** The buffer is passed by reference in the source; here its final value is returned. */
  method WriteBE32(buffer: Buffer, value: nat) returns (b: Buffer)
    requires value < U32
    ensures |b| == |buffer| + 4 && b[..|buffer|] == buffer
    ensures At32(b, |buffer|) == value
    ensures b == buffer + BE32(value)
  {
    b := buffer + [value / 0x100_0000 % 0x100];
    b := b + [value / 0x1_0000 % 0x100];
    b := b + [value / 0x100 % 0x100];
    b := b + [value % 0x100];
    assert b == buffer + BE32(value) + [];
    At32UndoesBE32(buffer, value, []);
  }
}
