/**
  Bytes and the fixed-width integers of the wire structs. The protocol is
  host-endian; the model fixes little-endian, as on the hosts the kernel module
  runs on. `At` functions read a field in place, `Put` functions print it, and
  each pair is a bijection.
 */
module Bytes {
  type byte = x: int | 0 <= x < 0x100
  type u16 = x: int | 0 <= x < 0x1_0000
  type u32 = x: int | 0 <= x < 0x1_0000_0000
  type u64 = x: int | 0 <= x < 0x1_0000_0000_0000_0000
  type i32 = x: int | -0x8000_0000 <= x < 0x8000_0000

  const TWO32: int := 0x1_0000_0000
  const TWO64: int := 0x1_0000_0000_0000_0000

  /** A run of `n` zero bytes, what memset leaves behind. */
  function Zeros(n: nat): (s: seq<byte>)
    ensures |s| == n && forall i :: 0 <= i < n ==> s[i] == 0
  {
    seq(n, i => 0)
  }

  function Min(a: nat, b: nat): (m: nat)
    ensures m <= a && m <= b && (m == a || m == b)
  {
    if a <= b then a else b
  }

  function Put16(v: u16): (s: seq<byte>)
    ensures |s| == 2
  {
    [v % 256, v / 256]
  }

  function Put32(v: u32): (s: seq<byte>)
    ensures |s| == 4
  {
    [v % 256, v / 256 % 256, v / 0x1_0000 % 256, v / 0x100_0000]
  }

  function Put64(v: u64): (s: seq<byte>)
    ensures |s| == 8
  {
    Put32(v % TWO32) + Put32(v / TWO32)
  }

  function At16(s: seq<byte>, i: nat): (v: u16)
    requires i + 2 <= |s|
  {
    s[i] as int + 256 * s[i + 1] as int
  }

  function At32(s: seq<byte>, i: nat): (v: u32)
    requires i + 4 <= |s|
  {
    s[i] as int + 256 * s[i + 1] as int + 0x1_0000 * s[i + 2] as int + 0x100_0000 * s[i + 3] as int
  }

  function At64(s: seq<byte>, i: nat): (v: u64)
    requires i + 8 <= |s|
  {
    At32(s, i) + TWO32 * At32(s, i + 4)
  }

  /** The low byte comes first. */
  lemma LowByteFirst(v: byte)
    ensures Put16(v) == [v] + Zeros(1) && Put32(v) == [v] + Zeros(3) && Put64(v) == [v] + Zeros(7)
  {
  }

  lemma At16Put(s: seq<byte>, i: nat, v: u16)
    requires i + 2 <= |s| && s[i..i + 2] == Put16(v)
    ensures At16(s, i) == v
  {
    assert s[i] == Put16(v)[0] && s[i + 1] == Put16(v)[1];
  }

  lemma Digits32(v: u32)
    ensures v % 256 + 256 * (v / 256 % 256) + 0x1_0000 * (v / 0x1_0000 % 256) + 0x100_0000 * (v / 0x100_0000) == v
  {
    assert v / 0x1_0000 == v / 256 / 256;
    assert v / 0x100_0000 == v / 0x1_0000 / 256;
  }

  lemma At32Put(s: seq<byte>, i: nat, v: u32)
    requires i + 4 <= |s| && s[i..i + 4] == Put32(v)
    ensures At32(s, i) == v
  {
    var p := Put32(v);
    assert s[i] == p[0] && s[i + 1] == p[1] && s[i + 2] == p[2] && s[i + 3] == p[3];
    Digits32(v);
  }

  lemma At64Put(s: seq<byte>, i: nat, v: u64)
    requires i + 8 <= |s| && s[i..i + 8] == Put64(v)
    ensures At64(s, i) == v
  {
    var lo, hi := Put32(v % TWO32), Put32(v / TWO32);
    assert s[i..i + 8][..4] == s[i..i + 4] == lo;
    assert s[i..i + 8][4..] == s[i + 4..i + 4 + 4] == hi;
    At32Put(s, i, v % TWO32);
    At32Put(s, i + 4, v / TWO32);
  }

  lemma Put16At(s: seq<byte>, i: nat)
    requires i + 2 <= |s|
    ensures Put16(At16(s, i)) == s[i..i + 2]
  {
  }

  lemma Put32At(s: seq<byte>, i: nat)
    requires i + 4 <= |s|
    ensures Put32(At32(s, i)) == s[i..i + 4]
  {
    var a, b, c, d := s[i] as int, s[i + 1] as int, s[i + 2] as int, s[i + 3] as int;
    LowByte(a, b + 256 * c + 0x1_0000 * d);
    LowByte(b, c + 256 * d);
    LowByte(c, d);
    Shifted(At32(s, i));
  }

  lemma LowByte(low: int, rest: nat)
    requires 0 <= low < 256
    ensures (low + 256 * rest) % 256 == low && (low + 256 * rest) / 256 == rest
  {
  }

  lemma FirstByte(s: seq<byte>, i: nat)
    requires i + 8 <= |s|
    ensures At64(s, i) % 256 == s[i]
  {
    var rest := s[i + 1] as int + 256 * s[i + 2] as int + 0x1_0000 * s[i + 3] as int + 0x100_0000 * At32(s, i + 4);
    assert At64(s, i) == s[i] as int + 256 * rest;
    LowByte(s[i] as int, rest);
  }

  lemma Shifted(v: nat)
    ensures v / 0x1_0000 == v / 256 / 256 && v / 0x100_0000 == v / 256 / 256 / 256
  {
  }

  lemma Put64At(s: seq<byte>, i: nat)
    requires i + 8 <= |s|
    ensures Put64(At64(s, i)) == s[i..i + 8]
  {
    var v := At64(s, i);
    assert v % TWO32 == At32(s, i) && v / TWO32 == At32(s, i + 4);
    Put32At(s, i);
    Put32At(s, i + 4);
    assert s[i..i + 4] + s[i + 4..i + 8] == s[i..i + 8];
  }

  /** A field between a prefix and a rest sits at the prefix's length. */
  lemma Middle<T>(pre: seq<T>, mid: seq<T>, post: seq<T>)
    ensures (pre + mid + post)[|pre|..|pre| + |mid|] == mid
  {
  }

  /** A part of a part, addressed in the whole. */
  lemma Part<T>(s: seq<T>, i: nat, w: seq<T>, k: nat, n: nat)
    requires i + |w| <= |s| && s[i..i + |w|] == w && k + n <= |w|
    ensures s[i + k..i + k + n] == w[k..k + n]
  {
    var a, b := s[i + k..i + k + n], w[k..k + n];
    forall j | 0 <= j < n
      ensures a[j] == b[j]
    {
      assert a[j] == s[i + (k + j)] == s[i..i + |w|][k + j];
    }
  }

  /** strnlen: the index of the first NUL, or the length when there is none. */
  function StrNLen(s: seq<byte>): (n: nat)
    ensures n <= |s|
    ensures forall i :: 0 <= i < n ==> s[i] != 0
    ensures n < |s| ==> s[n] == 0
  {
    if s == [] || s[0] == 0 then 0 else 1 + StrNLen(s[1..])
  }

  /** A file name as a C string can carry it. */
  predicate NulFree(name: seq<byte>) {
    forall i :: 0 <= i < |name| ==> name[i] != 0
  }

  /** strnlen recovers a NUL-free name that a NUL or the end of the buffer follows. */
  lemma StrNLenUpTo(name: seq<byte>, tail: seq<byte>)
    requires NulFree(name) && (tail == [] || tail[0] == 0)
    ensures StrNLen(name + tail) == |name|
  {
    hide StrNLen;
    var s := name + tail;
    assert forall i :: 0 <= i < |name| ==> s[i] == name[i];
    assert tail != [] ==> s[|name|] == 0;
    assert StrNLen(s) < |s| ==> s[StrNLen(s)] == 0;
  }

  /** strnlen recovers a NUL-free name from its terminated form, whatever follows. */
  lemma StrNLenOfTerminated(name: seq<byte>, rest: seq<byte>)
    requires NulFree(name)
    ensures StrNLen(name + [0] + rest) == |name|
  {
    assert name + [0] + rest == name + ([0] + rest);
    StrNLenUpTo(name, [0] + rest);
  }

  /** memcpy of `src` to `dst + at`. */
  method CopyInto(dst: array<byte>, at: nat, src: seq<byte>)
    requires at + |src| <= dst.Length
    modifies dst
    ensures dst[at..at + |src|] == src
    ensures forall i :: 0 <= i < dst.Length && !(at <= i < at + |src|) ==> dst[i] == old(dst[i])
  {
    for k := 0 to |src|
      invariant dst[at..at + k] == src[..k]
      invariant forall i :: 0 <= i < dst.Length && !(at <= i < at + k) ==> dst[i] == old(dst[i])
    {
      dst[at + k] := src[k];
      assert dst[at..at + k + 1] == dst[at..at + k] + [src[k]];
    }
  }
}
