/** The reply slot a handler fills: `Replier` and its helpers in src/session_impl.hpp. */
module Replies {
  import opened Bytes
  import opened Wire
  import opened Filesystem

  /** What the transport ships: an error number, or a payload. */
  datatype Reply = Failed(errno: Errno) | Replied(payload: seq<byte>)

  /** A payload larger than the buffer becomes EIO. */
  function Fit(p: seq<byte>, cap: nat): (r: Reply) {
    if |p| > cap then Failed(EIO) else Replied(p)
  }

  /** A view of `cap` bytes at `off` in a reply buffer. */
  class Replier {
    const buf: array<byte>
    const off: nat
    const cap: nat
    var unique: u64
    var len: nat
    var negErr: i32

    ghost predicate Valid()
      reads this
    {
      off + cap <= buf.Length && len <= cap && negErr <= 0 && -0x8000_0000 < negErr && (negErr != 0 ==> len == 0)
    }

    ghost function Reply(): (r: Reply)
      requires Valid()
      reads this, buf
    {
      if negErr != 0 then Failed(-negErr) else Replied(buf[off..off + len])
    }

    constructor (buf: array<byte>, off: nat, cap: nat, unique: u64)
      requires off + cap <= buf.Length
      ensures Valid() && this.buf == buf && this.off == off && this.cap == cap && this.unique == unique
    {
      this.buf, this.off, this.cap, this.unique := buf, off, cap, unique;
      this.len, this.negErr := 0, 0;
    }

    method ReplyError(e: Errno)
      requires Valid()
      modifies this`len, this`negErr
      ensures Valid() && Reply() == Failed(e)
    {
      negErr, len := -(e as int), 0;
    }

    method ReplyOk()
      requires Valid()
      modifies this`len, this`negErr
      ensures Valid() && Reply() == Replied([])
    {
      negErr, len := 0, 0;
    }

    /** The first `n` bytes already sit in the buffer. */
    method ReplyInPlace(n: nat)
      requires Valid() && n <= cap
      modifies this`len, this`negErr
      ensures Valid() && Reply() == Replied(buf[off..off + n])
    {
      negErr, len := 0, n;
    }

    method ReplyPayload(p: seq<byte>)
      requires Valid()
      modifies this`len, this`negErr, buf
      ensures Valid() && Reply() == Fit(p, cap)
      ensures forall i :: 0 <= i < buf.Length && !(off <= i < off + cap) ==> buf[i] == old(buf[i])
    {
      if |p| > cap {
        ReplyError(EIO);
        return;
      }
      CopyInto(buf, off, p);
      negErr, len := 0, |p|;
    }
  }
}
