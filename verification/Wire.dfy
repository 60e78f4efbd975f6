/** The message headers of include/fex/fuse_uapi.h and their parse/print pairs. */
module Wire {
  import opened Bytes

  // Struct sizes.
  const IN_HEADER: nat := 40
  const OUT_HEADER: nat := 16
  const COMPOUND_IN: nat := 16
  const COMPOUND_OUT: nat := 16
  const COMPOUND_REQ: nat := 4
  const ENTRYX_OUT: nat := 32
  const NO_DEP: byte := 0xff

  // Error numbers the library itself produces.
  const EIO: int := 5
  const EBADF: int := 9
  const EINVAL: int := 22
  const ENOSYS: int := 38
  const EOPNOTSUPP: int := 95
  const ESTALE: int := 116

  // Opcodes.
  const FORGET: u32 := 2
  const READLINK: u32 := 5
  const UNLINK: u32 := 10
  const RMDIR: u32 := 11
  const LINK: u32 := 13
  const OPEN: u32 := 14
  const READ: u32 := 15
  const WRITE: u32 := 16
  const STATFS: u32 := 17
  const RELEASE: u32 := 18
  const SETXATTR: u32 := 21
  const GETXATTR: u32 := 22
  const LISTXATTR: u32 := 23
  const REMOVEXATTR: u32 := 24
  const INIT: u32 := 26
  const OPENDIR: u32 := 27
  const READDIR: u32 := 28
  const RELEASEDIR: u32 := 29
  const BATCH_FORGET: u32 := 42
  const FALLOCATE: u32 := 43
  const RENAME2: u32 := 45
  const STATX: u32 := 52
  const LOOKUP_ROOT: u32 := 54
  const LOOKUPX: u32 := 55
  const MKOBJX: u32 := 56
  const SETSTATX: u32 := 58
  const COMPOUND: u32 := 60

  datatype InHeader = InHeader(len: u32, opcode: u32, unique: u64, nodeid: u64,
                               uid: u32, gid: u32, pid: u32, extlen: u16, padding: u16)
  {
    /** Extension bytes in front of the arguments; the field counts 8-byte units. */
    function Ext(): nat { extlen * 8 }
  }

  function PutIn(h: InHeader): (s: seq<byte>)
    ensures |s| == IN_HEADER
  {
    Put32(h.len) + Put32(h.opcode) + Put64(h.unique) + Put64(h.nodeid)
    + Put32(h.uid) + Put32(h.gid) + Put32(h.pid) + Put16(h.extlen) + Put16(h.padding)
  }

  function InAt(s: seq<byte>, i: nat): (h: InHeader)
    requires i + IN_HEADER <= |s|
  {
    InHeader(At32(s, i), At32(s, i + 4), At64(s, i + 8), At64(s, i + 16),
             At32(s, i + 24), At32(s, i + 28), At32(s, i + 32), At16(s, i + 36), At16(s, i + 38))
  }

  lemma InAtPut(s: seq<byte>, i: nat, h: InHeader)
    requires i + IN_HEADER <= |s| && s[i..i + IN_HEADER] == PutIn(h)
    ensures InAt(s, i) == h
  {
    var w := PutIn(h);
    Part(s, i, w, 0, 4);
    assert w[0..4] == Put32(h.len);
    Part(s, i, w, 4, 4);
    assert w[4..8] == Put32(h.opcode);
    Part(s, i, w, 8, 8);
    assert w[8..16] == Put64(h.unique);
    Part(s, i, w, 16, 8);
    assert w[16..24] == Put64(h.nodeid);
    At32Put(s, i, h.len);
    At32Put(s, i + 4, h.opcode);
    At64Put(s, i + 8, h.unique);
    At64Put(s, i + 16, h.nodeid);
    InAtPutTail(s, i, h);
  }

  lemma InAtPutTail(s: seq<byte>, i: nat, h: InHeader)
    requires i + IN_HEADER <= |s| && s[i..i + IN_HEADER] == PutIn(h)
    ensures At32(s, i + 24) == h.uid && At32(s, i + 28) == h.gid && At32(s, i + 32) == h.pid
    ensures At16(s, i + 36) == h.extlen && At16(s, i + 38) == h.padding
  {
    var w := PutIn(h);
    Part(s, i, w, 24, 4);
    assert w[24..28] == Put32(h.uid);
    Part(s, i, w, 28, 4);
    assert w[28..32] == Put32(h.gid);
    Part(s, i, w, 32, 4);
    assert w[32..36] == Put32(h.pid);
    Part(s, i, w, 36, 2);
    assert w[36..38] == Put16(h.extlen);
    Part(s, i, w, 38, 2);
    assert w[38..40] == Put16(h.padding);
    At32Put(s, i + 24, h.uid);
    At32Put(s, i + 28, h.gid);
    At32Put(s, i + 32, h.pid);
    At16Put(s, i + 36, h.extlen);
    At16Put(s, i + 38, h.padding);
  }

  /** Printing a parsed header gives back the bytes it was parsed from. */
  lemma PutInAt(s: seq<byte>, i: nat)
    requires i + IN_HEADER <= |s|
    ensures PutIn(InAt(s, i)) == s[i..i + IN_HEADER]
  {
    hide Put16, Put32, Put64, At16, At32, At64;
    Put32At(s, i);
    Put32At(s, i + 4);
    Put64At(s, i + 8);
    Put64At(s, i + 16);
    Put32At(s, i + 24);
    Put32At(s, i + 28);
    Put32At(s, i + 32);
    Put16At(s, i + 36);
    Put16At(s, i + 38);
    assert s[i..i + 40] == s[i..i + 4] + s[i + 4..i + 8] + s[i + 8..i + 16] + s[i + 16..i + 24]
      + s[i + 24..i + 28] + s[i + 28..i + 32] + s[i + 32..i + 36] + s[i + 36..i + 38] + s[i + 38..i + 40];
  }

  datatype OutHeader = OutHeader(len: u32, error: i32, unique: u64)

  /** Two's complement. */
  function Unsigned(v: i32): (u: u32) { if v < 0 then v + TWO32 else v }
  function Signed(v: u32): (i: i32) { if v < 0x8000_0000 then v else v - TWO32 }

  function PutOut(h: OutHeader): (s: seq<byte>)
    ensures |s| == OUT_HEADER
  {
    Put32(h.len) + Put32(Unsigned(h.error)) + Put64(h.unique)
  }

  function OutAt(s: seq<byte>, i: nat): (h: OutHeader)
    requires i + OUT_HEADER <= |s|
  {
    OutHeader(At32(s, i), Signed(At32(s, i + 4)), At64(s, i + 8))
  }

  lemma OutAtPut(s: seq<byte>, i: nat, h: OutHeader)
    requires i + OUT_HEADER <= |s| && s[i..i + OUT_HEADER] == PutOut(h)
    ensures OutAt(s, i) == h
  {
    var w := PutOut(h);
    Part(s, i, w, 0, 4);
    assert w[0..4] == Put32(h.len);
    Part(s, i, w, 4, 4);
    assert w[4..8] == Put32(Unsigned(h.error));
    Part(s, i, w, 8, 8);
    assert w[8..16] == Put64(h.unique);
    At32Put(s, i, h.len);
    At32Put(s, i + 4, Unsigned(h.error));
    At64Put(s, i + 8, h.unique);
  }
}
