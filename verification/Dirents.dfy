/**
  Directory records: the packer of src/reply.cpp and, as its partner, the
  record walk FUSE_DIRENT_SIZE prescribes for the reader.
 */
module Dirents {
  import opened Bytes

  /** sizeof(struct fuse_dirent): ino, off, namelen, type; the name follows. */
  const DIRENT: nat := 24

  datatype Dirent = Dirent(name: seq<byte>, ino: u64, off: u64, kind: u32)

  /** FUSE_DIRENT_SIZE for a name of `n` bytes. */
  function RecordSize(n: nat): (size: nat)
    ensures size % 8 == 0 && DIRENT + n <= size < DIRENT + n + 8
  {
    (DIRENT + n + 7) / 8 * 8
  }

  /** One record: header, name without NUL, zeroed padding. The length field is 32 bits wide. */
  function PutDirent(e: Dirent): (s: seq<byte>)
    ensures |s| == RecordSize(|e.name|)
  {
    PutDirentHead(e) + e.name + Zeros(RecordSize(|e.name|) - DIRENT - |e.name|)
  }

  function PutDirentHead(e: Dirent): (s: seq<byte>)
    ensures |s| == DIRENT
  {
    Put64(e.ino) + Put64(e.off) + Put32(|e.name| % TWO32) + Put32(e.kind)
  }

  function PutAll(es: seq<Dirent>): (s: seq<byte>)
    ensures |s| % 8 == 0
  {
    if es == [] then []
    else
      var first, rest := PutDirent(es[0]), PutAll(es[1..]);
      AlignedSum(|first|, |rest|);
      first + rest
  }

  lemma PutAllCons(e: Dirent, rest: seq<Dirent>)
    ensures |PutAll([e] + rest)| == RecordSize(|e.name|) + |PutAll(rest)|
  {
    hide RecordSize;
    assert ([e] + rest)[1..] == rest;
  }

  lemma AlignedSum(a: nat, b: nat)
    requires a % 8 == 0 && b % 8 == 0
    ensures (a + b) % 8 == 0
  {
  }

  lemma PutAllNone()
    ensures PutAll([]) == []
  {
  }

  lemma {:induction false} PutAllSnoc(es: seq<Dirent>, e: Dirent)
    ensures PutAll(es + [e]) == PutAll(es) + PutDirent(e)
  {
    hide PutDirent;
    if es == [] {
      assert (es + [e])[1..] == [];
    } else {
      PutAllSnoc(es[1..], e);
      assert (es + [e])[1..] == es[1..] + [e];
      assert PutDirent(es[0]) + (PutAll(es[1..]) + PutDirent(e)) == PutAll(es) + PutDirent(e);
    }
  }

  /** The reader: take records while a whole one is left. */
  function Walk(s: seq<byte>): (es: seq<Dirent>)
  {
    if |s| < DIRENT then []
    else
      var n := At32(s, 16);
      var size := RecordSize(n);
      if |s| < size then []
      else [Dirent(s[DIRENT..DIRENT + n], At64(s, 0), At64(s, 8), At32(s, 20))] + Walk(s[size..])
  }

  /** The header fields of a record read back. */
  lemma HeadFields(s: seq<byte>, e: Dirent)
    requires DIRENT <= |s| && s[0..DIRENT] == PutDirentHead(e)
    ensures At64(s, 0) == e.ino && At64(s, 8) == e.off
    ensures At32(s, 16) == |e.name| % TWO32 && At32(s, 20) == e.kind
  {
    var h := PutDirentHead(e);
    Part(s, 0, h, 0, 8);
    assert h[0..8] == Put64(e.ino);
    Part(s, 0, h, 8, 8);
    assert h[8..16] == Put64(e.off);
    Part(s, 0, h, 16, 4);
    assert h[16..20] == Put32(|e.name| % TWO32);
    Part(s, 0, h, 20, 4);
    assert h[20..24] == Put32(e.kind);
    At64Put(s, 0, e.ino);
    At64Put(s, 8, e.off);
    At32Put(s, 16, |e.name| % TWO32);
    At32Put(s, 20, e.kind);
  }

  lemma WalkOne(e: Dirent, rest: seq<byte>)
    requires |e.name| < TWO32
    ensures Walk(PutDirent(e) + rest) == [e] + Walk(rest)
  {
    hide At32, At64, PutDirentHead;
    var s, size := PutDirent(e) + rest, RecordSize(|e.name|);
    assert s[0..DIRENT] == PutDirentHead(e);
    HeadFields(s, e);
    assert At32(s, 16) == |e.name|;
    assert s[DIRENT..DIRENT + |e.name|] == e.name;
    assert s[size..] == rest;
    assert Walk(s) == [Dirent(e.name, e.ino, e.off, e.kind)] + Walk(rest);
  }

  /** The bytes between a name and the next record are zero. */
  lemma PaddingIsZero(e: Dirent)
    ensures forall i :: DIRENT + |e.name| <= i < RecordSize(|e.name|) ==> PutDirent(e)[i] == 0
  {
    hide PutDirentHead;
  }

  /** Every name short enough for the 32-bit length field. */
  predicate Sized(es: seq<Dirent>) {
    forall i :: 0 <= i < |es| ==> |es[i].name| < TWO32
  }

  /** Packed records read back as the entries they were made from, in order. */
  lemma {:induction false} WalkPutAll(es: seq<Dirent>)
    requires Sized(es)
    ensures Walk(PutAll(es)) == es
  {
    if es != [] {
      WalkOne(es[0], PutAll(es[1..]));
      WalkPutAll(es[1..]);
    }
  }

  /** The entries that a run of `add` calls packs into `room` bytes: an entry that
      does not fit is refused, and a later one may still be taken. */
  function Accepted(attempts: seq<Dirent>, room: nat): (es: seq<Dirent>)
    ensures |PutAll(es)| <= room
    ensures room < TWO32 ==> Sized(es)
  {
    if attempts == [] then []
    else
      var size := RecordSize(|attempts[0].name|);
      if size > room then Accepted(attempts[1..], room)
      else [attempts[0]] + Accepted(attempts[1..], room - size)
  }

  lemma AcceptedCons(e: Dirent, rest: seq<Dirent>, room: nat)
    ensures var size := RecordSize(|e.name|);
            Accepted([e] + rest, room) == if size > room then Accepted(rest, room) else [e] + Accepted(rest, room - size)
    ensures Accepted([], room) == []
  {
    hide RecordSize, PutAll;
    assert ([e] + rest)[1..] == rest;
  }

  /** After any run of `add` calls on a buffer below 4 GiB, the reader recovers
      exactly the accepted entries, in order, and ends on a record boundary. */
  lemma DirentRoundTrip(attempts: seq<Dirent>, room: nat)
    requires room < TWO32
    ensures Walk(PutAll(Accepted(attempts, room))) == Accepted(attempts, room)
    ensures |PutAll(Accepted(attempts, room))| <= room
    ensures |PutAll(Accepted(attempts, room))| % 8 == 0
  {
    WalkPutAll(Accepted(attempts, room));
  }

  /** What one more attempt adds: the record, exactly when it fits behind the others. */
  lemma {:induction false} AcceptedSnoc(attempts: seq<Dirent>, e: Dirent, room: nat)
    ensures Accepted(attempts + [e], room) == Accepted(attempts, room)
      + if |PutAll(Accepted(attempts, room))| + RecordSize(|e.name|) <= room then [e] else []
  {
    var all := attempts + [e];
    if attempts == [] {
      assert all[1..] == [];
    } else {
      assert all[1..] == attempts[1..] + [e];
      var size := RecordSize(|attempts[0].name|);
      AcceptedSnoc(attempts[1..], e, if size > room then room else room - size);
    }
  }

  lemma AcceptedStep(attempts: seq<Dirent>, k: nat, room: nat)
    requires k < |attempts|
    ensures Accepted(attempts[..k + 1], room) == Accepted(attempts[..k], room)
      + if RecordSize(|attempts[k].name|) <= room - |PutAll(Accepted(attempts[..k], room))| then [attempts[k]] else []
  {
    assert attempts[..k + 1] == attempts[..k] + [attempts[k]];
    AcceptedSnoc(attempts[..k], attempts[k], room);
  }

  /** Header, name and padding written next to each other make the record. */
  lemma RecordInPlace(s: seq<byte>, at: nat, e: Dirent)
    requires at + RecordSize(|e.name|) <= |s|
    requires s[at..at + DIRENT] == PutDirentHead(e)
    requires s[at + DIRENT..at + DIRENT + |e.name|] == e.name
    requires forall i :: at + DIRENT + |e.name| <= i < at + RecordSize(|e.name|) ==> s[i] == 0
    ensures s[at..at + RecordSize(|e.name|)] == PutDirent(e)
  {
    var raw, size := DIRENT + |e.name|, RecordSize(|e.name|);
    assert s[at..at + size] == s[at..at + DIRENT] + s[at + DIRENT..at + raw] + s[at + raw..at + size];
    assert s[at + raw..at + size] == Zeros(size - raw);
  }

  method WriteRecord(buf: array<byte>, at: nat, e: Dirent)
    requires at + RecordSize(|e.name|) <= buf.Length
    modifies buf
    ensures buf[at..at + RecordSize(|e.name|)] == PutDirent(e)
    ensures forall i :: 0 <= i < buf.Length && !(at <= i < at + RecordSize(|e.name|)) ==> buf[i] == old(buf[i])
  {
    var raw := DIRENT + |e.name|;
    CopyInto(buf, at, PutDirentHead(e));
    CopyInto(buf, at + DIRENT, e.name);
    CopyInto(buf, at + raw, Zeros(RecordSize(|e.name|) - raw));
    RecordInPlace(buf[..], at, e);
  }

  lemma PaddedIs(n: nat, padded: nat)
    requires padded == (DIRENT + n + 7) / 8 * 8
    ensures padded == RecordSize(n)
  {
  }

  /** The writer handed to Filesystem::readdir, over the span [base, base + size) of a reply buffer. */
  class DirentWriter {
    const buf: array<byte>
    const base: nat
    const size: nat
    var pos: nat

    ghost predicate Valid()
      reads this
    {
      base + size <= buf.Length && pos <= size
    }

    /** The bytes written so far. */
    ghost function Written(): (s: seq<byte>)
      requires Valid()
      reads this, buf
    {
      buf[base..base + pos]
    }

    constructor (buf: array<byte>, base: nat, size: nat)
      requires base + size <= buf.Length
      ensures Valid() && this.buf == buf && this.base == base && this.size == size
      ensures Written() == [] && pos == 0
    {
      this.buf, this.base, this.size, this.pos := buf, base, size, 0;
    }

    /** Packs one entry, or refuses it and changes nothing. */
    method Add(e: Dirent) returns (ok: bool)
      requires Valid()
      modifies this`pos, buf
      ensures Valid()
      ensures ok <==> RecordSize(|e.name|) <= size - old(pos)
      ensures Written() == old(Written()) + if ok then PutDirent(e) else []
      ensures forall i :: 0 <= i < buf.Length && !(base + old(pos) <= i < base + pos) ==> buf[i] == old(buf[i])
    {
      hide RecordSize, PutDirent;
      var raw := DIRENT + |e.name|;
      var padded := (raw + 7) / 8 * 8;
      PaddedIs(|e.name|, padded);
      if padded > size - pos {
        return false;
      }
      var at := base + pos;
      WriteRecord(buf, at, e);
      pos := pos + padded;
      assert buf[base..base + pos] == buf[base..at] + buf[at..at + padded];
      return true;
    }

    /** A daemon's run of `add` calls leaves exactly the accepted entries. */
    method AddAll(attempts: seq<Dirent>)
      requires Valid() && pos == 0
      modifies this`pos, buf
      ensures Valid()
      ensures Written() == PutAll(Accepted(attempts, size))
      ensures forall i :: 0 <= i < buf.Length && !(base <= i < base + size) ==> buf[i] == old(buf[i])
    {
      for k := 0 to |attempts|
        invariant Valid()
        invariant Written() == PutAll(Accepted(attempts[..k], size))
        invariant forall i :: 0 <= i < buf.Length && !(base <= i < base + size) ==> buf[i] == old(buf[i])
      {
        ghost var es := Accepted(attempts[..k], size);
        assert pos == |PutAll(es)|;
        var ok := Add(attempts[k]);
        AcceptedStep(attempts, k, size);
        PutAllSnoc(es, attempts[k]);
        assert es + [] == es;
      }
      assert attempts[..|attempts|] == attempts;
    }
  }
}
