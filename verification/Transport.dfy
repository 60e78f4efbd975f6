/**
  One ring entry's buffer: the kernel splits a request over it, `handle_one` puts the
  arguments back together, dispatches, and overlays the reply.
 */
module Transport {
  import opened Bytes
  import opened Wire
  import opened Filesystem
  import opened Requests
  import opened Replies
  import opened Dispatcher
  import opened Compounds

  // struct fuse_uring_req_header: in_out, op_in, then flags, commit_id, payload_sz.
  const OP_IN: nat := 128
  const OP_IN_SIZE: nat := 128
  const COMMIT_ID: nat := 264
  const PAYLOAD_SZ: nat := 272
  const REQ_HEADER: nat := 288

  /** Bytes of the first argument: what the header counts beyond itself and the payload. */
  function FirstArg(b: seq<byte>): (n: nat)
    requires REQ_HEADER <= |b|
  {
    var len, payload := InAt(b, 0).len, At32(b, PAYLOAD_SZ);
    if len >= IN_HEADER + payload then len - IN_HEADER - payload else 0
  }

  /** The kernel fills no more payload than the entry has room for. */
  predicate Delivered(b: seq<byte>) {
    REQ_HEADER <= |b| && At32(b, PAYLOAD_SZ) <= |b| - REQ_HEADER
  }

  /** The first argument fits the op_in area. */
  predicate Reassembles(b: seq<byte>)
    requires Delivered(b)
  {
    FirstArg(b) <= OP_IN_SIZE
  }

  /** The request's arguments, put back together. */
  function Body(b: seq<byte>): (body: seq<byte>)
    requires Delivered(b) && Reassembles(b)
  {
    b[OP_IN..OP_IN + FirstArg(b)] + b[REQ_HEADER..REQ_HEADER + At32(b, PAYLOAD_SZ)]
  }

  // ---- The kernel's side -------------------------------------------------

  /** How the kernel lays a request out: the first argument in op_in, the others in the payload. */
  function Split(h: InHeader, junk: seq<byte>, first: seq<byte>, cid: u64, rest: seq<byte>, tail: seq<byte>): (b: seq<byte>)
    requires |junk| == 108 && |first| <= OP_IN_SIZE && |rest| < TWO32
  {
    PutIn(h) + junk[..88] + first + Zeros(OP_IN_SIZE - |first|)
    + junk[88..96] + Put64(cid) + Put32(|rest|) + junk[96..] + rest + tail
  }

  lemma SplitLayout(head: seq<byte>, first: seq<byte>, pad: seq<byte>, flags: seq<byte>, cid: seq<byte>, size: seq<byte>,
                    end: seq<byte>, rest: seq<byte>, tail: seq<byte>)
    requires |head| == OP_IN && |first| + |pad| == OP_IN_SIZE
    requires |flags| == 8 && |cid| == 8 && |size| == 4 && |end| == 12
    ensures var b := head + first + pad + flags + cid + size + end + rest + tail;
            && b[0..OP_IN] == head && b[OP_IN..OP_IN + |first|] == first
            && b[COMMIT_ID..COMMIT_ID + 8] == cid && b[PAYLOAD_SZ..PAYLOAD_SZ + 4] == size
            && b[REQ_HEADER..REQ_HEADER + |rest|] == rest
  {
  }

  /** Reassembly undoes the split: the arguments, header, and commit id arrive as sent. */
  lemma SplitRoundTrip(h: InHeader, junk: seq<byte>, first: seq<byte>, cid: u64, rest: seq<byte>, tail: seq<byte>)
    requires |junk| == 108 && |first| <= OP_IN_SIZE && |rest| < TWO32
    requires h.len == IN_HEADER + |first| + |rest|
    ensures var b := Split(h, junk, first, cid, rest, tail);
            && Delivered(b) && Reassembles(b) && Body(b) == first + rest
            && InAt(b, 0) == h && At64(b, COMMIT_ID) == cid
  {
    hide PutIn, InAt, Put64, At64, Put32, At32;
    var b := Split(h, junk, first, cid, rest, tail);
    var head := PutIn(h) + junk[..88];
    SplitLayout(head, first, Zeros(OP_IN_SIZE - |first|), junk[88..96], Put64(cid), Put32(|rest|), junk[96..], rest, tail);
    Part(b, 0, head, 0, IN_HEADER);
    assert head[0..IN_HEADER] == PutIn(h);
    InAtPut(b, 0, h);
    At64Put(b, COMMIT_ID, cid);
    At32Put(b, PAYLOAD_SZ, |rest|);
  }

  /** A header that counts less than the payload has no first argument, so the body is the payload. */
  lemma UndercountedBody(b: seq<byte>)
    requires Delivered(b) && InAt(b, 0).len < IN_HEADER + At32(b, PAYLOAD_SZ)
    ensures Reassembles(b) && Body(b) == b[288..288 + At32(b, PAYLOAD_SZ)]
  {
    hide InAt, At32;
  }

  // ---- handle_one --------------------------------------------------------

  /** The buffer as the kernel will read it when the reply is committed. */
  predicate Holds(b: seq<byte>, f: Frame) {
    && REQ_HEADER <= |b| && f.Size() - OUT_HEADER <= |b| - REQ_HEADER
    && OutAt(b, 0) == FrameHeader(f)
    && At32(b, PAYLOAD_SZ) == f.Size() - OUT_HEADER
    && (f.reply.Replied? ==> b[REQ_HEADER..REQ_HEADER + |f.reply.payload|] == f.reply.payload)
  }

  /** What becomes of a delivered request: refused with EIO if its first argument cannot
      have fitted op_in, dispatched otherwise. */
  function Handle<S>(fs: Filesystem<S>, s: S, b: seq<byte>): (r: (S, Reply))
    requires Delivered(b) && (Reassembles(b) ==> RequestInBounds(InAt(b, 0), Body(b)))
  {
    if !Reassembles(b) then (s, Failed(EIO)) else Request(fs, s, InAt(b, 0), Body(b), |b| - REQ_HEADER)
  }

  /** A request whose first argument cannot have fitted is EIO and touches nothing. */
  lemma HandleRefuses<S>(fs: Filesystem<S>, s: S, b: seq<byte>)
    requires Delivered(b) && InAt(b, 0).len > IN_HEADER + 128 + At32(b, PAYLOAD_SZ)
    ensures !Reassembles(b) && Handle(fs, s, b) == (s, Failed(5))
  {
    hide InAt, At32;
  }

  /** A request whose first argument fits is dispatched into the whole payload area. */
  lemma HandleDispatches<S>(fs: Filesystem<S>, s: S, b: seq<byte>)
    requires Delivered(b) && InAt(b, 0).len <= IN_HEADER + 128 + At32(b, PAYLOAD_SZ)
    ensures Reassembles(b)
    ensures RequestInBounds(InAt(b, 0), Body(b)) ==> Handle(fs, s, b) == Request(fs, s, InAt(b, 0), Body(b), |b| - 288)
  {
    hide InAt, At32, Request, Body, RequestInBounds;
  }

  /** Overlays the out-header and the reply size; the rest of the buffer stays. */
  method PutReply(buf: array<byte>, oh: OutHeader, size: u32)
    requires REQ_HEADER <= buf.Length
    modifies buf
    ensures OutAt(buf[..], 0) == oh && At32(buf[..], PAYLOAD_SZ) == size
    ensures forall i :: COMMIT_ID <= i < COMMIT_ID + 8 || REQ_HEADER <= i < buf.Length ==> buf[i] == old(buf[i])
  {
    hide OutAt, PutOut, At32, Put32;
    CopyInto(buf, 0, PutOut(oh));
    CopyInto(buf, PAYLOAD_SZ, Put32(size));
    ghost var b := buf[..];
    assert b[0..OUT_HEADER] == buf[0..OUT_HEADER] == PutOut(oh);
    assert b[PAYLOAD_SZ..PAYLOAD_SZ + 4] == buf[PAYLOAD_SZ..PAYLOAD_SZ + 4] == Put32(size);
    OutAtPut(b, 0, oh);
    At32Put(b, PAYLOAD_SZ, size);
  }

  /** Copies the arguments into the entry's scratch area. */
  method Reassemble(buf: array<byte>, scratch: array<byte>) returns (n: nat)
    requires Delivered(buf[..]) && Reassembles(buf[..]) && buf != scratch
    requires scratch.Length == OP_IN_SIZE + (buf.Length - REQ_HEADER)
    modifies scratch
    ensures n <= scratch.Length && scratch[..n] == Body(buf[..])
  {
    hide InAt, At32;
    var b := buf[..];
    var first, payload := FirstArg(b), At32(b, PAYLOAD_SZ);
    CopyInto(scratch, 0, buf[OP_IN..OP_IN + first]);
    CopyInto(scratch, first, buf[REQ_HEADER..REQ_HEADER + payload]);
    n := first + payload;
    assert scratch[0..first] == b[OP_IN..OP_IN + first];
    assert scratch[..n] == scratch[0..first] + scratch[first..n];
  }

  lemma Overlaid(b: seq<byte>, unique: u64, reply: Reply)
    requires REQ_HEADER <= |b| < TWO32 && Frame(unique, reply).Size() - OUT_HEADER <= |b| - REQ_HEADER
    requires OutAt(b, 0) == FrameHeader(Frame(unique, reply))
    requires At32(b, PAYLOAD_SZ) == Frame(unique, reply).Size() - OUT_HEADER
    requires reply.Replied? ==> b[REQ_HEADER..REQ_HEADER + |reply.payload|] == reply.payload
    ensures Holds(b, Frame(unique, reply))
  {
  }

  /** Dispatches the request in an entry and leaves the framed reply in its place, under the
      request's own unique; the commit id survives for the commit. */
  method HandleOne<S>(fs: Filesystem<S>, s: S, buf: array<byte>, scratch: array<byte>) returns (t: S, cid: u64, size: nat)
    requires Delivered(buf[..]) && buf.Length < TWO32 && buf != scratch
    requires scratch.Length == OP_IN_SIZE + (buf.Length - REQ_HEADER)
    requires Reassembles(buf[..]) ==> RequestInBounds(InAt(buf[..], 0), Body(buf[..]))
    modifies buf, scratch
    ensures var (t', reply) := old(Handle(fs, s, buf[..]));
            var f := Frame(old(InAt(buf[..], 0).unique), reply);
            t == t' && Holds(buf[..], f) && size == f.Size() - OUT_HEADER
    ensures cid == old(At64(buf[..], COMMIT_ID))
    ensures buf[COMMIT_ID..COMMIT_ID + 8] == old(buf[COMMIT_ID..COMMIT_ID + 8])
  {
    hide InAt, OutAt, At32, At64, Request, Compound, Dispatch, Body, FirstArg, RequestInBounds;
    var b := buf[..];
    cid := At64(b, COMMIT_ID);
    var h := InAt(b, 0);
    if !Reassembles(b) {
      t, size := s, 0;
      PutReply(buf, OutHeader(OUT_HEADER, -EIO, h.unique), 0);
      Overlaid(buf[..], h.unique, Failed(EIO));
      return;
    }
    var n := Reassemble(buf, scratch);
    var cap := buf.Length - REQ_HEADER;
    var r := new Replier(buf, REQ_HEADER, cap, h.unique);
    t := DispatchRequest(fs, s, h, scratch[..n], r);
    ghost var reply := r.Reply();
    size := r.len;
    PutReply(buf, OutHeader((OUT_HEADER + r.len) % TWO32, r.negErr, r.unique), r.len);
    ghost var payload := buf[REQ_HEADER..REQ_HEADER + size];
    assert reply.Replied? ==> payload == reply.payload;
    assert buf[..][REQ_HEADER..REQ_HEADER + size] == payload;
    Overlaid(buf[..], h.unique, reply);
  }
}
