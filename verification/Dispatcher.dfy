/** `dispatch` for every opcode but COMPOUND: decode, call the daemon, fill the reply. */
module Dispatcher {
  import opened Bytes
  import opened Wire
  import opened Filesystem
  import opened Requests
  import opened Replies
  import Dirents

  // ---- Reply images ------------------------------------------------------

  function EntryImage(e: EntryOut, flags: u32): (s: seq<byte>)
    ensures |s| == ENTRYX_OUT
  {
    Put64(e.nodeid) + Put64(e.validSec) + Put32(e.validNsec) + Put32(flags) + Put64(0)
  }

  /** MKOBJX never reports a negative entry. */
  function EntryFlags(c: EntryCall, e: EntryOut): (f: u32) {
    if e.negative && !c.Mkobjx? then 1 else 0
  }

  /** OPENDIR forces FOPEN_CACHE_DIR, bit 3. */
  function OpenFlags(c: OpenCall, flags: u32): (f: u32) {
    if c.Opendir? && flags / 8 % 2 == 0 then flags + 8 else flags
  }

  function OpenImage(fh: u64, flags: u32): (s: seq<byte>)
    ensures |s| == 16
  {
    Put64(fh) + Put32(flags) + Put32(0)
  }

  /** A byte count is cut to its 32-bit field. */
  function CountImage(n: nat): (s: seq<byte>)
    ensures |s| == 8
  {
    Put32(n % TWO32) + Put32(0)
  }

  // ---- Specification -----------------------------------------------------

  function Answer(rv: Result<seq<byte>>, cap: nat): (r: Reply) {
    match rv
    case Err(e) => Failed(e)
    case Ok(image) => Fit(image, cap)
  }

  function EntryBytes(c: EntryCall, rv: Result<EntryOut>): (r: Result<seq<byte>>) {
    match rv
    case Err(e) => Err(e)
    case Ok(v) => Ok(EntryImage(v, EntryFlags(c, v)))
  }

  function OpenBytes(c: OpenCall, rv: Result<OpenOut>): (r: Result<seq<byte>>) {
    match rv
    case Err(e) => Err(e)
    case Ok(v) => Ok(OpenImage(v.fh, OpenFlags(c, v.flags)))
  }

  function CountBytes(rv: Result<nat>): (r: Result<seq<byte>>) {
    match rv
    case Err(e) => Err(e)
    case Ok(n) => Ok(CountImage(n))
  }

  function UnitBytes(rv: Result<()>): (r: Result<seq<byte>>) {
    match rv
    case Err(e) => Err(e)
    case Ok(_) => Ok([])
  }

  function Serve<S>(fs: Filesystem<S>, s: S, call: Call, cap: nat): (r: (S, Reply)) {
    match call
    case Nothing => (s, Replied([]))
    case Drop(c) => (fs.forget(s, c), Replied([]))
    case Init(args) => var (t, rv) := fs.init(s, args); (t, Answer(rv, cap))
    case Entry(c) => var (t, rv) := fs.entry(s, c); (t, Answer(EntryBytes(c, rv), cap))
    case Attr(c) => var (t, rv) := fs.attr(s, c); (t, Answer(rv, cap))
    case OpenAny(c) => var (t, rv) := fs.open(s, c); (t, Answer(OpenBytes(c, rv), cap))
    case Unit(c) => var (t, rv) := fs.unit(s, c); (t, Answer(UnitBytes(rv), cap))
    case Count(c) => var (t, rv) := fs.count(s, c); (t, Answer(CountBytes(rv), cap))
    case Readlink(x, n) => var (t, rv) := fs.readlink(s, x, n); (t, Answer(rv, cap))
    case Statfs(x, n) => var (t, rv) := fs.statfs(s, x, n); (t, Answer(rv, cap))
    case Fill(c) =>
      var (t, rv, _) := fs.fill(s, c);
      (t, if rv.Err? then Failed(rv.errno) else Replied(rv.value[..Min(|rv.value|, c.want)]))
    case Readdir(x, n, fh, offset, room) =>
      var (t, rv, _) := fs.readdir(s, x, n, fh, offset, room);
      (t, if rv.Err? then Failed(rv.errno) else Replied(Dirents.PutAll(Dirents.Accepted(rv.value, room))))
  }

  /** What dispatching a request does to the daemon, and what it replies in `cap` bytes. */
  function Dispatch<S>(fs: Filesystem<S>, s: S, h: InHeader, body: seq<byte>, cap: nat): (r: (S, Reply))
    requires InBounds(h, body)
  {
    match Decode(h, body, cap)
    case Err(e) => (s, Failed(e))
    case Ok(call) => Serve(fs, s, call, cap)
  }

  /** The span a callback is given never exceeds the reply room. */
  predicate Spanned(call: Call, cap: nat) {
    (call.Fill? ==> call.fill.want <= cap) && (call.Readdir? ==> call.room <= cap)
  }

  lemma DecodeSpans(h: InHeader, body: seq<byte>, cap: nat)
    requires InBounds(h, body)
    ensures Decode(h, body, cap).Ok? ==> Spanned(Decode(h, body, cap).value, cap)
  {
  }

  lemma ReplyBounded<S>(fs: Filesystem<S>, s: S, call: Call, cap: nat)
    requires Spanned(call, cap)
    ensures var r := Serve(fs, s, call, cap).1; r.Replied? ==> |r.payload| <= cap
  {
  }

  // ---- Implementation ----------------------------------------------------

  /** Nothing outside the reply slot has changed. */
  twostate predicate OnlySlot(r: Replier)
    reads r.buf
  {
    forall i :: 0 <= i < r.buf.Length && !(r.off <= i < r.off + r.cap) ==> r.buf[i] == old(r.buf[i])
  }

  method ReplyResult(rv: Result<seq<byte>>, r: Replier)
    requires r.Valid()
    modifies r`len, r`negErr, r.buf
    ensures r.Valid() && r.Reply() == Answer(rv, r.cap) && OnlySlot(r)
  {
    match rv {
      case Err(e) => r.ReplyError(e);
      case Ok(image) => r.ReplyPayload(image);
    }
  }

  lemma FillServed<S>(fs: Filesystem<S>, s: S, c: FillCall, cap: nat)
    ensures var (t, rv, _) := fs.fill(s, c);
      Serve(fs, s, Fill(c), cap)
      == (t, if rv.Err? then Failed(rv.errno) else Replied(rv.value[..Min(|rv.value|, c.want)]))
  {
  }

  /** Data followed by zeros up to `want` bytes, or cut to them. */
  function ZeroFilled(data: seq<byte>, want: nat): (s: seq<byte>)
    ensures |s| == want
  {
    data[..Min(|data|, want)] + Zeros(want - Min(|data|, want))
  }

  /** The span a READ offers, and what the daemon puts into it. */
  function ReadCall(h: InHeader, body: seq<byte>, cap: nat): (c: FillCall)
    requires HasArg(h, body, 40)
  {
    Read(Ctx(h), h.nodeid, At64(body, h.Ext()), At64(body, h.Ext() + 8), Min(At32(body, h.Ext() + 16), cap))
  }

  lemma ReadServed<S>(fs: Filesystem<S>, s: S, h: InHeader, body: seq<byte>, cap: nat)
    requires h.opcode == READ && HasArg(h, body, 40)
    ensures var c := ReadCall(h, body, cap);
            var (t, rv, _) := fs.fill(s, c);
            Dispatch(fs, s, h, body, cap)
            == (t, if rv.Err? then Failed(rv.errno) else Replied(rv.value[..Min(|rv.value|, c.want)]))
  {
    hide At32, At64, Serve;
    FillServed(fs, s, ReadCall(h, body, cap), cap);
  }

  /** A READ that succeeds is answered with the daemon's data zero-filled to the span exactly
      when the daemon filled the span; any other reply is the data alone, and shorter. */
  lemma ShortReadIff<S>(fs: Filesystem<S>, s: S, h: InHeader, body: seq<byte>, cap: nat)
    requires h.opcode == READ && HasArg(h, body, 40) && fs.fill(s, ReadCall(h, body, cap)).1.Ok?
    ensures var c := ReadCall(h, body, cap);
            var data, reply := fs.fill(s, c).1.value, Dispatch(fs, s, h, body, cap).1;
            && reply.Replied?
            && (reply.payload == ZeroFilled(data, c.want) <==> |data| >= c.want)
            && (|data| < c.want ==> reply.payload == data && |reply.payload| < c.want)
  {
    hide Dispatch, At32, At64;
    ReadServed(fs, s, h, body, cap);
    var c := ReadCall(h, body, cap);
    var data := fs.fill(s, c).1.value;
    assert |data| >= c.want ==> ZeroFilled(data, c.want) == data[..c.want];
  }

  /** One short read: asked for eight bytes, a daemon with one byte left gets one byte sent. */
  lemma ShortRead<S>(fs: Filesystem<S>, s: S)
    requires forall c: FillCall :: fs.fill(s, c) == (s, Ok([97]), [])
    ensures var h := InHeader(80, READ, 0, 0, 0, 0, 0, 0, 0);
            var body := Zeros(16) + Put32(8) + Zeros(20);
            Dispatch(fs, s, h, body, 4096) == (s, Replied([97])) != (s, Replied(ZeroFilled([97], 8)))
  {
    hide At64, Dispatch;
    var h := InHeader(80, READ, 0, 0, 0, 0, 0, 0, 0);
    var body := Zeros(16) + Put32(8) + Zeros(20);
    assert body[16..20] == Put32(8);
    At32Put(body, 16, 8);
    ReadServed(fs, s, h, body, 4096);
    var one: seq<byte> := [97];
    assert one[..1] == one;
  }

  /** READ, GETXATTR, LISTXATTR: the daemon writes straight into the reply buffer. */
  method ServeFill<S>(fs: Filesystem<S>, s: S, c: FillCall, r: Replier) returns (t: S)
    requires r.Valid() && c.want <= r.cap
    modifies r`len, r`negErr, r.buf
    ensures r.Valid() && (t, r.Reply()) == Serve(fs, s, Fill(c), r.cap) && OnlySlot(r)
  {
    hide Serve;
    FillServed(fs, s, c, r.cap);
    var (t', rv, scribble) := fs.fill(s, c);
    t := t';
    var written := if rv.Ok? then rv.value + scribble else scribble;
    var m := Min(|written|, c.want);
    CopyInto(r.buf, r.off, written[..m]);
    if rv.Err? {
      r.ReplyError(rv.errno);
    } else {
      var n := Min(|rv.value|, c.want);
      Part(r.buf[..], r.off, written[..m], 0, n);
      assert written[..m][..n] == rv.value[..n];
      r.ReplyInPlace(n);
    }
  }

  /** A writer over the first `room` bytes of the slot, and the daemon's `add` calls on it. */
  method Pack(attempts: seq<Dirents.Dirent>, room: nat, r: Replier) returns (n: nat)
    requires r.Valid() && room <= r.cap
    modifies r.buf
    ensures n <= room && r.buf[r.off..r.off + n] == Dirents.PutAll(Dirents.Accepted(attempts, room)) && OnlySlot(r)
  {
    var w := new Dirents.DirentWriter(r.buf, r.off, room);
    w.AddAll(attempts);
    n := w.pos;
  }

  method ServeReaddir<S>(fs: Filesystem<S>, s: S, x: Context, node: u64, fh: u64, offset: u64, room: nat, r: Replier)
    returns (t: S)
    requires r.Valid() && room <= r.cap
    modifies r`len, r`negErr, r.buf
    ensures r.Valid() && (t, r.Reply()) == Serve(fs, s, Readdir(x, node, fh, offset, room), r.cap) && OnlySlot(r)
  {
    var (t', rv, partial) := fs.readdir(s, x, node, fh, offset, room);
    t := t';
    var n := Pack(if rv.Ok? then rv.value else partial, room, r);
    if rv.Err? {
      r.ReplyError(rv.errno);
    } else {
      r.ReplyInPlace(n);
    }
  }

  method ServeCall<S>(fs: Filesystem<S>, s: S, call: Call, r: Replier) returns (t: S)
    requires r.Valid() && Spanned(call, r.cap)
    modifies r`len, r`negErr, r.buf
    ensures r.Valid() && (t, r.Reply()) == Serve(fs, s, call, r.cap) && OnlySlot(r)
  {
    match call {
      case Nothing => t := s; r.ReplyOk();
      case Drop(c) => t := fs.forget(s, c); r.ReplyOk();
      case Init(args) => var (t', rv) := fs.init(s, args); t := t'; ReplyResult(rv, r);
      case Entry(c) => var (t', rv) := fs.entry(s, c); t := t'; ReplyResult(EntryBytes(c, rv), r);
      case Attr(c) => var (t', rv) := fs.attr(s, c); t := t'; ReplyResult(rv, r);
      case OpenAny(c) => var (t', rv) := fs.open(s, c); t := t'; ReplyResult(OpenBytes(c, rv), r);
      case Unit(c) => var (t', rv) := fs.unit(s, c); t := t'; ReplyResult(UnitBytes(rv), r);
      case Count(c) => var (t', rv) := fs.count(s, c); t := t'; ReplyResult(CountBytes(rv), r);
      case Readlink(x, n) => var (t', rv) := fs.readlink(s, x, n); t := t'; ReplyResult(rv, r);
      case Statfs(x, n) => var (t', rv) := fs.statfs(s, x, n); t := t'; ReplyResult(rv, r);
      case Fill(c) => t := ServeFill(fs, s, c, r);
      case Readdir(x, n, fh, offset, room) => t := ServeReaddir(fs, s, x, n, fh, offset, room, r);
    }
  }

  lemma BatchForgetCases<S>(fs: Filesystem<S>, s: S, h: InHeader, body: seq<byte>, cap: nat)
    requires h.opcode == BATCH_FORGET
    ensures !HasArg(h, body, 8) ==> Dispatch(fs, s, h, body, cap) == (s, Failed(EINVAL))
    ensures HasArg(h, body, 8) ==>
      var count: nat := At32(body, h.Ext());
      Dispatch(fs, s, h, body, cap)
      == (if |body| < 8 + 16 * count then s else fs.forget(s, ForgetMulti(ForgetItems(body, count))), Replied([]))
  {
    hide At32, At64, ForgetItems;
  }

  /** BATCH_FORGET repacks the wire items one by one, then hands them over. */
  method HandleBatchForget<S>(fs: Filesystem<S>, s: S, h: InHeader, body: seq<byte>, r: Replier) returns (t: S)
    requires r.Valid() && h.opcode == BATCH_FORGET
    modifies r`len, r`negErr
    ensures r.Valid() && (t, r.Reply()) == Dispatch(fs, s, h, body, r.cap)
  {
    hide Dispatch, At32, At64;
    BatchForgetCases(fs, s, h, body, r.cap);
    t := s;
    if !HasArg(h, body, 8) {
      r.ReplyError(EINVAL);
      return;
    }
    var count: nat := At32(body, h.Ext());
    if |body| < 8 + 16 * count {
      r.ReplyOk();
      return;
    }
    var repacked: seq<(u64, u64)> := [];
    for i := 0 to count
      invariant repacked == ForgetItems(body, i)
    {
      repacked := repacked + [(At64(body, 8 + 16 * i), At64(body, 8 + 16 * i + 8))];
    }
    t := fs.forget(s, ForgetMulti(repacked));
    r.ReplyOk();
  }

  /** The switch, COMPOUND aside. */
  method DispatchPlain<S>(fs: Filesystem<S>, s: S, h: InHeader, body: seq<byte>, r: Replier) returns (t: S)
    requires r.Valid() && InBounds(h, body)
    modifies r`len, r`negErr, r.buf
    ensures r.Valid() && (t, r.Reply()) == Dispatch(fs, s, h, body, r.cap) && OnlySlot(r)
  {
    if h.opcode == BATCH_FORGET {
      t := HandleBatchForget(fs, s, h, body, r);
      return;
    }
    DecodeSpans(h, body, r.cap);
    match Decode(h, body, r.cap) {
      case Err(e) =>
        t := s;
        r.ReplyError(e);
      case Ok(call) =>
        t := ServeCall(fs, s, call, r);
    }
  }
}
