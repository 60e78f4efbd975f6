/**
  COMPOUND: several requests in one message, run in order, with the nodeid one
  of them produced threaded into later ones. The specification parses the body
  into subrequests, folds dispatch over them and prints the replies; the loop of
  `handle_compound` does all three at once, in place.
 */
module Compounds {
  import opened Bytes
  import opened Wire
  import opened Filesystem
  import opened Requests
  import opened Replies
  import opened Dispatcher

  // ---- Parsing -----------------------------------------------------------

  datatype SubReq = SubReq(dep: byte, reserved: seq<byte>, h: InHeader, args: seq<byte>)

  const SUB_HEADERS: nat := COMPOUND_REQ + IN_HEADER

  /** A subrequest a sender can print: its header counts its own bytes. */
  predicate WellFormed(r: SubReq) {
    |r.reserved| == 3 && r.h.len == IN_HEADER + |r.args|
  }

  function PutSub(r: SubReq): (s: seq<byte>) {
    [r.dep] + r.reserved + PutIn(r.h) + r.args
  }

  function PutSubs(rs: seq<SubReq>): (s: seq<byte>) {
    if rs == [] then [] else PutSub(rs[0]) + PutSubs(rs[1..])
  }

  /** A whole subrequest starts at `p`. */
  predicate SubFits(body: seq<byte>, p: nat) {
    && p + SUB_HEADERS <= |body|
    && var len := InAt(body, p + COMPOUND_REQ).len;
       IN_HEADER <= len && p + COMPOUND_REQ + len <= |body|
  }

  function SubEnd(body: seq<byte>, p: nat): (q: nat)
    requires SubFits(body, p)
    ensures p < q <= |body|
  {
    p + COMPOUND_REQ + InAt(body, p + COMPOUND_REQ).len
  }

  function SubAt(body: seq<byte>, p: nat): (r: SubReq)
    requires SubFits(body, p)
    ensures WellFormed(r)
  {
    SubReq(body[p], body[p + 1..p + 4], InAt(body, p + COMPOUND_REQ), body[p + SUB_HEADERS..SubEnd(body, p)])
  }

  /** The subrequests from `p` on, up to the first malformed one. */
  datatype Parsed = Parsed(subs: seq<SubReq>, complete: bool)

  function Parse(body: seq<byte>, p: nat): (r: Parsed)
    requires p <= |body|
    ensures forall i :: 0 <= i < |r.subs| ==> WellFormed(r.subs[i])
    decreases |body| - p
  {
    if p == |body| then Parsed([], true)
    else if !SubFits(body, p) then Parsed([], false)
    else
      var rest := Parse(body, SubEnd(body, p));
      Parsed([SubAt(body, p)] + rest.subs, rest.complete)
  }

  lemma SubAtPut(body: seq<byte>, p: nat, r: SubReq)
    requires WellFormed(r) && p + |PutSub(r)| <= |body| && body[p..p + |PutSub(r)|] == PutSub(r)
    ensures SubFits(body, p) && SubAt(body, p) == r && SubEnd(body, p) == p + |PutSub(r)|
  {
    hide PutIn, InAt;
    var w := PutSub(r);
    Part(body, p, w, 0, 1);
    Part(body, p, w, 1, 3);
    Part(body, p, w, COMPOUND_REQ, IN_HEADER);
    Part(body, p, w, SUB_HEADERS, |r.args|);
    assert w[0..1] == [r.dep] && w[1..4] == r.reserved;
    assert w[COMPOUND_REQ..SUB_HEADERS] == PutIn(r.h);
    assert w[SUB_HEADERS..SUB_HEADERS + |r.args|] == r.args;
    assert body[p] == body[p..p + 1][0];
    InAtPut(body, p + COMPOUND_REQ, r.h);
  }

  lemma ParseStep(pre: seq<byte>, w: seq<byte>, post: seq<byte>, r: SubReq)
    requires WellFormed(r) && w == PutSub(r)
    ensures var body := pre + w + post;
            var rest := Parse(body, |pre| + |w|);
            Parse(body, |pre|) == Parsed([r] + rest.subs, rest.complete)
  {
    hide Put32, Put64, Put16, At32, At64, At16, PutIn, InAt;
    var body := pre + w + post;
    Middle(pre, w, post);
    SubAtPut(body, |pre|, r);
  }

  /** Parsing undoes printing. */
  lemma {:induction false} ParsePut(pre: seq<byte>, rs: seq<SubReq>)
    requires forall i :: 0 <= i < |rs| ==> WellFormed(rs[i])
    ensures Parse(pre + PutSubs(rs), |pre|) == Parsed(rs, true)
    decreases |rs|
  {
    hide PutSub, SubFits, SubAt, SubEnd;
    if rs != [] {
      var w, tail := PutSub(rs[0]), PutSubs(rs[1..]);
      ParseStep(pre, w, tail, rs[0]);
      ParsePut(pre + w, rs[1..]);
      assert pre + PutSubs(rs) == pre + w + tail;
      assert [rs[0]] + rs[1..] == rs;
    }
  }

  lemma PutSubAt(body: seq<byte>, p: nat)
    requires SubFits(body, p)
    ensures PutSub(SubAt(body, p)) == body[p..SubEnd(body, p)]
  {
    hide Put16, Put32, Put64, At16, At32, At64, PutIn, InAt;
    PutInAt(body, p + COMPOUND_REQ);
    var q := SubEnd(body, p);
    assert body[p..q] == [body[p]] + body[p + 1..p + 4] + body[p + 4..p + SUB_HEADERS] + body[p + SUB_HEADERS..q];
  }

  /** Printing undoes parsing: a body that parses completely is the print of its
      subrequests, so parsing rejects exactly the bodies no sender can print. */
  lemma {:induction false} PutParse(body: seq<byte>, p: nat)
    requires p <= |body| && Parse(body, p).complete
    ensures PutSubs(Parse(body, p).subs) == body[p..]
    decreases |body| - p
  {
    hide PutSub, SubFits, SubAt, SubEnd, InAt, WellFormed;
    if p < |body| {
      var q := SubEnd(body, p);
      PutSubAt(body, p);
      PutParse(body, q);
      var subs, rest := Parse(body, p).subs, Parse(body, q).subs;
      assert subs[0] == SubAt(body, p) && subs[1..] == rest;
      assert body[p..] == body[p..q] + body[q..];
    }
  }

  // ---- Running -----------------------------------------------------------

  /** Only a nodeid produced by an earlier subrequest is threaded in. */
  function Threaded(r: SubReq, produced: seq<u64>): (h: InHeader) {
    if r.dep != NO_DEP && r.dep < |produced| then r.h.(nodeid := produced[r.dep]) else r.h
  }

  predicate MakesEntry(op: u32) {
    op == LOOKUPX || op == MKOBJX || op == LOOKUP_ROOT
  }

  /** The nodeid a reply hands to later subrequests, 0 when it has none. */
  function Produced(op: u32, reply: Reply): (n: u64) {
    if reply.Replied? && |reply.payload| >= 8 && MakesEntry(op) then At64(reply.payload, 0) else 0
  }

  /** A subrequest's own effect and reply. Compounds do not nest. */
  function SubReply<S>(fs: Filesystem<S>, s: S, h: InHeader, args: seq<byte>, cap: nat): (r: (S, Reply))
    requires InBounds(h, args)
    ensures r.1.Replied? ==> |r.1.payload| <= cap
  {
    if h.opcode == COMPOUND then (s, Failed(EOPNOTSUPP))
    else
      DispatchBounded(fs, s, h, args, cap);
      Dispatch(fs, s, h, args, cap)
  }

  lemma DispatchBounded<S>(fs: Filesystem<S>, s: S, h: InHeader, args: seq<byte>, cap: nat)
    requires InBounds(h, args)
    ensures var r := Dispatch(fs, s, h, args, cap).1; r.Replied? ==> |r.payload| <= cap
  {
    DecodeSpans(h, args, cap);
    var d := Decode(h, args, cap);
    if d.Ok? {
      ReplyBounded(fs, s, d.value, cap);
    }
  }

  datatype Frame = Frame(unique: u64, reply: Reply) {
    function Size(): nat { OUT_HEADER + if reply.Failed? then 0 else |reply.payload| }
  }

  /** How a run ends: the daemon's state, the frames made, and whether there was room for all. */
  datatype Outcome<S> = Outcome(state: S, frames: seq<Frame>, accepted: bool)

  predicate AllInBounds(rs: seq<SubReq>) {
    forall i :: 0 <= i < |rs| ==> InBounds(rs[i].h, rs[i].args)
  }

  /** Runs the subrequests in order, stopping when not even a header fits. */
  function Fold<S>(fs: Filesystem<S>, s: S, rs: seq<SubReq>, produced: seq<u64>, room: nat): (o: Outcome<S>)
    requires AllInBounds(rs)
    ensures |o.frames| <= |rs| && (o.accepted <==> |o.frames| == |rs|)
    decreases |rs|
  {
    if rs == [] then Outcome(s, [], true)
    else if room < OUT_HEADER then Outcome(s, [], false)
    else
      var h := Threaded(rs[0], produced);
      var (t, reply) := SubReply(fs, s, h, rs[0].args, room - OUT_HEADER);
      var frame := Frame(h.unique, reply);
      var rest := Fold(fs, t, rs[1..], produced + [Produced(h.opcode, reply)], room - frame.Size());
      Outcome(rest.state, [frame] + rest.frames, rest.accepted)
  }

  // ---- Printing ----------------------------------------------------------

  function FrameHeader(f: Frame): (h: OutHeader) {
    OutHeader(f.Size() % TWO32, if f.reply.Failed? then -(f.reply.errno as int) else 0, f.unique)
  }

  function PutFrame(f: Frame): (s: seq<byte>)
    ensures |s| == f.Size()
  {
    PutOut(FrameHeader(f)) + if f.reply.Failed? then [] else f.reply.payload
  }

  function PutFrames(fs: seq<Frame>): (s: seq<byte>) {
    if fs == [] then [] else PutFrame(fs[0]) + PutFrames(fs[1..])
  }

  function Finish<S>(done: seq<byte>, o: Outcome<S>, complete: bool): (r: (S, Reply)) {
    (o.state, if complete && o.accepted then Replied(done + PutFrames(o.frames)) else Failed(EINVAL))
  }

  /** No REMOVEXATTR in the body claims more extensions than it has bytes. */
  predicate SubsInBounds(body: seq<byte>) {
    COMPOUND_IN <= |body| ==> AllInBounds(Parse(body, COMPOUND_IN).subs)
  }

  /** What a compound does and replies: parse, fold, print. It is refused exactly
      when the body is malformed or the replies overflow; the daemon keeps the
      effects of the subrequests that ran. */
  function Compound<S>(fs: Filesystem<S>, s: S, body: seq<byte>, cap: nat): (r: (S, Reply))
    requires SubsInBounds(body)
  {
    if |body| < COMPOUND_IN || cap < COMPOUND_OUT then (s, Failed(EINVAL))
    else
      var parsed := Parse(body, COMPOUND_IN);
      Finish(Zeros(COMPOUND_OUT), Fold(fs, s, parsed.subs, [], cap - COMPOUND_OUT), parsed.complete)
  }

  /** `dispatch` for every opcode. */
  predicate RequestInBounds(h: InHeader, body: seq<byte>) {
    if h.opcode == COMPOUND then SubsInBounds(body) else InBounds(h, body)
  }

  function Request<S>(fs: Filesystem<S>, s: S, h: InHeader, body: seq<byte>, cap: nat): (r: (S, Reply))
    requires RequestInBounds(h, body)
  {
    if h.opcode == COMPOUND then Compound(fs, s, body, cap) else Dispatch(fs, s, h, body, cap)
  }

  // ---- Implementation ----------------------------------------------------

  /** One turn of the loop: the frame at the front moves from what is to come to what is done. */
  lemma FoldTurn<S>(fs: Filesystem<S>, s: S, body: seq<byte>, p: nat, produced: seq<u64>, room: nat, done: seq<byte>)
    requires SubFits(body, p) && OUT_HEADER <= room && AllInBounds(Parse(body, p).subs)
    ensures var r, q := SubAt(body, p), SubEnd(body, p);
            var h := Threaded(r, produced);
            && InBounds(h, r.args) && AllInBounds(Parse(body, q).subs)
            && var (t, reply) := SubReply(fs, s, h, r.args, room - OUT_HEADER);
               var f := Frame(h.unique, reply);
               && f.Size() <= room
               && Finish(done, Fold(fs, s, Parse(body, p).subs, produced, room), Parse(body, p).complete)
               == Finish(done + PutFrame(f),
                         Fold(fs, t, Parse(body, q).subs, produced + [Produced(h.opcode, reply)], room - f.Size()),
                         Parse(body, q).complete)
  {
    hide SubReply, InAt, PutFrame, SubAt, SubEnd, Produced;
    var subs, rest := Parse(body, p).subs, Parse(body, SubEnd(body, p)).subs;
    assert subs[0] == SubAt(body, p) && subs[1..] == rest;
    forall i | 0 <= i < |rest|
      ensures InBounds(rest[i].h, rest[i].args)
    {
      assert rest[i] == subs[i + 1];
    }
    var h := Threaded(subs[0], produced);
    var (t, reply) := SubReply(fs, s, h, subs[0].args, room - OUT_HEADER);
    var f := Frame(h.unique, reply);
    var o := Fold(fs, t, rest, produced + [Produced(h.opcode, reply)], room - f.Size());
    assert ([f] + o.frames)[1..] == o.frames;
    assert done + PutFrames([f] + o.frames) == done + PutFrame(f) + PutFrames(o.frames);
  }

  /** Dispatches into the slot behind a header-sized gap. */
  method DispatchSub<S>(fs: Filesystem<S>, s: S, h: InHeader, args: seq<byte>, r: Replier) returns (t: S)
    requires r.Valid() && InBounds(h, args)
    modifies r`len, r`negErr, r.buf
    ensures r.Valid() && (t, r.Reply()) == SubReply(fs, s, h, args, r.cap) && OnlySlot(r)
  {
    if h.opcode == COMPOUND {
      t := s;
      r.ReplyError(EOPNOTSUPP);
    } else {
      t := DispatchPlain(fs, s, h, args, r);
    }
  }

  /** The nodeid read back from a reply that sits in the buffer. */
  method ReadProduced(op: u32, r: Replier) returns (prod: u64)
    requires r.Valid()
    ensures prod == Produced(op, r.Reply())
  {
    prod := 0;
    if r.negErr == 0 && r.len >= 8 && MakesEntry(op) {
      prod := At64(r.buf[r.off..r.off + r.len], 0);
    }
  }

  lemma FrameInPlace(s: seq<byte>, at: nat, f: Frame)
    requires at + f.Size() <= |s| && s[at..at + OUT_HEADER] == PutOut(FrameHeader(f))
    requires s[at + OUT_HEADER..at + f.Size()] == if f.reply.Failed? then [] else f.reply.payload
    ensures s[at..at + f.Size()] == PutFrame(f)
  {
    hide PutOut;
    assert s[at..at + f.Size()] == s[at..at + OUT_HEADER] + s[at + OUT_HEADER..at + f.Size()];
  }

  /** Writes the out-header in front of a reply that sits `OUT_HEADER` bytes behind `at`. */
  method FrameReply(r: Replier, at: nat) returns (size: nat)
    requires r.Valid() && r.off == at + OUT_HEADER && OUT_HEADER + r.cap < TWO32
    modifies r.buf
    ensures var f := Frame(r.unique, old(r.Reply()));
            size == f.Size() <= OUT_HEADER + r.cap && r.buf[at..at + size] == PutFrame(f)
    ensures forall i :: 0 <= i < r.buf.Length && !(at <= i < at + OUT_HEADER) ==> r.buf[i] == old(r.buf[i])
  {
    hide PutOut, PutFrame;
    var oh := OutHeader((OUT_HEADER + r.len) % TWO32, r.negErr, r.unique);
    ghost var f := Frame(r.unique, r.Reply());
    assert oh == FrameHeader(f);
    CopyInto(r.buf, at, PutOut(oh));
    size := oh.len;
    FrameInPlace(r.buf[..], at, f);
  }

  /** Runs one subrequest and frames its reply at `at`, `room` bytes before the buffer's end. */
  method RunSub<S>(fs: Filesystem<S>, s: S, h: InHeader, args: seq<byte>, buf: array<byte>, at: nat, room: nat)
    returns (t: S, size: nat, prod: u64)
    requires InBounds(h, args) && OUT_HEADER <= room < TWO32 && at + room <= buf.Length
    modifies buf
    ensures var (t', reply) := SubReply(fs, s, h, args, room - OUT_HEADER);
            var f := Frame(h.unique, reply);
            && t == t' && size == f.Size() <= room && prod == Produced(h.opcode, reply)
            && buf[at..at + size] == PutFrame(f)
    ensures forall i :: 0 <= i < buf.Length && !(at <= i < at + room) ==> buf[i] == old(buf[i])
  {
    hide SubReply, PutFrame, Produced;
    var r := new Replier(buf, at + OUT_HEADER, room - OUT_HEADER, h.unique);
    t := DispatchSub(fs, s, h, args, r);
    prod := ReadProduced(h.opcode, r);
    size := FrameReply(r, at);
  }

  /** The result a run is heading for: what is printed at the front of the slot,
      and what folding over the rest of the body will add. */
  ghost function Goal<S>(fs: Filesystem<S>, s: S, body: seq<byte>, p: nat, produced: seq<u64>, r: Replier, outP: nat)
    : (g: (S, Reply))
    requires p <= |body| && AllInBounds(Parse(body, p).subs) && r.off + r.cap <= r.buf.Length && outP <= r.cap
    reads r.buf
  {
    Finish(r.buf[r.off..r.off + outP],
           Fold(fs, s, Parse(body, p).subs, produced, r.cap - outP), Parse(body, p).complete)
  }

  /** The loop body: reads one subrequest, runs it, frames its reply. */
  method Turn<S>(fs: Filesystem<S>, s: S, body: seq<byte>, p: nat, produced: seq<u64>, r: Replier, outP: nat)
    returns (t: S, q: nat, prod: u64, outQ: nat)
    requires SubFits(body, p) && AllInBounds(Parse(body, p).subs)
    requires r.off + r.cap <= r.buf.Length && r.cap < TWO32 && outP + OUT_HEADER <= r.cap
    modifies r.buf
    ensures p < q <= |body| && outP <= outQ <= r.cap && AllInBounds(Parse(body, q).subs)
    ensures Goal(fs, t, body, q, produced + [prod], r, outQ) == old(Goal(fs, s, body, p, produced, r, outP))
    ensures OnlySlot(r)
  {
    hide SubReply, PutFrame, SubFits, SubAt, SubEnd, Parse, Fold, Finish;
    var room, at := r.cap - outP, r.off + outP;
    var sub := SubAt(body, p);
    var h := Threaded(sub, produced);
    ghost var done := r.buf[r.off..at];
    FoldTurn(fs, s, body, p, produced, room, done);
    var size;
    t, size, prod := RunSub(fs, s, h, sub.args, r.buf, at, room);
    q, outQ := SubEnd(body, p), outP + size;
    assert r.buf[r.off..at] == done;
    assert r.buf[r.off..r.off + outQ] == done + r.buf[at..at + size];
  }

  method HandleCompound<S>(fs: Filesystem<S>, s0: S, body: seq<byte>, r: Replier) returns (s: S)
    requires r.Valid() && r.cap < TWO32 && SubsInBounds(body)
    modifies r`len, r`negErr, r.buf
    ensures r.Valid() && (s, r.Reply()) == Compound(fs, s0, body, r.cap) && OnlySlot(r)
  {
    hide SubReply, PutFrame, SubFits, SubAt, SubEnd;
    s := s0;
    if |body| < COMPOUND_IN || r.cap < COMPOUND_OUT {
      r.ReplyError(EINVAL);
      return;
    }
    CopyInto(r.buf, r.off, Zeros(COMPOUND_OUT));
    var p, outP := COMPOUND_IN, COMPOUND_OUT;
    var produced: seq<u64> := [];
    while p < |body|
      invariant COMPOUND_IN <= p <= |body| && COMPOUND_OUT <= outP <= r.cap
      invariant AllInBounds(Parse(body, p).subs) && r.Valid() && OnlySlot(r)
      invariant Goal(fs, s, body, p, produced, r, outP) == Compound(fs, s0, body, r.cap)
      decreases |body| - p
    {
      if !SubFits(body, p) || r.cap - outP < OUT_HEADER {
        r.ReplyError(EINVAL);
        return;
      }
      var prod;
      s, p, prod, outP := Turn(fs, s, body, p, produced, r, outP);
      produced := produced + [prod];
    }
    ghost var done := r.buf[r.off..r.off + outP];
    assert done + PutFrames([]) == done;
    r.ReplyInPlace(outP);
  }

  /** `dispatch`: whatever the opcode, the request and the daemon's answers, the
      slot ends with an error or a payload within its room, nothing outside it is
      written, and `unique` stays. */
  method DispatchRequest<S>(fs: Filesystem<S>, s: S, h: InHeader, body: seq<byte>, r: Replier) returns (t: S)
    requires r.Valid() && r.cap < TWO32 && RequestInBounds(h, body)
    modifies r`len, r`negErr, r.buf
    ensures r.Valid() && (t, r.Reply()) == Request(fs, s, h, body, r.cap)
    ensures (t, r.Reply()) == if h.opcode == 60 then Compound(fs, s, body, r.cap) else Dispatch(fs, s, h, body, r.cap)
    ensures r.unique == old(r.unique) && (r.negErr != 0 ==> r.len == 0) && r.len <= r.cap && OnlySlot(r)
  {
    if h.opcode == COMPOUND {
      t := HandleCompound(fs, s, body, r);
    } else {
      t := DispatchPlain(fs, s, h, body, r);
    }
  }
}
