/**
  A subrequest does not notice where in a compound it stands: given room for its
  own reply, its effect and reply are those of the same request dispatched alone.
 */
module Positions {
  import opened Bytes
  import opened Wire
  import opened Filesystem
  import opened Requests
  import opened Replies
  import opened Dispatcher
  import opened Compounds
  import opened CompoundReplies

  /** A span request cut to the room there is. */
  function Clip(d: Result<Call>, cap: nat): (r: Result<Call>) {
    match d
    case Ok(Fill(Read(x, n, fh, o, want))) => Ok(Fill(Read(x, n, fh, o, Min(want, cap))))
    case Ok(Fill(Getxattr(x, n, name, want))) => Ok(Fill(Getxattr(x, n, name, Min(want, cap))))
    case Ok(Fill(Listxattr(x, n, want))) => Ok(Fill(Listxattr(x, n, Min(want, cap))))
    case Ok(Readdir(x, n, fh, o, room)) => Ok(Readdir(x, n, fh, o, Min(room, cap)))
    case _ => d
  }

  /** The room only cuts spans; nothing else about decoding depends on it. */
  lemma DecodeClips(h: InHeader, body: seq<byte>, cap: nat)
    requires InBounds(h, body)
    ensures Decode(h, body, cap) == Clip(Decode(h, body, TWO32), cap)
  {
    hide At64, At16, StrNLen, LinkBody, IsLink, ForgetItems;
  }

  /** The most a call's reply can take: the span asked for, the struct, or the link's text. */
  function CallBound<S>(fs: Filesystem<S>, s: S, call: Call): (n: nat) {
    match call
    case Nothing => 0
    case Drop(_) => 0
    case Unit(_) => 0
    case Init(_) => 64
    case Entry(_) => ENTRYX_OUT
    case Attr(_) => 288
    case OpenAny(_) => 16
    case Count(_) => 8
    case Statfs(_, _) => 80
    case Fill(c) => c.want
    case Readdir(_, _, _, _, room) => room
    case Readlink(x, n) => var rv := fs.readlink(s, x, n).1; if rv.Ok? then |rv.value| else 0
  }

  function ReplyBound<S>(fs: Filesystem<S>, s: S, h: InHeader, args: seq<byte>): (n: nat)
    requires InBounds(h, args)
  {
    match Decode(h, args, TWO32)
    case Err(_) => 0
    case Ok(call) => CallBound(fs, s, call)
  }

  /** The bound is what a successful reply takes: exactly, or at most for a span. */
  lemma BoundIsTight<S>(fs: Filesystem<S>, s: S, call: Call, cap: nat)
    requires CallBound(fs, s, call) <= cap && Serve(fs, s, call, cap).1.Replied?
    ensures var n := |Serve(fs, s, call, cap).1.payload|;
            if call.Fill? || call.Readdir? then n <= CallBound(fs, s, call) else n == CallBound(fs, s, call)
  {
    match call
    case Init(args) => var rv := fs.init(s, args).1; if rv.Ok? { var v: InitImage := rv.value; }
    case Attr(c) => var rv := fs.attr(s, c).1; if rv.Ok? { var v: StatxImage := rv.value; }
    case Statfs(x, n) => var rv := fs.statfs(s, x, n).1; if rv.Ok? { var v: StatfsImage := rv.value; }
    case _ =>
  }

  lemma ServeRoomy<S>(fs: Filesystem<S>, s: S, call: Call, c1: nat, c2: nat)
    requires CallBound(fs, s, call) <= c1 && CallBound(fs, s, call) <= c2
    ensures Serve(fs, s, call, c1) == Serve(fs, s, call, c2)
  {
    match call
    case Init(args) => var rv := fs.init(s, args).1; if rv.Ok? { var v: InitImage := rv.value; }
    case Attr(c) => var rv := fs.attr(s, c).1; if rv.Ok? { var v: StatxImage := rv.value; }
    case Statfs(x, n) => var rv := fs.statfs(s, x, n).1; if rv.Ok? { var v: StatfsImage := rv.value; }
    case _ =>
  }

  /** Any two rooms that cover a request's own bound give the same effect and reply. */
  lemma RoomIndependence<S>(fs: Filesystem<S>, s: S, h: InHeader, args: seq<byte>, c1: nat, c2: nat)
    requires InBounds(h, args) && ReplyBound(fs, s, h, args) <= c1 && ReplyBound(fs, s, h, args) <= c2
    ensures Dispatch(fs, s, h, args, c1) == Dispatch(fs, s, h, args, c2)
  {
    hide Decode, Serve;
    DecodeClips(h, args, c1);
    DecodeClips(h, args, c2);
    var d := Decode(h, args, TWO32);
    if d.Ok? {
      ServeRoomy(fs, s, d.value, c1, c2);
    }
  }

  /** Inside a compound, a subrequest with enough room left replies and acts as it would
      alone, with the threaded nodeid, from the same daemon state, in any sufficient room. */
  lemma PositionIndependence<S>(fs: Filesystem<S>, s: S, rs: seq<SubReq>, room: nat, k: nat, alone: nat)
    requires AllInBounds(rs) && k < |Fold(fs, s, rs, [], room).frames| && rs[k].h.opcode != COMPOUND
    requires var o := Before(fs, s, rs, k, room);
             var bound := ReplyBound(fs, o.state, HeaderOf(rs, k, o), rs[k].args);
             FramesSize(o.frames) + OUT_HEADER + bound <= room && bound <= alone
    ensures var o := Before(fs, s, rs, k, room);
            Request(fs, o.state, HeaderOf(rs, k, o), rs[k].args, alone)
            == (Before(fs, s, rs, k + 1, room).state, Fold(fs, s, rs, [], room).frames[k].reply)
  {
    hide Dispatch, Fold, Before, ReplyBound, ProducedBy;
    FrameIsDispatch(fs, s, rs, room, k);
    var o := Before(fs, s, rs, k, room);
    RoomIndependence(fs, o.state, HeaderOf(rs, k, o), rs[k].args,
                     room - FramesSize(o.frames) - OUT_HEADER, alone);
  }
}
