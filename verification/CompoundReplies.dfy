/**
  What an accepted compound's reply means: the reader walks it by each frame's
  length field and finds one frame per subrequest, each equal to dispatching
  that subrequest from the state and the nodeids its predecessors left.
 */
module CompoundReplies {
  import opened Bytes
  import opened Wire
  import opened Filesystem
  import opened Requests
  import opened Replies
  import opened Dispatcher
  import opened Compounds

  // ---- Walking the frames ------------------------------------------------

  datatype Walked = Walked(frames: seq<Frame>, complete: bool)

  /** A whole frame with a possible error field starts at `p`. */
  predicate FrameFits(s: seq<byte>, p: nat) {
    && p + OUT_HEADER <= |s|
    && var h := OutAt(s, p);
       OUT_HEADER <= h.len && p + h.len <= |s| && -0x8000_0000 < h.error <= 0
  }

  function FrameAt(s: seq<byte>, p: nat): (f: Frame)
    requires FrameFits(s, p)
  {
    var h := OutAt(s, p);
    Frame(h.unique, if h.error < 0 then Failed(-h.error) else Replied(s[p + OUT_HEADER..p + h.len]))
  }

  function FrameEnd(s: seq<byte>, p: nat): (q: nat)
    requires FrameFits(s, p)
    ensures p < q <= |s|
  {
    p + OutAt(s, p).len
  }

  function WalkFrames(s: seq<byte>, p: nat): (w: Walked)
    requires p <= |s|
    decreases |s| - p
  {
    if p == |s| then Walked([], true)
    else if !FrameFits(s, p) then Walked([], false)
    else
      var rest := WalkFrames(s, FrameEnd(s, p));
      Walked([FrameAt(s, p)] + rest.frames, rest.complete)
  }

  lemma FrameAtPut(s: seq<byte>, p: nat, f: Frame)
    requires f.Size() < TWO32 && p + f.Size() <= |s| && s[p..p + f.Size()] == PutFrame(f)
    ensures FrameFits(s, p) && FrameAt(s, p) == f && FrameEnd(s, p) == p + f.Size()
  {
    hide PutOut, OutAt;
    var w, h := PutFrame(f), PutOut(FrameHeader(f));
    Part(s, p, w, 0, OUT_HEADER);
    assert w[0..OUT_HEADER] == h;
    Part(s, p, w, OUT_HEADER, f.Size() - OUT_HEADER);
    OutAtPut(s, p, FrameHeader(f));
    if f.reply.Replied? {
      assert w[OUT_HEADER..f.Size()] == f.reply.payload;
    }
  }

  predicate Sized(frames: seq<Frame>) {
    forall i :: 0 <= i < |frames| ==> frames[i].Size() < TWO32
  }

  /** Walking undoes printing. */
  lemma {:induction false} WalkPut(pre: seq<byte>, frames: seq<Frame>)
    requires Sized(frames)
    ensures WalkFrames(pre + PutFrames(frames), |pre|) == Walked(frames, true)
    decreases |frames|
  {
    hide PutFrame, FrameFits, FrameAt, FrameEnd;
    if frames != [] {
      var w, tail := PutFrame(frames[0]), PutFrames(frames[1..]);
      var s := pre + PutFrames(frames);
      assert s == pre + w + tail;
      Middle(pre, w, tail);
      FrameAtPut(s, |pre|, frames[0]);
      WalkPut(pre + w, frames[1..]);
      assert [frames[0]] + frames[1..] == frames;
    }
  }

  // ---- The frames of a run -----------------------------------------------

  function FramesSize(frames: seq<Frame>): (n: nat) {
    if frames == [] then 0 else frames[0].Size() + FramesSize(frames[1..])
  }

  lemma {:induction false} PrintedSize(frames: seq<Frame>)
    ensures |PutFrames(frames)| == FramesSize(frames)
  {
    hide PutFrame;
    if frames != [] {
      PrintedSize(frames[1..]);
    }
  }

  lemma {:induction false} SizeSnoc(frames: seq<Frame>, f: Frame)
    ensures FramesSize(frames + [f]) == FramesSize(frames) + f.Size()
  {
    if frames == [] {
      assert (frames + [f])[1..] == [];
    } else {
      assert (frames + [f])[1..] == frames[1..] + [f];
      SizeSnoc(frames[1..], f);
    }
  }

  /** The nodeids handed on by the subrequests that have run. */
  function ProducedBy(rs: seq<SubReq>, frames: seq<Frame>): (ns: seq<u64>)
    requires |frames| <= |rs|
    ensures |ns| == |frames|
    ensures forall i :: 0 <= i < |ns| ==> ns[i] == Produced(rs[i].h.opcode, frames[i].reply)
  {
    seq(|frames|, i requires 0 <= i < |frames| => Produced(rs[i].h.opcode, frames[i].reply))
  }

  /** One more subrequest behind a run. */
  function Next<S>(fs: Filesystem<S>, o: Outcome<S>, r: SubReq, produced: seq<u64>, room: nat): (o': Outcome<S>)
    requires InBounds(r.h, r.args)
  {
    if !o.accepted then o
    else if room < OUT_HEADER then o.(accepted := false)
    else
      var (t, reply) := SubReply(fs, o.state, Threaded(r, produced), r.args, room - OUT_HEADER);
      Outcome(t, o.frames + [Frame(r.h.unique, reply)], true)
  }

  lemma NextCons<S>(fs: Filesystem<S>, f: Frame, o: Outcome<S>, r: SubReq, produced: seq<u64>, room: nat)
    requires InBounds(r.h, r.args)
    ensures var n := Next(fs, o, r, produced, room);
            Next(fs, o.(frames := [f] + o.frames), r, produced, room) == n.(frames := [f] + n.frames)
  {
    hide SubReply;
    if o.accepted && room >= OUT_HEADER {
      var reply := SubReply(fs, o.state, Threaded(r, produced), r.args, room - OUT_HEADER).1;
      assert [f] + o.frames + [Frame(r.h.unique, reply)] == [f] + (o.frames + [Frame(r.h.unique, reply)]);
    }
  }

  lemma FoldSingle<S>(fs: Filesystem<S>, s: S, r: SubReq, produced: seq<u64>, room: nat)
    requires InBounds(r.h, r.args)
    ensures Fold(fs, s, [r], produced, room) == Next(fs, Outcome(s, [], true), r, produced, room)
  {
    hide SubReply;
    assert [r][1..] == [];
  }

  /** The front of a run: its frame, and what the rest of the run is given. */
  function First<S>(fs: Filesystem<S>, s: S, r: SubReq, produced: seq<u64>, room: nat): (p: (S, Frame, seq<u64>))
    requires InBounds(r.h, r.args) && OUT_HEADER <= room
    ensures p.1.Size() <= room
  {
    var (t, reply) := SubReply(fs, s, Threaded(r, produced), r.args, room - OUT_HEADER);
    (t, Frame(r.h.unique, reply), produced + [Produced(r.h.opcode, reply)])
  }

  lemma FoldCons<S>(fs: Filesystem<S>, s: S, r: SubReq, rs: seq<SubReq>, produced: seq<u64>, room: nat)
    requires InBounds(r.h, r.args) && AllInBounds(rs) && OUT_HEADER <= room
    ensures AllInBounds([r] + rs)
    ensures var (t, f, made) := First(fs, s, r, produced, room);
            var rest := Fold(fs, t, rs, made, room - f.Size());
            Fold(fs, s, [r] + rs, produced, room) == rest.(frames := [f] + rest.frames)
  {
    hide SubReply, Produced;
    assert ([r] + rs)[1..] == rs;
  }

  lemma FoldStuck<S>(fs: Filesystem<S>, s: S, rs: seq<SubReq>, produced: seq<u64>, room: nat)
    requires AllInBounds(rs) && rs != [] && room < OUT_HEADER
    ensures Fold(fs, s, rs, produced, room) == Outcome(s, [], false)
  {
    hide SubReply;
  }

  /** Running one more subrequest continues from where the others ended; the room
      already used never exceeds the room there was. */
  lemma {:induction false} FoldSnoc<S>(fs: Filesystem<S>, s: S, rs: seq<SubReq>, r: SubReq, produced: seq<u64>, room: nat)
    requires AllInBounds(rs) && InBounds(r.h, r.args)
    ensures AllInBounds(rs + [r])
    ensures var o := Fold(fs, s, rs, produced, room);
            && FramesSize(o.frames) <= room
            && Fold(fs, s, rs + [r], produced, room)
            == Next(fs, o, r, produced + ProducedBy(rs, o.frames), room - FramesSize(o.frames))
    decreases |rs|
  {
    hide SubReply, Produced;
    if rs == [] {
      FoldSingle(fs, s, r, produced, room);
      assert rs + [r] == [r] && produced + ProducedBy(rs, []) == produced;
    } else if room < OUT_HEADER {
      FoldStuck(fs, s, rs, produced, room);
      FoldStuck(fs, s, rs + [r], produced, room);
    } else {
      FoldSnocCons(fs, s, rs[0], rs[1..], r, produced, room);
      assert [rs[0]] + rs[1..] == rs && [rs[0]] + (rs[1..] + [r]) == rs + [r];
    }
  }

  lemma {:induction false} FoldSnocCons<S>(fs: Filesystem<S>, s: S, q: SubReq, rs: seq<SubReq>, r: SubReq,
                                           produced: seq<u64>, room: nat)
    requires InBounds(q.h, q.args) && AllInBounds(rs) && InBounds(r.h, r.args) && OUT_HEADER <= room
    ensures AllInBounds([q] + rs) && AllInBounds([q] + (rs + [r]))
    ensures var o := Fold(fs, s, [q] + rs, produced, room);
            && FramesSize(o.frames) <= room
            && Fold(fs, s, [q] + (rs + [r]), produced, room)
            == Next(fs, o, r, produced + ProducedBy([q] + rs, o.frames), room - FramesSize(o.frames))
    decreases |rs| + 1, 0
  {
    hide SubReply, Produced, Next, Fold, First;
    var (t, f, made) := First(fs, s, q, produced, room);
    var left := room - f.Size();
    FoldSnoc(fs, t, rs, r, made, left);
    FoldCons(fs, s, q, rs, produced, room);
    FoldCons(fs, s, q, rs + [r], produced, room);
    var rest := Fold(fs, t, rs, made, left);
    var o := rest.(frames := [f] + rest.frames);
    assert o.frames[1..] == rest.frames;
    MadeBy(fs, s, q, rs, rest.frames, produced, room);
    NextCons(fs, f, rest, r, made + ProducedBy(rs, rest.frames), left - FramesSize(rest.frames));
  }

  lemma MadeBy<S>(fs: Filesystem<S>, s: S, q: SubReq, rs: seq<SubReq>, frames: seq<Frame>, produced: seq<u64>, room: nat)
    requires InBounds(q.h, q.args) && OUT_HEADER <= room && |frames| <= |rs|
    ensures var (t, f, made) := First(fs, s, q, produced, room);
            made + ProducedBy(rs, frames) == produced + ProducedBy([q] + rs, [f] + frames)
  {
    hide SubReply, Produced;
  }

  // ---- What a frame is ---------------------------------------------------

  /** The run of the first `k` subrequests. */
  function Before<S>(fs: Filesystem<S>, s: S, rs: seq<SubReq>, k: nat, room: nat): (o: Outcome<S>)
    requires AllInBounds(rs) && k <= |rs|
    ensures |o.frames| <= k && (o.accepted <==> |o.frames| == k)
  {
    Fold(fs, s, rs[..k], [], room)
  }

  lemma BeforeStep<S>(fs: Filesystem<S>, s: S, rs: seq<SubReq>, k: nat, room: nat)
    requires AllInBounds(rs) && k < |rs|
    ensures var o := Before(fs, s, rs, k, room);
            && FramesSize(o.frames) <= room
            && Before(fs, s, rs, k + 1, room) == Next(fs, o, rs[k], ProducedBy(rs[..k], o.frames), room - FramesSize(o.frames))
  {
    hide Fold, Next, Produced;
    FoldSnoc(fs, s, rs[..k], rs[k], [], room);
    assert rs[..k] + [rs[k]] == rs[..k + 1];
    var made := ProducedBy(rs[..k], Before(fs, s, rs, k, room).frames);
    assert [] + made == made;
  }

  /** Later subrequests leave earlier frames alone, and a run that stops stays stopped. */
  lemma {:induction false} BeforeGrows<S>(fs: Filesystem<S>, s: S, rs: seq<SubReq>, k: nat, n: nat, room: nat)
    requires AllInBounds(rs) && k <= n <= |rs|
    ensures var early, late := Before(fs, s, rs, k, room), Before(fs, s, rs, n, room);
            early.frames <= late.frames && (!early.accepted ==> late == early)
    decreases n - k
  {
    hide Before, SubReply;
    if k < n {
      BeforeStep(fs, s, rs, k, room);
      BeforeGrows(fs, s, rs, k + 1, n, room);
    }
  }

  /** The header and room a subrequest is dispatched with, given the run before it. */
  function HeaderOf<S>(rs: seq<SubReq>, k: nat, o: Outcome<S>): (h: InHeader)
    requires k < |rs| && |o.frames| <= k
    ensures h == rs[k].h.(nodeid := h.nodeid)
  {
    Threaded(rs[k], ProducedBy(rs[..k], o.frames))
  }

  /** Each frame of a run is its subrequest's own reply: dispatched from the state the
      earlier ones left, with the nodeid threaded from them, in the room they left. */
  lemma FrameIsDispatch<S>(fs: Filesystem<S>, s: S, rs: seq<SubReq>, room: nat, k: nat)
    requires AllInBounds(rs) && k < |Fold(fs, s, rs, [], room).frames|
    ensures var frames, o := Fold(fs, s, rs, [], room).frames, Before(fs, s, rs, k, room);
            && o.frames == frames[..k] && FramesSize(o.frames) + OUT_HEADER <= room
            && var (t, reply) := SubReply(fs, o.state, HeaderOf(rs, k, o), rs[k].args, room - FramesSize(o.frames) - OUT_HEADER);
               frames[k] == Frame(rs[k].h.unique, reply) && Before(fs, s, rs, k + 1, room).state == t
  {
    hide SubReply, Fold;
    assert rs[..|rs|] == rs;
    BeforeGrows(fs, s, rs, k, |rs|, room);
    BeforeStep(fs, s, rs, k, room);
    BeforeGrows(fs, s, rs, k + 1, |rs|, room);
    var o := Before(fs, s, rs, k, room);
    assert o.accepted;
  }

  /**
    Each frame of a run, written out. A subrequest whose `dep` names an earlier one runs on
    the nodeid at the head of that one's reply, if that was a LOOKUPX, MKOBJX or LOOKUP_ROOT
    that succeeded with at least 8 bytes, and on 0 otherwise; any other runs on its own
    nodeid. It is dispatched from the state, and into the room, that the earlier ones left. A
    compound inside a compound is refused.
   */
  lemma FrameOnNode<S>(fs: Filesystem<S>, s: S, rs: seq<SubReq>, room: nat, k: nat)
    requires AllInBounds(rs) && k < |Fold(fs, s, rs, [], room).frames|
    ensures var frames, before := Fold(fs, s, rs, [], room).frames, Before(fs, s, rs, k, room).state;
            var d: nat := rs[k].dep;
            var node :=
              if d == 0xff || d >= k then rs[k].h.nodeid
              else if (rs[d].h.opcode == LOOKUPX || rs[d].h.opcode == MKOBJX || rs[d].h.opcode == LOOKUP_ROOT)
                      && frames[d].reply.Replied? && |frames[d].reply.payload| >= 8
              then At64(frames[d].reply.payload, 0)
              else 0;
            var h := rs[k].h.(nodeid := node);
            && FramesSize(frames[..k]) + 16 <= room
            && var (t, reply) := if h.opcode == COMPOUND then (before, Failed(EOPNOTSUPP))
                                 else Dispatch(fs, before, h, rs[k].args, room - FramesSize(frames[..k]) - 16);
               frames[k] == Frame(rs[k].h.unique, reply) && Before(fs, s, rs, k + 1, room).state == t
  {
    hide Dispatch, Fold, Before, FramesSize, At64;
    FrameIsDispatch(fs, s, rs, room, k);
    var frames, o := Fold(fs, s, rs, [], room).frames, Before(fs, s, rs, k, room);
    var d: nat := rs[k].dep;
    if d < k {
      assert o.frames[d] == frames[d];
    }
  }

  // ---- The reply as a whole ----------------------------------------------

  lemma FramesFit<S>(fs: Filesystem<S>, s: S, rs: seq<SubReq>, room: nat)
    requires AllInBounds(rs)
    ensures FramesSize(Fold(fs, s, rs, [], room).frames) <= room
  {
    hide SubReply, Fold, Next;
    if rs == [] {
      FoldNone(fs, s, room);
    } else {
      var n := |rs| - 1;
      assert rs[..n] + [rs[n]] == rs;
      BeforeStep(fs, s, rs, n, room);
      assert rs[..|rs|] == rs;
      NextFits(fs, Before(fs, s, rs, n, room), rs[n], ProducedBy(rs[..n], Before(fs, s, rs, n, room).frames), room);
    }
  }

  lemma FoldNone<S>(fs: Filesystem<S>, s: S, room: nat)
    ensures Fold(fs, s, [], [], room) == Outcome(s, [], true)
  {
    hide SubReply;
  }

  lemma NextFits<S>(fs: Filesystem<S>, o: Outcome<S>, r: SubReq, produced: seq<u64>, room: nat)
    requires InBounds(r.h, r.args) && FramesSize(o.frames) <= room
    ensures FramesSize(Next(fs, o, r, produced, room - FramesSize(o.frames)).frames) <= room
  {
    hide Dispatch, Produced;
    var left := room - FramesSize(o.frames);
    if o.accepted && left >= OUT_HEADER {
      var reply := SubReply(fs, o.state, Threaded(r, produced), r.args, left - OUT_HEADER).1;
      SizeSnoc(o.frames, Frame(r.h.unique, reply));
    }
  }

  lemma {:induction false} SizesBelow(frames: seq<Frame>, n: nat)
    requires FramesSize(frames) < n <= TWO32
    ensures Sized(frames)
  {
    if frames != [] {
      SizesBelow(frames[1..], n);
      assert forall i :: 1 <= i < |frames| ==> frames[i] == frames[1..][i - 1];
    }
  }

  /** The reader of an accepted compound's reply consumes all of it and finds one frame
      per subrequest, in order, under that subrequest's unique. */
  lemma CompoundReplyRoundTrip<S>(fs: Filesystem<S>, s: S, body: seq<byte>, cap: nat)
    requires SubsInBounds(body) && cap < TWO32 && Compound(fs, s, body, cap).1.Replied?
    ensures var payload, subs := Compound(fs, s, body, cap).1.payload, Parse(body, COMPOUND_IN).subs;
            var frames := Fold(fs, s, subs, [], cap - COMPOUND_OUT).frames;
            && COMPOUND_OUT <= |payload| <= cap && |frames| == |subs|
            && payload[..COMPOUND_OUT] == Zeros(COMPOUND_OUT)
            && WalkFrames(payload, COMPOUND_OUT) == Walked(frames, true)
            && forall k :: 0 <= k < |frames| ==> frames[k].unique == subs[k].h.unique
  {
    hide SubReply, Fold, Parse, WalkFrames;
    var subs, room := Parse(body, COMPOUND_IN).subs, cap - COMPOUND_OUT;
    var frames := Fold(fs, s, subs, [], room).frames;
    FramesFit(fs, s, subs, room);
    SizesBelow(frames, TWO32);
    WalkPut(Zeros(COMPOUND_OUT), frames);
    PrintedSize(frames);
    forall k | 0 <= k < |frames|
      ensures frames[k].unique == subs[k].h.unique
    {
      FrameIsDispatch(fs, s, subs, room, k);
    }
  }

  /** Every subrequest finds room for its header behind the replies of the earlier ones. */
  ghost predicate RoomThroughout<S>(fs: Filesystem<S>, s: S, rs: seq<SubReq>, room: nat)
    requires AllInBounds(rs)
  {
    forall k :: 0 <= k < |rs| ==> FramesSize(Before(fs, s, rs, k, room).frames) + OUT_HEADER <= room
  }

  lemma FoldAcceptsIff<S>(fs: Filesystem<S>, s: S, rs: seq<SubReq>, room: nat)
    requires AllInBounds(rs)
    ensures Fold(fs, s, rs, [], room).accepted <==> RoomThroughout(fs, s, rs, room)
  {
    hide SubReply, Fold;
    assert rs[..|rs|] == rs;
    if Fold(fs, s, rs, [], room).accepted {
      forall k | 0 <= k < |rs|
        ensures FramesSize(Before(fs, s, rs, k, room).frames) + OUT_HEADER <= room
      {
        FrameIsDispatch(fs, s, rs, room, k);
      }
    } else {
      StopsSomewhere(fs, s, rs, room, |rs|);
    }
  }

  lemma {:induction false} StopsSomewhere<S>(fs: Filesystem<S>, s: S, rs: seq<SubReq>, room: nat, n: nat)
    requires AllInBounds(rs) && n <= |rs| && !Before(fs, s, rs, n, room).accepted
    ensures !RoomThroughout(fs, s, rs, room)
    decreases n
  {
    hide SubReply, Fold;
    if n > 0 {
      BeforeStep(fs, s, rs, n - 1, room);
      if !Before(fs, s, rs, n - 1, room).accepted {
        StopsSomewhere(fs, s, rs, room, n - 1);
      }
    }
  }

  /** Some sender printed the body behind the compound header. */
  ghost predicate Printed(body: seq<byte>)
    requires COMPOUND_IN <= |body|
  {
    exists rs :: (forall i :: 0 <= i < |rs| ==> WellFormed(rs[i])) && body[COMPOUND_IN..] == PutSubs(rs)
  }

  lemma ParsesIffPrinted(body: seq<byte>)
    requires COMPOUND_IN <= |body|
    ensures Parse(body, COMPOUND_IN).complete <==> Printed(body)
  {
    hide Parse, PutSubs;
    var parsed, pre := Parse(body, COMPOUND_IN), body[..COMPOUND_IN];
    if parsed.complete {
      PutParse(body, COMPOUND_IN);
    }
    if Printed(body) {
      var rs :| (forall i :: 0 <= i < |rs| ==> WellFormed(rs[i])) && body[COMPOUND_IN..] == PutSubs(rs);
      ParsePut(pre, rs);
      assert body == pre + body[COMPOUND_IN..];
    }
  }

  lemma CompoundCases<S>(fs: Filesystem<S>, s: S, body: seq<byte>, cap: nat)
    requires SubsInBounds(body)
    ensures if COMPOUND_IN <= |body| && COMPOUND_OUT <= cap then
              var parsed := Parse(body, COMPOUND_IN);
              Compound(fs, s, body, cap)
                == Finish(Zeros(COMPOUND_OUT), Fold(fs, s, parsed.subs, [], cap - COMPOUND_OUT), parsed.complete)
            else Compound(fs, s, body, cap) == (s, Failed(EINVAL))
  {
    hide Parse, Fold, Finish;
  }

  lemma FinishReplies<S>(done: seq<byte>, o: Outcome<S>, complete: bool)
    ensures Finish(done, o, complete).1.Replied? <==> complete && o.accepted
    ensures Finish(done, o, complete).1.Failed? ==> Finish(done, o, complete).1.errno == EINVAL
  {
  }

  /** A compound is accepted exactly when its body is the print of some subrequests and
      each of them finds room; every other compound is refused with EINVAL. */
  lemma CompoundAcceptedIff<S>(fs: Filesystem<S>, s: S, body: seq<byte>, cap: nat)
    requires SubsInBounds(body)
    ensures Compound(fs, s, body, cap).1.Replied? <==>
            && COMPOUND_IN <= |body| && COMPOUND_OUT <= cap && Printed(body)
            && RoomThroughout(fs, s, Parse(body, COMPOUND_IN).subs, cap - COMPOUND_OUT)
    ensures Compound(fs, s, body, cap).1.Failed? ==> Compound(fs, s, body, cap).1.errno == EINVAL
  {
    hide SubReply, Fold, Parse, Finish, AllInBounds, Compound, Printed, RoomThroughout;
    CompoundCases(fs, s, body, cap);
    if COMPOUND_IN <= |body| && COMPOUND_OUT <= cap {
      var parsed := Parse(body, COMPOUND_IN);
      FinishReplies(Zeros(COMPOUND_OUT), Fold(fs, s, parsed.subs, [], cap - COMPOUND_OUT), parsed.complete);
      FoldAcceptsIff(fs, s, parsed.subs, cap - COMPOUND_OUT);
      ParsesIffPrinted(body);
    }
  }
}
