/**
  What a compound does to the passthrough's lookup counts, against what its reply tells the
  kernel. A lookup is counted when it is made; it is told only if the compound is accepted
  and its own frame had room for the entry. Forgets inside a compound take effect at once.
 */
module Lookups {
  import opened Bytes
  import opened Wire
  import opened Filesystem
  import opened Requests
  import opened Replies
  import opened Dispatcher
  import opened Compounds
  import opened CompoundReplies
  import opened Inodes
  import opened Passthrough

  // ---- What each subrequest does -----------------------------------------

  /** The room a subrequest's reply has behind the frames of those before it. */
  function RoomFor(room: nat, before: seq<Frame>): (left: int) {
    room - FramesSize(before) - OUT_HEADER
  }

  /** What subrequest `i` does to the counts; nothing if the run stopped before it. */
  function EffectAt<B>(b: Backing<B>, s: State<B>, rs: seq<SubReq>, i: nat, room: nat): (e: Effect)
    requires AllInBounds(rs) && i < |rs|
  {
    var o := Before(Daemon(b), s, rs, i, room);
    var left := RoomFor(room, o.frames);
    if o.accepted && left >= 0 then EffectOf(b, o.state, HeaderOf(rs, i, o), rs[i].args, left) else Still
  }

  /** How often the first `n` subrequests look `k` up. */
  function LookedUp<B>(b: Backing<B>, s: State<B>, rs: seq<SubReq>, n: nat, room: nat, k: u64): (c: nat)
    requires AllInBounds(rs) && n <= |rs|
  {
    if n == 0 then 0 else LookedUp(b, s, rs, n - 1, room, k) + Once(EffectAt(b, s, rs, n - 1, room), k)
  }

  function Once(e: Effect, k: u64): (c: nat) {
    if e.Looked? && e.ino == k then 1 else 0
  }

  /** How much the first `n` subrequests ask to be taken off `k`. */
  function DroppedOff<B>(b: Backing<B>, s: State<B>, rs: seq<SubReq>, n: nat, room: nat, k: u64): (c: nat)
    requires AllInBounds(rs) && n <= |rs|
  {
    if n == 0 then 0 else DroppedOff(b, s, rs, n - 1, room, k) + Off(EffectAt(b, s, rs, n - 1, room), k)
  }

  function Off(e: Effect, k: u64): (c: nat) {
    if e.Dropped? && k != ROOT then Total(e.items, k) else 0
  }

  /** The count of `k` after the first `n` subrequests: each lookup adds one, each forget
      subtracts, saturating at zero, in the order they come. */
  function Tally<B>(b: Backing<B>, s: State<B>, rs: seq<SubReq>, n: nat, room: nat, k: u64): (c: nat)
    requires AllInBounds(rs) && n <= |rs|
  {
    if n == 0 then CountOf(s.table, k)
    else
      var e := EffectAt(b, s, rs, n - 1, room);
      Monus(Tally(b, s, rs, n - 1, room, k) + Once(e, k), Off(e, k))
  }

  lemma AppliedCounts(t: Counts, e: Effect, k: u64)
    requires CountOf(t, k) + 1 < TWO64
    ensures CountOf(Applied(t, e), k) == Monus(CountOf(t, k) + Once(e, k), Off(e, k))
  {
    if e.Dropped? {
      ForgetCounts(t, e.items, k);
    }
  }

  /** One more subrequest applies its effect to the table. */
  lemma EffectStep<B>(b: Backing<B>, s: State<B>, rs: seq<SubReq>, n: nat, room: nat)
    requires AllInBounds(rs) && n < |rs|
    ensures Before(Daemon(b), s, rs, n + 1, room).state.table
         == Applied(Before(Daemon(b), s, rs, n, room).state.table, EffectAt(b, s, rs, n, room))
  {
    hide Before, SubReply, EffectOf, FramesSize;
    BeforeStep(Daemon(b), s, rs, n, room);
    var o := Before(Daemon(b), s, rs, n, room);
    var left := RoomFor(room, o.frames);
    if o.accepted && left >= 0 {
      RequestEffect(b, o.state, HeaderOf(rs, n, o), rs[n].args, left);
    }
  }

  /** The table counts exactly the tally, short of counter wrap. */
  lemma {:induction false} TallyIsCount<B>(b: Backing<B>, s: State<B>, rs: seq<SubReq>, n: nat, room: nat, k: u64)
    requires AllInBounds(rs) && n <= |rs| && CountOf(s.table, k) + |rs| < TWO64
    ensures CountOf(Before(Daemon(b), s, rs, n, room).state.table, k) == Tally(b, s, rs, n, room, k)
    ensures Tally(b, s, rs, n, room, k) <= CountOf(s.table, k) + n
    decreases n
  {
    hide Before, EffectAt, Applied;
    if n == 0 {
      BeforeNothing(Daemon(b), s, rs, room);
    } else {
      TallyIsCount(b, s, rs, n - 1, room, k);
      EffectStep(b, s, rs, n - 1, room);
      AppliedCounts(Before(Daemon(b), s, rs, n - 1, room).state.table, EffectAt(b, s, rs, n - 1, room), k);
    }
  }

  /** Forgets that ask for no more than was counted at the start never saturate. */
  lemma {:induction false} TallyAddsUp<B>(b: Backing<B>, s: State<B>, rs: seq<SubReq>, n: nat, room: nat, k: u64)
    requires AllInBounds(rs) && n <= |rs|
    ensures var made, off := LookedUp(b, s, rs, n, room, k), DroppedOff(b, s, rs, n, room, k);
            && Tally(b, s, rs, n, room, k) >= CountOf(s.table, k) + made - off
            && (off <= CountOf(s.table, k) ==> Tally(b, s, rs, n, room, k) == CountOf(s.table, k) + made - off)
    decreases n
  {
    hide EffectAt;
    if n > 0 {
      TallyAddsUp(b, s, rs, n - 1, room, k);
    }
  }

  // ---- What the frames tell ----------------------------------------------

  /** The frames that tell the kernel of a lookup of `k`. */
  function Positives(rs: seq<SubReq>, frames: seq<Frame>, k: u64): (n: nat)
    requires |frames| <= |rs|
  {
    if frames == [] then 0
    else
      var i := |frames| - 1;
      Positives(rs, frames[..i], k) + if Tells(rs[i].h.opcode, frames[i].reply, k) then 1 else 0
  }

  predicate Tells(op: u32, reply: Reply, k: u64) {
    Looks(op) && Produced(op, reply) == k
  }

  /** Subrequest `i` looked `k` up, and its frame had no room for the entry. */
  predicate Lost<B>(b: Backing<B>, s: State<B>, rs: seq<SubReq>, i: nat, room: nat, k: u64)
    requires AllInBounds(rs) && i < |rs|
  {
    Once(EffectAt(b, s, rs, i, room), k) == 1 && RoomFor(room, Before(Daemon(b), s, rs, i, room).frames) < ENTRYX_OUT
  }

  predicate AnyLost<B>(b: Backing<B>, s: State<B>, rs: seq<SubReq>, n: nat, room: nat, k: u64)
    requires AllInBounds(rs) && n <= |rs|
  {
    exists i :: 0 <= i < n && Lost(b, s, rs, i, room, k)
  }

  lemma PositivesSnoc(rs: seq<SubReq>, frames: seq<Frame>, f: Frame, k: u64)
    requires |frames| < |rs|
    ensures Positives(rs, frames + [f], k)
         == Positives(rs, frames, k) + if Tells(rs[|frames|].h.opcode, f.reply, k) then 1 else 0
  {
    hide Tells;
    assert (frames + [f])[..|frames|] == frames;
  }

  /** A request's reply tells of `k` exactly if the request looked `k` up and had room to say so. */
  lemma TellsEffect<B>(b: Backing<B>, s: State<B>, h: InHeader, args: seq<byte>, cap: nat, k: u64)
    requires InBounds(h, args) && k != 0
    ensures Tells(h.opcode, SubReply(Daemon(b), s, h, args, cap).1, k)
        <==> Once(EffectOf(b, s, h, args, cap), k) == 1 && ENTRYX_OUT <= cap
  {
    hide SubReply, EffectOf, Produced;
    if Looks(h.opcode) {
      RequestProduces(b, s, h, args, cap);
    } else {
      OnlyLooksLook(b, s, h, args, cap);
    }
  }

  /** One more subrequest tells of the lookup it made, unless it is lost. */
  lemma ToldStep<B>(b: Backing<B>, s: State<B>, rs: seq<SubReq>, n: nat, room: nat, k: u64)
    requires AllInBounds(rs) && n < |rs| && k != 0
    ensures var o, o' := Before(Daemon(b), s, rs, n, room), Before(Daemon(b), s, rs, n + 1, room);
            Positives(rs, o'.frames, k) + (if Lost(b, s, rs, n, room, k) then 1 else 0)
            == Positives(rs, o.frames, k) + Once(EffectAt(b, s, rs, n, room), k)
  {
    hide Before, SubReply, EffectOf, FramesSize, Positives, Tells;
    BeforeStep(Daemon(b), s, rs, n, room);
    var o := Before(Daemon(b), s, rs, n, room);
    var left := RoomFor(room, o.frames);
    if o.accepted && left >= 0 {
      var h := HeaderOf(rs, n, o);
      TellsEffect(b, o.state, h, rs[n].args, left, k);
      PositivesSnoc(rs, o.frames, Frame(rs[n].h.unique, SubReply(Daemon(b), o.state, h, rs[n].args, left).1), k);
    }
  }

  /** The frames of a run tell of at most the lookups it made, and of all of them exactly when
      none is lost. */
  lemma {:induction false} FramesTell<B>(b: Backing<B>, s: State<B>, rs: seq<SubReq>, n: nat, room: nat, k: u64)
    requires AllInBounds(rs) && n <= |rs| && k != 0
    ensures var told, made := Positives(rs, Before(Daemon(b), s, rs, n, room).frames, k), LookedUp(b, s, rs, n, room, k);
            told <= made && (told == made <==> !AnyLost(b, s, rs, n, room, k))
    decreases n
  {
    hide Before, EffectAt, Positives, Lost, Once;
    if n == 0 {
      BeforeNothing(Daemon(b), s, rs, room);
      NoPositives(rs, k);
    } else {
      FramesTell(b, s, rs, n - 1, room, k);
      ToldStep(b, s, rs, n - 1, room, k);
      assert AnyLost(b, s, rs, n, room, k) <==> AnyLost(b, s, rs, n - 1, room, k) || Lost(b, s, rs, n - 1, room, k);
    }
  }

  lemma NoPositives(rs: seq<SubReq>, k: u64)
    ensures Positives(rs, [], k) == 0
  {
  }

  // ---- The compound as a whole -------------------------------------------

  /** The subrequests a compound runs, and the room it has for their frames. */
  function Running(body: seq<byte>, cap: nat): (rs: seq<SubReq>) {
    if |body| < COMPOUND_IN || cap < COMPOUND_OUT then [] else Parse(body, COMPOUND_IN).subs
  }

  function RoomOf(cap: nat): (room: nat) {
    if cap < COMPOUND_OUT then 0 else cap - COMPOUND_OUT
  }

  /** What a reply tells the kernel, which sent `rs`: a refused compound tells nothing. */
  function Told(rs: seq<SubReq>, reply: Reply, k: u64): (n: nat) {
    if reply.Failed? || |reply.payload| < COMPOUND_OUT then 0
    else
      var frames := WalkFrames(reply.payload, COMPOUND_OUT).frames;
      if |frames| <= |rs| then Positives(rs, frames, k) else 0
  }

  /** Some subrequest of the first `n` looked `k` up. */
  predicate AnyLooked<B>(b: Backing<B>, s: State<B>, rs: seq<SubReq>, n: nat, room: nat, k: u64)
    requires AllInBounds(rs) && n <= |rs|
  {
    exists i :: 0 <= i < n && Once(EffectAt(b, s, rs, i, room), k) == 1
  }

  lemma {:induction false} LookedUpSome<B>(b: Backing<B>, s: State<B>, rs: seq<SubReq>, n: nat, room: nat, k: u64)
    requires AllInBounds(rs) && n <= |rs|
    ensures LookedUp(b, s, rs, n, room, k) > 0 <==> AnyLooked(b, s, rs, n, room, k)
    decreases n
  {
    hide EffectAt;
    if n > 0 {
      LookedUpSome(b, s, rs, n - 1, room, k);
    }
  }

  lemma CompoundRuns<B>(b: Backing<B>, s: State<B>, body: seq<byte>, cap: nat)
    requires SubsInBounds(body)
    ensures AllInBounds(Running(body, cap))
    ensures var rs := Running(body, cap);
            Compound(Daemon(b), s, body, cap).0 == Before(Daemon(b), s, rs, |rs|, RoomOf(cap)).state
  {
    hide Parse, Fold, PutFrames;
    var rs := Running(body, cap);
    assert rs[..|rs|] == rs;
    if |body| < COMPOUND_IN || cap < COMPOUND_OUT {
      FoldNone(Daemon(b), s, RoomOf(cap));
    }
  }

  lemma AcceptedTells<B>(b: Backing<B>, s: State<B>, body: seq<byte>, cap: nat, k: u64)
    requires SubsInBounds(body) && cap < TWO32 && Compound(Daemon(b), s, body, cap).1.Replied?
    ensures AllInBounds(Running(body, cap))
    ensures var rs := Running(body, cap);
            Told(rs, Compound(Daemon(b), s, body, cap).1, k) == Positives(rs, Before(Daemon(b), s, rs, |rs|, RoomOf(cap)).frames, k)
  {
    hide Parse, Fold, PutFrames, Positives, WalkFrames;
    CompoundReplyRoundTrip(Daemon(b), s, body, cap);
    var rs := Running(body, cap);
    assert rs[..|rs|] == rs;
  }

  /**
    A compound, accepted or refused. The table counts each lookup it made and each forget it
    carried, in order; forgets that ask for no more than was counted add up exactly. The reply
    tells of at most the lookups made. It tells of all of them exactly when, accepted, no
    lookup lacked room for its entry, or, refused, there was none.
   */
  lemma CompoundLookups<B>(b: Backing<B>, s: State<B>, body: seq<byte>, cap: nat, k: u64)
    requires SubsInBounds(body) && cap < TWO32 && k != 0
    requires CountOf(s.table, k) + |Running(body, cap)| < TWO64
    ensures AllInBounds(Running(body, cap))
    ensures var rs, room := Running(body, cap), RoomOf(cap);
            var (t, reply) := Compound(Daemon(b), s, body, cap);
            var told, made, off := Told(rs, reply, k), LookedUp(b, s, rs, |rs|, room, k), DroppedOff(b, s, rs, |rs|, room, k);
            && CountOf(t.table, k) == Tally(b, s, rs, |rs|, room, k)
            && (off <= CountOf(s.table, k) ==> CountOf(t.table, k) == CountOf(s.table, k) + made - off)
            && told <= made
            && (told == made <==> if reply.Replied? then !AnyLost(b, s, rs, |rs|, room, k)
                                  else !AnyLooked(b, s, rs, |rs|, room, k))
  {
    hide Running, Compound, Before, EffectAt, Told, Tally, LookedUp, DroppedOff, AnyLost, AnyLooked;
    CompoundRuns(b, s, body, cap);
    var rs, room := Running(body, cap), RoomOf(cap);
    TallyIsCount(b, s, rs, |rs|, room, k);
    TallyAddsUp(b, s, rs, |rs|, room, k);
    if Compound(Daemon(b), s, body, cap).1.Replied? {
      AcceptedTells(b, s, body, cap, k);
      FramesTell(b, s, rs, |rs|, room, k);
    } else {
      RefusedTells(rs, Compound(Daemon(b), s, body, cap).1, k);
      LookedUpSome(b, s, rs, |rs|, room, k);
    }
  }

  lemma RefusedTells(rs: seq<SubReq>, reply: Reply, k: u64)
    requires reply.Failed?
    ensures Told(rs, reply, k) == 0
  {
  }

  // ---- Two compounds that tell less than they count ------------------------

  /** A backing directory where every name is inode 7. */
  function Sevens<B>(rest: Filesystem<B>): (b: Backing<B>) {
    Backing((x: B, parent, name) => (x, Found(7)), (x: B, parent, args) => (x, Err(EIO)), rest)
  }

  /** LOOKUPX of `a` in the root. */
  const LOOKUP_A: SubReq := SubReq(NO_DEP, [0, 0, 0], InHeader(42, LOOKUPX, 5, ROOT, 0, 0, 0, 0, 0), [97, 0])

  lemma LookupFinds<B>(rest: Filesystem<B>, x: B, room: nat)
    requires OUT_HEADER <= room
    ensures AllInBounds([LOOKUP_A]) && WellFormed(LOOKUP_A)
    ensures var b, s := Sevens(rest), State(map[ROOT := 1], x);
            LookedUp(b, s, [LOOKUP_A], 1, room, 7) == 1 && EffectAt(b, s, [LOOKUP_A], 0, room) == Looked(7)
  {
    hide SubReply, Fold;
    var b, s := Sevens(rest), State(map[ROOT := 1], x);
    var rs := [LOOKUP_A];
    BeforeNothing(Daemon(b), s, rs, room);
    var o := Before(Daemon(b), s, rs, 0, room);
    var h := HeaderOf(rs, 0, o);
    LookupDecodes(h);
    assert EffectOf(b, s, h, LOOKUP_A.args, room - OUT_HEADER) == Looked(7);
  }

  lemma LookupDecodes(h: InHeader)
    requires h.opcode == LOOKUPX
    ensures forall cap: nat :: Decode(h, [97, 0], cap) == Ok(Entry(Lookupx(Ctx(h), h.nodeid, [97])))
  {
    var body: seq<byte> := [97, 0];
    StrNLenOfTerminated([97], []);
    assert [97] + [0] + [] == body && body[..1] == [97];
  }

  /** A body whose one subrequest is followed by too little for another is run and refused. */
  lemma TruncatedBody(r: SubReq, junk: seq<byte>)
    requires WellFormed(r) && 0 < |junk| < SUB_HEADERS
    ensures Parse(Zeros(COMPOUND_IN) + PutSub(r) + junk, COMPOUND_IN) == Parsed([r], false)
  {
    hide PutSub, SubAt, SubEnd;
    ParseStep(Zeros(COMPOUND_IN), PutSub(r), junk, r);
    assert [r] + [] == [r];
  }

  /** The lookup is counted, the compound is refused, and the kernel is told nothing. */
  lemma RefusedLookup<B>(rest: Filesystem<B>, x: B)
    ensures var b, s := Sevens(rest), State(map[ROOT := 1], x);
            var body, cap := Zeros(COMPOUND_IN) + PutSub(LOOKUP_A) + [0], 4096;
            && SubsInBounds(body) && Running(body, cap) == [LOOKUP_A]
            && var (t, reply) := Compound(Daemon(b), s, body, cap);
               reply == Failed(EINVAL) && CountOf(t.table, 7) == 1 && Told([LOOKUP_A], reply, 7) == 0
  {
    hide PutSub, SubReply, Parse, Fold, EffectAt, LookedUp, DroppedOff, Tally;
    var b, s := Sevens(rest), State(map[ROOT := 1], x);
    var body, cap := Zeros(COMPOUND_IN) + PutSub(LOOKUP_A) + [0], 4096;
    LookupFinds(rest, x, cap - COMPOUND_OUT);
    TruncatedBody(LOOKUP_A, [0]);
    CompoundLookups(b, s, body, cap, 7);
    NothingDropped(b, s, cap - COMPOUND_OUT);
  }

  lemma NothingDropped<B>(b: Backing<B>, s: State<B>, room: nat)
    requires AllInBounds([LOOKUP_A]) && EffectAt(b, s, [LOOKUP_A], 0, room) == Looked(7)
    ensures DroppedOff(b, s, [LOOKUP_A], 1, room, 7) == 0
  {
    hide EffectAt;
    assert DroppedOff(b, s, [LOOKUP_A], 0, room, 7) == 0;
  }

  /** The lookup is counted, the compound is accepted, and its one frame is EIO for want of room. */
  lemma StarvedLookup<B>(rest: Filesystem<B>, x: B)
    ensures var b, s := Sevens(rest), State(map[ROOT := 1], x);
            var body, cap := Zeros(COMPOUND_IN) + PutSub(LOOKUP_A), COMPOUND_OUT + OUT_HEADER;
            && SubsInBounds(body) && Running(body, cap) == [LOOKUP_A]
            && var (t, reply) := Compound(Daemon(b), s, body, cap);
               reply.Replied? && CountOf(t.table, 7) == 1 && Told([LOOKUP_A], reply, 7) == 0
  {
    hide PutSub, SubReply, Parse, Fold, EffectAt, LookedUp, DroppedOff, Tally, WalkFrames, Positives;
    var b, s := Sevens(rest), State(map[ROOT := 1], x);
    var body, cap := Zeros(COMPOUND_IN) + PutSub(LOOKUP_A), COMPOUND_OUT + OUT_HEADER;
    LookupFinds(rest, x, OUT_HEADER);
    WholeBody(LOOKUP_A);
    CompoundLookups(b, s, body, cap, 7);
    NothingDropped(b, s, OUT_HEADER);
    FitsOne(Daemon(b), s, OUT_HEADER);
    BeforeNothing(Daemon(b), s, [LOOKUP_A], OUT_HEADER);
    assert Lost(b, s, [LOOKUP_A], 0, OUT_HEADER, 7);
  }

  lemma WholeBody(r: SubReq)
    requires WellFormed(r)
    ensures Parse(Zeros(COMPOUND_IN) + PutSub(r), COMPOUND_IN) == Parsed([r], true)
  {
    hide PutSub;
    assert [r][1..] == [] && PutSubs([r]) == PutSub(r) + [] == PutSub(r);
    ParsePut(Zeros(COMPOUND_IN), [r]);
  }

  lemma FitsOne<S>(fs: Filesystem<S>, s: S, room: nat)
    requires AllInBounds([LOOKUP_A]) && OUT_HEADER <= room
    ensures Fold(fs, s, [LOOKUP_A], [], room).accepted
  {
    hide SubReply, Fold;
    FoldSingle(fs, s, LOOKUP_A, [], room);
  }
}
