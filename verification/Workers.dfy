/**
  The ring worker: `start` and `run` of src/uring_worker.cpp, against a kernel that
  acts between the worker's steps. A schedule says what it does: which armed entries
  complete and how, how waiting ends, how much of the queue each submit takes and
  what it returns, and what callbacks on other queues do to the daemon. Proving `Run`
  for every schedule proves it for every run.
 */
module Workers {
  import opened Bytes
  import opened Wire
  import opened Filesystem
  import opened Replies
  import opened Compounds
  import opened Transport
  import opened Rings

  /** A submit: the kernel takes at most `taken` entries and returns `rc`. */
  datatype Submission = Submission(taken: nat, rc: int)

  datatype Wait = Ready | Interrupted | Broken(err: nat)

  /** One pass of the loop, seen from outside. */
  datatype Turn<!S> = Turn(others: S -> S, arrivals: seq<(nat, Arrival)>, wait: Wait, submit: Submission)

  predicate PossibleTurn<S>(t: Turn<S>, size: nat) {
    forall i :: 0 <= i < |t.arrivals| ==> Possible(t.arrivals[i].1, size)
  }

  lemma NoTokens(depth: nat)
    ensures TokensFrom(depth, depth) == multiset{}
  {
  }

  /** Before anything is queued, every token is in hand. */
  function Fresh(depth: nat, size: nat): (r: Ring) {
    Ring([], [], [], seq(depth, i => Zeros(size)), AllTokens(depth), [])
  }

  lemma FreshSound(depth: nat, size: nat)
    requires depth < TWO32 && REQ_HEADER <= size
    ensures Sound(Fresh(depth, size), depth, size)
  {
    hide AllTokens;
    NoneQueued(AllTokens(depth));
  }

  lemma NoneQueued(ts: multiset<int>)
    ensures SqTokens([]) + SqTokens([]) + CqTokens([]) + ts == ts
  {
    assert multiset{} + multiset{} + multiset{} + ts == ts;
  }

  lemma StartsWith(depth: nat, size: nat)
    requires depth < TWO32
    ensures Fresh(depth, size).hand == multiset{STOP as int} + TokensFrom(0, depth) && Fresh(depth, size).log == []
    ensures STOP in Fresh(depth, size).hand && Fresh(depth, size).sq == [] && Fresh(depth, size).armed == []
  {
  }

  lemma NextToken(i: nat, depth: nat)
    requires i < depth
    ensures i in TokensFrom(i, depth) && TokensFrom(i, depth) == multiset{i as int} + TokensFrom(i + 1, depth)
  {
  }

  /** Before anything has landed, a slot may be registered. */
  lemma MayRegister(r: Ring, i: nat)
    requires r.log == [] && i < TWO32
    ensures SqOk(r, Register(i))
  {
  }

  lemma MayPoll(r: Ring)
    ensures SqOk(r, Poll)
  {
  }

  lemma QueuedHand(r: Ring, e: Sqe, rest: multiset<int>)
    requires r.hand == multiset{Token(e)} + rest
    ensures Queued(r, e).hand == rest && Queued(r, e).log == r.log
    ensures Queued(r, e).sq == r.sq + [e] && Queued(r, e).armed == r.armed
  {
  }

  /** The stop poll, then a REGISTER for each of the first `n` slots. */
  predicate Registers(q: seq<Sqe>, n: nat) {
    |q| == n + 1 && q[0] == Poll && forall i :: 0 <= i < n ==> q[i + 1] == RegisterOf(i)
  }

  function RegisterOf(i: nat): Sqe {
    if i < TWO32 then Register(i) else Poll
  }

  lemma RegistersNone()
    ensures Registers([] + [Poll], 0)
  {
  }

  lemma RegistersMore(q: seq<Sqe>, n: nat)
    requires Registers(q, n) && n < TWO32
    ensures Registers(q + [Register(n)], n + 1)
  {
  }

  /** The error a completion leaves the worker with. */
  function NewError(c: Cqe, rc: int, ec: int): int {
    if c.ud == STOP || c.err == ENOTCONN || c.err == ENODEV || c.err == EINTR then ec
    else if c.err > 0 then c.err
    else if rc < 0 then -rc
    else ec
  }

  /** The daemon, in state `s`, dispatched the request in `b` and moved to `t`; this is the
      frame of its reply. */
  ghost predicate Framed<S>(fs: Filesystem<S>, s: S, b: seq<byte>, t: S, f: Frame) {
    && Image(b, |b|)
    && var (t', reply) := Handle(fs, s, b);
       t == t' && f == Frame(InAt(b, 0).unique, reply)
  }

  /** The daemon dispatched the request in `b`, and `after` holds its reply. */
  ghost predicate Handled<S>(fs: Filesystem<S>, s: S, b: seq<byte>, t: S, after: seq<byte>) {
    exists f :: Framed(fs, s, b, t, f) && Holds(after, f)
  }

  /** The daemon's states before and after it made a reply. */
  datatype Call<+S> = Call(before: S, after: S)

  /** Every frame in the record is the daemon's reply to the request the slot then owed. */
  ghost predicate Genuine<S>(fs: Filesystem<S>, log: seq<Event>, calls: map<nat, Call<S>>) {
    forall m :: 0 <= m < |log| && log[m].Reply? ==> GenuineAt(fs, log, calls, m)
  }

  ghost predicate GenuineAt<S>(fs: Filesystem<S>, log: seq<Event>, calls: map<nat, Call<S>>, m: nat)
    requires m < |log| && log[m].Reply?
  {
    && m in calls && Stand(log[..m], log[m].slot).Owes?
    && Framed(fs, calls[m].before, Stand(log[..m], log[m].slot).image, calls[m].after, log[m].frame)
  }

  lemma GenuineStays<S>(fs: Filesystem<S>, log: seq<Event>, calls: map<nat, Call<S>>, e: Event)
    requires Genuine(fs, log, calls) && !e.Reply?
    ensures Genuine(fs, log + [e], calls)
  {
    hide Stand, Framed;
    forall m | 0 <= m < |log| && log[m].Reply? ensures GenuineAt(fs, log + [e], calls, m) {
      assert GenuineAt(fs, log, calls, m) && (log + [e])[..m] == log[..m];
    }
  }

  lemma GenuineReply<S>(fs: Filesystem<S>, log: seq<Event>, calls: map<nat, Call<S>>, slot: nat, f: Frame, c: Call<S>)
    requires Genuine(fs, log, calls) && Stand(log, slot).Owes?
    requires Framed(fs, c.before, Stand(log, slot).image, c.after, f)
    ensures Genuine(fs, log + [Reply(slot, f)], calls[|log| := c])
  {
    hide Stand, Framed;
    var log', calls' := log + [Reply(slot, f)], calls[|log| := c];
    forall m | 0 <= m < |log'| && log'[m].Reply? ensures GenuineAt(fs, log', calls', m) {
      assert log'[..m] == log[..m];
      if m == |log| {
        assert log[..m] == log;
      } else {
        assert GenuineAt(fs, log, calls, m);
      }
    }
  }

  /** Answer `j` carries, under the commit id and unique of the latest request delivered to its
      slot, what the daemon replied to that request. */
  ghost predicate Truthful<S>(fs: Filesystem<S>, log: seq<Event>, calls: map<nat, Call<S>>, j: nat) {
    exists k: nat, m: nat :: Answers(log, k, m, j) && m in calls && Framed(fs, calls[m].before, log[k].image, calls[m].after, log[m].frame)
  }

  lemma AnswersTruthful<S>(fs: Filesystem<S>, log: seq<Event>, calls: map<nat, Call<S>>)
    requires Genuine(fs, log, calls) && forall i: nat :: Stand(log, i) != Wrong
    ensures forall j :: 0 <= j < |log| && log[j].Answer? ==> Truthful(fs, log, calls, j)
  {
    hide Stand, Framed, Answers;
    forall j | 0 <= j < |log| && log[j].Answer? ensures Truthful(fs, log, calls, j) {
      var k, m := AnswersMatch(log, j);
      AnswersParts(log, k, m, j);
      assert GenuineAt(fs, log, calls, m);
    }
  }

  lemma AnswersParts(log: seq<Event>, k: nat, m: nat, j: nat)
    requires Answers(log, k, m, j)
    ensures k < m < |log| && log[k].Deliver? && log[m].Reply? && log[m].slot == log[j].slot
  {
  }

  /** The ring after an arrival, part by part. */
  lemma ArrivedParts(r: Ring, k: nat, a: Arrival)
    requires k < |r.armed| && (r.armed[k].Poll? || r.armed[k].slot < |r.bufs|)
    requires a.Lands? ==> REQ_HEADER <= |a.image|
    ensures var r', e := Arrived(r, k, a), r.armed[k];
            && r'.sq == r.sq && r'.armed == r.armed[..k] + r.armed[k + 1..]
            && (e.Poll? ==> r'.cq == r.cq + [Cqe(STOP, 0)] && r'.bufs == r.bufs && r'.log == r.log)
            && (!e.Poll? && a.Lands? ==>
                  && r'.cq == r.cq + [Cqe(e.slot, 0)] && r'.bufs == r.bufs[e.slot := a.image]
                  && r'.log == r.log + [Deliver(e.slot, a.image)])
            && (!e.Poll? && a.Fails? ==> r'.cq == r.cq + [Cqe(e.slot, a.err)] && r'.bufs == r.bufs && r'.log == r.log)
  {
  }

  /** What a worker has at one moment. */
  datatype Shot<+S> = Shot(s: S, sq: seq<Sqe>, armed: seq<Sqe>, cq: seq<Cqe>, bufs: seq<seq<byte>>, ec: int)

  /** The kernel has completed some armed entries, each with one completion behind those there
      were, and touched nothing of the worker's. */
  ghost predicate Completes<S>(a: Shot<S>, b: Shot<S>, n: nat) {
    && b.sq == a.sq && b.ec == a.ec && a.cq <= b.cq && |b.bufs| == |a.bufs|
    && n <= |a.armed| && |b.cq| == |a.cq| + n && |b.armed| == |a.armed| - n
    && (forall e :: e in b.armed ==> e in a.armed)
    && forall i :: |a.cq| <= i < |b.cq| ==> WasArmed(a.armed, b.cq[i].ud)
  }

  ghost predicate WasArmed(armed: seq<Sqe>, ud: int) {
    exists e :: e in armed && Token(e) == ud
  }

  lemma CompletesNone<S>(a: Shot<S>)
    ensures Completes(a, a, 0)
  {
  }

  lemma CompletesOne<S>(a: Shot<S>, b: Shot<S>, c: Shot<S>, n: nat, k: nat)
    requires Completes(a, b, n) && k < |b.armed| && c.sq == b.sq && c.ec == b.ec && |c.bufs| == |b.bufs|
    requires c.armed == b.armed[..k] + b.armed[k + 1..] && |c.cq| == |b.cq| + 1 && b.cq <= c.cq
    requires c.cq[|b.cq|].ud == Token(b.armed[k])
    ensures Completes(a, c, n + 1)
  {
    forall i | |a.cq| <= i < |c.cq| ensures WasArmed(a.armed, c.cq[i].ud) {
      if i < |b.cq| {
        assert c.cq[i] == b.cq[i];
      } else {
        assert b.armed[k] in b.armed;
      }
    }
  }

  /** What callbacks on other queues do to the daemon is nothing the kernel completes. */
  lemma CompletesFrom<S>(a: Shot<S>, s: S, b: Shot<S>, n: nat)
    requires Completes(a.(s := s), b, n)
    ensures Completes(a, b, n)
  {
  }

  /** The worker has taken the oldest completion. The stop poll ends the loop, and so does any
      error, kept unless the connection is gone, but an interrupted slot is registered again.
      A request is dispatched, its reply left in its slot, and its commit queued. */
  ghost predicate Took<S>(fs: Filesystem<S>, size: nat, a: Shot<S>, submit: Submission, more: bool, b: Shot<S>) {
    && a.cq != [] && b.cq == a.cq[1..] && |b.bufs| == |a.bufs|
    && var c := a.cq[0];
       && (c.ud == STOP || (0 <= c.ud < |a.bufs| && c.ud < TWO32))
       && (more <==> c.ud != STOP && if c.err == 0 then submit.rc >= 0 else c.err == EINTR)
       && b.ec == NewError(c, submit.rc, a.ec)
       && (c.ud == STOP || c.err != 0 ==> b.s == a.s && b.bufs == a.bufs)
       && (c.ud != STOP && c.err == EINTR ==> b.armed + b.sq == a.armed + a.sq + [Register(c.ud)])
       && (c.ud != STOP && c.err == 0 ==>
             && Image(a.bufs[c.ud], size)
             && b.armed + b.sq == a.armed + a.sq + [Commit(c.ud, At64(a.bufs[c.ud], COMMIT_ID))]
             && Handled(fs, a.s, a.bufs[c.ud], b.s, b.bufs[c.ud])
             && forall j :: 0 <= j < |b.bufs| && j != c.ud ==> b.bufs[j] == a.bufs[j])
  }

  /** One pass: other queues and the kernel act, `mid`; then the worker waits, and a wait that
      is ready with a completion takes it. */
  ghost predicate Passed<S>(fs: Filesystem<S>, size: nat, t: Turn<S>, a: Shot<S>, mid: Shot<S>, more: bool, b: Shot<S>) {
    && mid.s == t.others(a.s) && Completes(a, mid, Min(|t.arrivals|, |a.armed|))
    && match t.wait
       case Interrupted => more && b == mid
       case Broken(err) => !more && b == mid.(ec := err)
       case Ready => if mid.cq == [] then more && b == mid else Took(fs, size, mid, t.submit, more, b)
  }

  datatype Made<+S> = Made(before: Shot<S>, mid: Shot<S>, more: bool, after: Shot<S>)

  /** Passes that follow on each other, from `first` to `last`; only the last may end the loop. */
  ghost predicate Linked<S>(fs: Filesystem<S>, size: nat, schedule: seq<Turn<S>>, trail: seq<Made<S>>,
                            first: Shot<S>, last: Shot<S>, more: bool)
  {
    && |trail| <= |schedule|
    && (forall i :: 0 <= i < |trail| ==>
          Passed(fs, size, schedule[i], trail[i].before, trail[i].mid, trail[i].more, trail[i].after))
    && (forall i :: 0 <= i < |trail| - 1 ==> trail[i].more && trail[i + 1].before == trail[i].after)
    && if trail == [] then more && last == first
       else trail[0].before == first && trail[|trail| - 1].after == last && trail[|trail| - 1].more == more
  }

  lemma NoPasses<S>(fs: Filesystem<S>, size: nat, schedule: seq<Turn<S>>, now: Shot<S>)
    ensures Linked(fs, size, schedule, [], now, now, true)
  {
  }

  lemma LinkedMore<S>(fs: Filesystem<S>, size: nat, schedule: seq<Turn<S>>, trail: seq<Made<S>>,
                      first: Shot<S>, last: Shot<S>, m: Made<S>)
    requires Linked(fs, size, schedule, trail, first, last, true) && |trail| < |schedule| && m.before == last
    requires Passed(fs, size, schedule[|trail|], m.before, m.mid, m.more, m.after)
    ensures Linked(fs, size, schedule, trail + [m], first, m.after, m.more)
  {
    hide Passed;
  }

  /** Completions are taken in the order they came: one per ready pass. */
  lemma {:induction false} ReachedInOrder<S>(fs: Filesystem<S>, size: nat, schedule: seq<Turn<S>>, trail: seq<Made<S>>,
                                             first: Shot<S>, last: Shot<S>, more: bool, i: nat, p: nat)
    requires Linked(fs, size, schedule, trail, first, last, more) && i + p < |trail| && p < |trail[i].mid.cq|
    requires forall q :: i <= q < i + p ==> schedule[q].wait.Ready?
    ensures trail[i + p].mid.cq != [] && trail[i + p].mid.cq[0] == trail[i].mid.cq[p]
    decreases p
  {
    if p > 0 {
      PassPops(fs, size, schedule[i], trail[i]);
      PassKeeps(fs, size, schedule[i + 1], trail[i + 1]);
      assert trail[i + 1].mid.cq[p - 1] == trail[i].mid.cq[p];
      ReachedInOrder(fs, size, schedule, trail, first, last, more, i + 1, p - 1);
    }
  }

  lemma PassPops<S>(fs: Filesystem<S>, size: nat, t: Turn<S>, m: Made<S>)
    requires Passed(fs, size, t, m.before, m.mid, m.more, m.after) && t.wait.Ready? && m.mid.cq != []
    ensures m.after.cq == m.mid.cq[1..]
  {
  }

  lemma PassKeeps<S>(fs: Filesystem<S>, size: nat, t: Turn<S>, m: Made<S>)
    requires Passed(fs, size, t, m.before, m.mid, m.more, m.after)
    ensures m.before.cq <= m.mid.cq
  {
  }

  /**
    Every completion is dealt with after as many ready passes as stand before it. If it is the
    stop poll the loop ends there. If it is a request, then the daemon dispatched it, its slot
    holds the reply, and its commit is queued under its own commit id.
   */
  lemma CompletionsTaken<S>(fs: Filesystem<S>, size: nat, schedule: seq<Turn<S>>, trail: seq<Made<S>>,
                            first: Shot<S>, last: Shot<S>, more: bool, i: nat, p: nat)
    requires Linked(fs, size, schedule, trail, first, last, more) && i + p < |trail| && p < |trail[i].mid.cq|
    requires forall q :: i <= q <= i + p ==> schedule[q].wait.Ready?
    ensures var c, m := trail[i].mid.cq[p], trail[i + p];
            && (c.ud == STOP ==> i + p == |trail| - 1 && !more)
            && (c.ud != STOP && c.err == 0 ==>
                  && 0 <= c.ud < |m.mid.bufs| && c.ud < |m.after.bufs| && c.ud < TWO32
                  && Handled(fs, m.mid.s, m.mid.bufs[c.ud], m.after.s, m.after.bufs[c.ud])
                  && REQ_HEADER <= |m.mid.bufs[c.ud]|
                  && Commit(c.ud, At64(m.mid.bufs[c.ud], COMMIT_ID)) in m.after.armed + m.after.sq)
  {
    hide Handled, At64;
    ReachedInOrder(fs, size, schedule, trail, first, last, more, i, p);
    var m := trail[i + p];
    assert Passed(fs, size, schedule[i + p], m.before, m.mid, m.more, m.after);
    assert Took(fs, size, m.mid, schedule[i + p].submit, m.more, m.after);
  }

  class RingWorker<S> {
    const fs: Filesystem<S>
    const depth: nat
    const size: nat       // bytes of an entry's buffer: request header and payload
    const entries: nat    // submission queue entries
    var s: S
    var sq: seq<Sqe>
    var armed: seq<Sqe>
    var cq: seq<Cqe>
    var bufs: seq<seq<byte>>
    var ec: int
    ghost var hand: multiset<int>
    ghost var log: seq<Event>
    ghost var calls: map<nat, Call<S>>

    ghost function View(): (r: Ring)
      reads this
    {
      Ring(sq, armed, cq, bufs, hand, log)
    }

    ghost function Now(): (x: Shot<S>)
      reads this
    {
      Shot(s, sq, armed, cq, bufs, ec)
    }

    /** Each slot's token, and the poll's, is in exactly one place, and every place is in order. */
    ghost predicate Valid()
      reads this
    {
      && depth < entries && depth < TWO32 && REQ_HEADER <= size < TWO32
      && Sound(View(), depth, size) && Genuine(fs, log, calls)
    }

    constructor (fs: Filesystem<S>, s: S, depth: nat, payload: nat)
      requires depth < TWO32 - 1 && REQ_HEADER + payload < TWO32
      ensures Valid() && View() == Fresh(depth, REQ_HEADER + payload) && ec == 0
      ensures this.depth == depth && size == REQ_HEADER + payload
    {
      this.fs, this.s, this.depth := fs, s, depth;
      this.size, this.entries := REQ_HEADER + payload, depth + 1;
      sq, armed, cq, bufs, ec := [], [], [], seq(depth, i => Zeros(REQ_HEADER + payload)), 0;
      hand, log, calls := AllTokens(depth), [], map[];
      new;
      FreshSound(depth, size);
    }

    /** The kernel takes entries from the front of the queue. */
    method Submit(c: Submission) returns (rc: int)
      requires Valid()
      modifies this`sq, this`armed, this`log
      ensures Valid() && |sq| == old(|sq|) - Min(c.taken, old(|sq|)) && rc == c.rc
      ensures armed + sq == old(armed + sq)
    {
      hide Sound, Stand, Genuine;
      var n := Min(c.taken, |sq|);
      for k := 0 to n
        invariant Valid() && |sq| == old(|sq|) - k && armed + sq == old(armed + sq)
      {
        assert armed + sq == (armed + [sq[0]]) + sq[1..];
        ConsumedSound(View(), depth, size);
        ghost var next := Consumed(View());
        if sq[0].Commit? {
          GenuineStays(fs, log, calls, Answer(sq[0].slot, sq[0].cid, bufs[sq[0].slot]));
        }
        sq, armed, log := sq[1..], armed + [sq[0]], next.log;
        assert View() == next;
      }
      rc := c.rc;
    }

    /** io_uring_get_sqe and the fill-in, for a token in hand. */
    method Queue(e: Sqe)
      requires Valid() && Token(e) in hand && SqOk(View(), e) && |sq| < entries
      modifies this`sq, this`hand
      ensures Valid() && View() == Queued(old(View()), e)
    {
      hide Sound, Stand, Genuine, SqOk;
      QueuedSound(View(), e, depth, size);
      sq, hand := sq + [e], hand - multiset{Token(e)};
    }

    /** Queues the REGISTER of slot `i`; there is an entry for it. */
    method QueueRegister(i: nat)
      requires Valid() && i < depth && hand == TokensFrom(i, depth) && log == [] && armed == [] && Registers(sq, i)
      modifies this`sq, this`hand
      ensures Valid() && hand == TokensFrom(i + 1, depth) && Registers(sq, i + 1)
    {
      hide Sound, Queued, Registers, SqOk, Genuine, TokensFrom;
      NextToken(i, depth);
      RoomToQueue(View(), depth, size, i);
      if |sq| == entries {
        assert false;
      }
      MayRegister(View(), i);
      QueuedHand(View(), Register(i), TokensFrom(i + 1, depth));
      RegistersMore(sq, i);
      Queue(Register(i));
    }

    /** `start`, once the buffers are mapped and the ring exists: queue the stop poll and one
        REGISTER per slot, and submit. Afterwards every token is out of hand. */
    method Start(c: Submission) returns (err: int)
      requires Valid() && View() == Fresh(depth, size)
      modifies this`sq, this`armed, this`log, this`hand
      ensures Valid() && hand == multiset{} && err == if c.rc < 0 then -c.rc else 0
      ensures Registers(armed + sq, depth)
    {
      hide Sound, Queued, Fresh, Registers, SqOk, Genuine, TokensFrom;
      StartsWith(depth, size);
      RoomToQueue(View(), depth, size, STOP);
      MayPoll(View());
      QueuedHand(View(), Poll, TokensFrom(0, depth));
      Queue(Poll);
      RegistersNone();
      for i := 0 to depth
        invariant Valid() && hand == TokensFrom(i, depth) && log == [] && armed == [] && Registers(sq, i)
      {
        QueueRegister(i);
      }
      NoTokens(depth);
      assert armed + sq == sq;
      var rc := Submit(c);
      err := if rc < 0 then -rc else 0;
    }

    /** The kernel completes the `k`th armed entry. */
    method KernelCompletes(k: nat, a: Arrival)
      requires Valid() && k < |armed| && Possible(a, size)
      modifies this`armed, this`cq, this`bufs, this`log
      ensures Valid() && armed == old(armed[..k] + armed[k + 1..]) && |cq| == old(|cq|) + 1 && old(cq) <= cq
      ensures old(armed[k]).Poll? ==> cq[old(|cq|)] == Cqe(STOP, 0) && bufs == old(bufs)
      ensures !old(armed[k]).Poll? ==>
        && cq[old(|cq|)] == Cqe(old(armed[k]).slot, if a.Lands? then 0 else a.err)
        && old(armed[k]).slot < |old(bufs)|
        && bufs == if a.Lands? then old(bufs)[old(armed[k]).slot := a.image] else old(bufs)
    {
      hide Sound, Stand, Reassembles, Genuine, Arrived, RequestInBounds, Body;
      ArrivedSound(View(), k, a, depth, size);
      ghost var next := Arrived(View(), k, a);
      ArrivedParts(View(), k, a);
      var e := armed[k];
      armed, log := armed[..k] + armed[k + 1..], next.log;
      if e.Poll? {
        cq := cq + [Cqe(STOP, 0)];
      } else if a.Lands? {
        GenuineStays(fs, old(log), calls, Deliver(e.slot, a.image));
        bufs, cq := bufs[e.slot := a.image], cq + [Cqe(e.slot, 0)];
      } else {
        cq := cq + [Cqe(e.slot, a.err)];
      }
      assert View() == next;
    }

    /** The kernel completes armed entries, in any order. */
    method KernelTurn(arrivals: seq<(nat, Arrival)>)
      requires Valid() && forall i :: 0 <= i < |arrivals| ==> Possible(arrivals[i].1, size)
      modifies this`armed, this`cq, this`bufs, this`log
      ensures Valid() && Completes(old(Now()), Now(), Min(|arrivals|, |old(armed)|))
    {
      hide Sound, Possible, Genuine, Completes;
      CompletesNone(Now());
      for i := 0 to |arrivals|
        invariant Valid() && |armed| == |old(armed)| - Min(i, |old(armed)|)
        invariant Completes(old(Now()), Now(), Min(i, |old(armed)|))
      {
        if armed != [] {
          ghost var before, k := Now(), arrivals[i].0 % |armed|;
          KernelCompletes(arrivals[i].0 % |armed|, arrivals[i].1);
          CompletesOne(old(Now()), before, Now(), i, k);
        }
      }
    }

    /** Runs `handle_one` on a slot: the daemon moves on, and the slot's buffer holds the reply
        to the request that was in it. */
    method HandleSlot(i: nat) returns (cid: u64)
      requires Valid() && i < depth == |bufs| && i in hand && Landed(View(), i, size)
      modifies this`s, this`bufs, this`log, this`calls
      ensures Valid() && Answered(View(), i, cid) && |bufs| == |old(bufs)|
      ensures Handled(fs, old(s), old(bufs[i]), s, bufs[i]) && cid == At64(old(bufs[i]), COMMIT_ID)
      ensures forall j :: 0 <= j < |bufs| && j != i ==> bufs[j] == old(bufs[j])
    {
      hide Sound, InAt, At64, At32, OutAt, Stand, Body, RequestInBounds, Holds, Answered, Handle, Genuine;
      var b := bufs[i];
      var buf := new byte[size](k requires 0 <= k < |b| => b[k]);
      var scratch := new byte[OP_IN_SIZE + (size - REQ_HEADER)](_ => 0);
      assert buf[..] == b;
      var n;
      ghost var f, before := Frame(InAt(b, 0).unique, Handle(fs, s, b).1), s;
      s, cid, n := HandleOne(fs, s, buf, scratch);
      assert Framed(fs, before, b, s, f);
      RewrittenSound(View(), i, buf[..], f, depth, size);
      GenuineReply(fs, log, calls, i, f, Call(before, s));
      calls, log := calls[|log| := Call(before, s)], log + [Reply(i, f)];
      bufs := bufs[i := buf[..]];
    }

    /** Dispatches the request in a slot and commits the reply. */
    method AnswerSlot(i: nat, submit: Submission) returns (rc: int)
      requires Valid() && i < depth == |bufs| && hand == multiset{i as int} && Landed(View(), i, size) && |sq| < entries
      modifies this`s, this`bufs, this`log, this`calls, this`sq, this`armed, this`hand
      ensures Valid() && hand == multiset{} && rc == submit.rc && |bufs| == |old(bufs)|
      ensures armed + sq == old(armed + sq) + [Commit(i, At64(old(bufs[i]), COMMIT_ID))]
      ensures Handled(fs, old(s), old(bufs[i]), s, bufs[i])
      ensures forall j :: 0 <= j < |bufs| && j != i ==> bufs[j] == old(bufs[j])
    {
      hide Sound, Answered, Stand, Handled, Image, Genuine, At64;
      var cid := HandleSlot(i);
      Queue(Commit(i, cid));
      assert armed + sq == old(armed + sq) + [Commit(i, cid)];
      rc := Submit(submit);
    }

    /** Takes the oldest completion. The stop poll ends the loop, and so does an error, except
        that an interrupted slot is registered again. A request is handled and its reply is
        queued under the request's commit id. The worker never lacks a queue entry and never
        meets an unknown index. */
    method TakeCompletion(submit: Submission) returns (more: bool)
      requires Valid() && hand == multiset{} && cq != []
      modifies this
      ensures Valid() && (more ==> hand == multiset{}) && Took(fs, size, old(Now()), submit, more, Now())
    {
      hide Sound, Answered, Stand, Handled, Delivered, Reassembles, At64, InAt, Genuine, Carries;
      SeenSound(View(), depth, size);
      var c := cq[0];
      cq, hand := cq[1..], hand + multiset{c.ud};
      if c.ud == STOP {
        return false;
      }
      var idx := c.ud;
      if idx >= |bufs| {
        assert false;
      }
      RoomToQueue(View(), depth, size, idx);
      if c.err > 0 {
        if c.err == ENOTCONN || c.err == ENODEV {
          return false;
        }
        if c.err == EINTR {
          if |sq| < entries {
            Queue(Register(idx));
            var _ := Submit(submit);
          } else {
            assert false;
          }
          return true;
        }
        ec := c.err;
        return false;
      }
      if |sq| == entries {
        assert false;
      }
      var rc := AnswerSlot(idx, submit);
      if rc < 0 {
        ec := -rc;
        return false;
      }
      return true;
    }

    /** One pass of the loop: whatever the kernel and the other workers do meanwhile, each
        token is in one place, and while the loop goes on the worker's hands are empty. */
    method Pass(t: Turn<S>) returns (more: bool, ghost mid: Shot<S>)
      requires Valid() && hand == multiset{} && PossibleTurn(t, size)
      modifies this
      ensures Valid() && (more ==> hand == multiset{}) && Passed(fs, size, t, old(Now()), mid, more, Now())
    {
      hide Sound, Genuine, Completes, Took;
      s := t.others(s);
      KernelTurn(t.arrivals);
      mid := Now();
      CompletesFrom(old(Now()), t.others(old(s)), mid, Min(|t.arrivals|, |old(armed)|));
      if t.wait.Interrupted? {
        return true, mid;
      }
      if t.wait.Broken? {
        ec := t.wait.err;
        return false, mid;
      }
      if cq == [] {
        return true, mid;   // still waiting
      }
      more := TakeCompletion(t.submit);
    }

    /** The loop, for as long as the schedule lasts. Every pass made is recorded: what it began
        with, what it found, and what it left. */
    method Run(schedule: seq<Turn<S>>) returns (more: bool, ghost trail: seq<Made<S>>)
      requires Valid() && hand == multiset{}
      requires forall i :: 0 <= i < |schedule| ==> PossibleTurn(schedule[i], size)
      modifies this
      ensures Valid() && (more ==> hand == multiset{})
      ensures forall i: nat :: Stand(log, i) != Wrong
      ensures forall j :: 0 <= j < |log| && log[j].Answer? ==> Truthful(fs, log, calls, j)
      ensures Linked(fs, size, schedule, trail, old(Now()), Now(), more) && (more ==> |trail| == |schedule|)
    {
      hide Genuine, Truthful, Orderly, Conserved, Stand, Passed, Linked;
      more, trail := true, [];
      NoPasses(fs, size, schedule, Now());
      var i := 0;
      while more && i < |schedule|
        invariant 0 <= i == |trail| <= |schedule| && Valid() && (more ==> hand == multiset{})
        invariant Linked(fs, size, schedule, trail, old(Now()), Now(), more)
      {
        ghost var before, mid := Now(), Now();
        more, mid := Pass(schedule[i]);
        LinkedMore(fs, size, schedule, trail, old(Now()), before, Made(before, mid, more, Now()));
        trail := trail + [Made(before, mid, more, Now())];
        i := i + 1;
      }
      AnswersTruthful(fs, log, calls);
    }
  }

  /** In every state `Run` reaches: each slot's token, and the poll's, is in exactly one of the
      queue, the kernel, the completions and the worker's hand. */
  lemma OnePlaceEach(r: Ring, depth: nat, size: nat, t: int)
    requires Sound(r, depth, size) && (t == STOP || 0 <= t < depth)
    ensures SqTokens(r.sq)[t] + SqTokens(r.armed)[t] + CqTokens(r.cq)[t] + r.hand[t] == 1
  {
    AllTokensOnce(depth, t);
    var all := SqTokens(r.sq) + SqTokens(r.armed) + CqTokens(r.cq) + r.hand;
    assert all[t] == SqTokens(r.sq)[t] + SqTokens(r.armed)[t] + CqTokens(r.cq)[t] + r.hand[t];
  }
}
