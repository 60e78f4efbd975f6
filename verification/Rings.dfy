/**
  The slots of one ring worker. Each of the `depth` entry buffers, and the stop poll,
  travels as a token: queued as an SQE, armed in the kernel, completed as a CQE, or in
  the worker's hand. The kernel may take any part of the queue on a submit, and
  complete armed entries in any order.
 */
module Rings {
  import opened Bytes
  import opened Wire
  import opened Filesystem
  import opened Replies
  import opened Compounds
  import opened Transport

  /** kStopSentinel. */
  const STOP: u64 := 0xFFFF_FFFF_FFFF_FFFF

  const EINTR: int := 4
  const ENODEV: int := 19
  const ENOTCONN: int := 107

  datatype Sqe = Poll | Register(slot: u32) | Commit(slot: u32, cid: u64)

  /** user_data: the slot, or the sentinel. */
  function Token(e: Sqe): (ud: int) {
    if e.Poll? then STOP else e.slot
  }

  /** A completion: the request has landed in the slot's buffer, or an error number. */
  datatype Cqe = Cqe(ud: int, err: nat)

  // ---- Tokens ------------------------------------------------------------

  function SqTokens(q: seq<Sqe>): (ts: multiset<int>) {
    if q == [] then multiset{} else multiset{Token(q[0])} + SqTokens(q[1..])
  }

  function CqTokens(q: seq<Cqe>): (ts: multiset<int>) {
    if q == [] then multiset{} else multiset{q[0].ud} + CqTokens(q[1..])
  }

  /** The slots' tokens from `i` on. */
  function TokensFrom(i: nat, depth: nat): (ts: multiset<int>)
    decreases depth - i
  {
    if i >= depth then multiset{} else multiset{i as int} + TokensFrom(i + 1, depth)
  }

  /** One token per slot and one for the stop poll. */
  function AllTokens(depth: nat): (ts: multiset<int>) {
    multiset{STOP as int} + TokensFrom(0, depth)
  }

  lemma {:induction false} SqConcat(a: seq<Sqe>, b: seq<Sqe>)
    ensures SqTokens(a + b) == SqTokens(a) + SqTokens(b)
  {
    if a == [] {
      assert a + b == b;
    } else {
      assert (a + b)[1..] == a[1..] + b;
      SqConcat(a[1..], b);
    }
  }

  lemma {:induction false} CqConcat(a: seq<Cqe>, b: seq<Cqe>)
    ensures CqTokens(a + b) == CqTokens(a) + CqTokens(b)
  {
    if a == [] {
      assert a + b == b;
    } else {
      assert (a + b)[1..] == a[1..] + b;
      CqConcat(a[1..], b);
    }
  }

  lemma SqSnoc(q: seq<Sqe>, e: Sqe)
    ensures SqTokens(q + [e]) == SqTokens(q) + multiset{Token(e)}
  {
    SqConcat(q, [e]);
    assert [e][1..] == [];
  }

  lemma CqSnoc(q: seq<Cqe>, e: Cqe)
    ensures CqTokens(q + [e]) == CqTokens(q) + multiset{e.ud}
  {
    CqConcat(q, [e]);
    assert [e][1..] == [];
  }

  lemma Around<T>(q: seq<T>, k: nat)
    requires k < |q|
    ensures q == q[..k] + ([q[k]] + q[k + 1..])
  {
  }

  lemma SqTake(q: seq<Sqe>, k: nat)
    requires k < |q|
    ensures SqTokens(q) == SqTokens(q[..k] + q[k + 1..]) + multiset{Token(q[k])}
  {
    var a, e, c := q[..k], q[k], q[k + 1..];
    Around(q, k);
    SqConcat(a, c);
    SqConcat(a, [e] + c);
    SqConcat([e], c);
    assert [e][1..] == [];
  }

  lemma SqHead(q: seq<Sqe>)
    requires q != []
    ensures SqTokens(q) == SqTokens(q[1..]) + multiset{Token(q[0])}
  {
  }

  lemma CqHead(q: seq<Cqe>)
    requires q != []
    ensures CqTokens(q) == CqTokens(q[1..]) + multiset{q[0].ud}
  {
  }

  lemma {:induction false} SqSize(q: seq<Sqe>)
    ensures |SqTokens(q)| == |q|
  {
    if q != [] {
      SqSize(q[1..]);
    }
  }

  lemma {:induction false} SqMember(q: seq<Sqe>, i: nat)
    requires i < |q|
    ensures Token(q[i]) in SqTokens(q)
  {
    if i > 0 {
      SqMember(q[1..], i - 1);
    }
  }

  lemma {:induction false} CqMember(q: seq<Cqe>, i: nat)
    requires i < |q|
    ensures q[i].ud in CqTokens(q)
  {
    if i > 0 {
      CqMember(q[1..], i - 1);
    }
  }

  lemma {:induction false} TokensOnce(i: nat, depth: nat, t: int)
    requires i <= depth
    ensures TokensFrom(i, depth)[t] == if i <= t < depth then 1 else 0
    ensures |TokensFrom(i, depth)| == depth - i
    decreases depth - i
  {
    if i < depth {
      TokensOnce(i + 1, depth, t);
    }
  }

  /** Every token exists once. */
  lemma AllTokensOnce(depth: nat, t: int)
    requires depth < TWO32
    ensures AllTokens(depth)[t] == if t == STOP || 0 <= t < depth then 1 else 0
    ensures |AllTokens(depth)| == depth + 1
  {
    hide TokensFrom;
    TokensOnce(0, depth, t);
  }

  // ---- The record of deliveries, replies and commits ----------------------

  /** A request lands in the slot; the worker leaves a frame in it; the kernel takes the
      slot's buffer for an answer under this commit id. */
  datatype Event =
    | Deliver(slot: nat, image: seq<byte>)
    | Reply(slot: nat, frame: Frame)
    | Answer(slot: nat, cid: u64, bytes: seq<byte>)

  /** Where a slot stands after a history: idle, owing an answer, ready with one, or the
      history is wrong. */
  datatype Standing = Idle | Owes(image: seq<byte>) | Ready(request: seq<byte>, frame: Frame) | Wrong

  /** The bytes carry frame `f` as the answer to the request in `image`: its commit id, its
      unique, the frame's error and payload, and a length that counts the payload. */
  predicate Carries(bytes: seq<byte>, cid: u64, image: seq<byte>, f: Frame) {
    && REQ_HEADER <= |image| && cid == At64(image, COMMIT_ID) && f.unique == InAt(image, 0).unique
    && Holds(bytes, f) && OutAt(bytes, 0).len == OUT_HEADER + At32(bytes, PAYLOAD_SZ)
  }

  /** A delivery needs an idle slot, a reply a request it has the unique of, and an answer a
      frame that it carries. */
  function After(s: Standing, e: Event): (t: Standing) {
    match e
    case Deliver(_, image) => if s == Idle && REQ_HEADER <= |image| then Owes(image) else Wrong
    case Reply(_, f) =>
      if s.Owes? && IN_HEADER <= |s.image| && f.unique == InAt(s.image, 0).unique then Ready(s.image, f) else Wrong
    case Answer(_, cid, bytes) => if s.Ready? && Carries(bytes, cid, s.request, s.frame) then Idle else Wrong
  }

  function Stand(log: seq<Event>, slot: nat): (s: Standing) {
    if log == [] then Idle
    else
      var n := |log| - 1;
      if log[n].slot == slot then After(Stand(log[..n], slot), log[n]) else Stand(log[..n], slot)
  }

  lemma StandSnoc(log: seq<Event>, e: Event, slot: nat)
    ensures Stand(log + [e], slot) == if e.slot == slot then After(Stand(log, slot), e) else Stand(log, slot)
  {
    hide After;
    assert (log + [e])[..|log|] == log;
  }

  lemma StandAt(log: seq<Event>, n: nat, slot: nat)
    requires n < |log|
    ensures Stand(log[..n + 1], slot) == if log[n].slot == slot then After(Stand(log[..n], slot), log[n]) else Stand(log[..n], slot)
  {
    hide After;
    assert log[..n + 1] == log[..n] + [log[n]];
    StandSnoc(log[..n], log[n], slot);
  }

  lemma {:induction false} WrongStays(log: seq<Event>, n: nat, slot: nat)
    requires n <= |log| && Stand(log, slot) != Wrong
    ensures Stand(log[..n], slot) != Wrong
    decreases |log|
  {
    hide Carries, InAt;
    if n < |log| {
      var m := |log| - 1;
      WrongStays(log[..m], n, slot);
      assert log[..m][..n] == log[..n];
    } else {
      assert log[..n] == log;
    }
  }

  /** The last event of a slot that is not idle is the one that made it stand as it does. */
  lemma {:induction false} StandsSince(log: seq<Event>, slot: nat) returns (k: nat)
    requires Stand(log, slot).Owes? || Stand(log, slot).Ready?
    ensures k < |log| && log[k].slot == slot && forall m :: k < m < |log| ==> log[m].slot != slot
    ensures After(Stand(log[..k], slot), log[k]) == Stand(log, slot)
    decreases |log|
  {
    hide After;
    var n := |log| - 1;
    if log[n].slot == slot {
      k := n;
    } else {
      k := StandsSince(log[..n], slot);
      assert log[..n][..k] == log[..k];
    }
  }

  /** Event `j` of the slot answers the delivery `k` with the frame left at `m`, and nothing
      else of the slot lies in between. */
  ghost predicate Answers(log: seq<Event>, k: nat, m: nat, j: nat) {
    && k < m < j < |log| && log[k].Deliver? && log[m].Reply? && log[j].Answer?
    && log[k].slot == log[m].slot == log[j].slot
    && Carries(log[j].bytes, log[j].cid, log[k].image, log[m].frame)
    && forall i :: k < i < j && i != m ==> log[i].slot != log[j].slot
  }

  /** Every answer in a history without wrongs belongs to the slot's latest delivery. */
  lemma AnswersMatch(log: seq<Event>, j: nat) returns (k: nat, m: nat)
    requires j < |log| && log[j].Answer? && Stand(log, log[j].slot) != Wrong
    ensures Answers(log, k, m, j) && Stand(log[..m], log[j].slot) == Owes(log[k].image)
  {
    hide Stand, Carries, InAt;
    var slot := log[j].slot;
    WrongStays(log, j + 1, slot);
    StandAt(log, j, slot);
    m := StandsSince(log[..j], slot);
    assert log[..j][..m] == log[..m];
    k := StandsSince(log[..m], slot);
    assert log[..m][..k] == log[..k];
  }

  lemma {:induction false} FirstEvent(log: seq<Event>, from: nat, slot: nat) returns (m: nat)
    requires from <= |log| && Stand(log, slot) != Stand(log[..from], slot)
    ensures from <= m < |log| && log[m].slot == slot && Stand(log[..m], slot) == Stand(log[..from], slot)
    ensures forall i :: from <= i < m ==> log[i].slot != slot
    decreases |log| - from
  {
    hide Stand, After;
    assert log[..|log|] == log;
    if log[from].slot == slot {
      m := from;
    } else {
      StandAt(log, from, slot);
      m := FirstEvent(log, from + 1, slot);
    }
  }

  /** Between two deliveries to a slot lies an answer to the first. */
  lemma AnsweredBetween(log: seq<Event>, i: nat, j: nat) returns (m: nat, k: nat)
    requires i < j < |log| && log[i].Deliver? && log[j].Deliver? && log[j].slot == log[i].slot
    requires Stand(log, log[i].slot) != Wrong
    ensures k < j && Answers(log, i, m, k)
  {
    hide Stand, Carries, InAt;
    var slot, past := log[i].slot, log[..j];
    WrongStays(log, j + 1, slot);
    StandAt(log, j, slot);
    WrongStays(past, i + 1, slot);
    StandAt(past, i, slot);
    m := FirstEvent(past, i + 1, slot);
    WrongStays(past, m + 1, slot);
    StandAt(past, m, slot);
    k := FirstEvent(past, m + 1, slot);
    WrongStays(past, k + 1, slot);
    StandAt(past, k, slot);
  }

  // ---- The ring ----------------------------------------------------------

  /** sq: queued entries; armed: entries the kernel has; cq: completions not yet seen;
      bufs: the slots' buffers; hand: tokens the worker holds; log: what has happened. */
  datatype Ring = Ring(sq: seq<Sqe>, armed: seq<Sqe>, cq: seq<Cqe>, bufs: seq<seq<byte>>, hand: multiset<int>, log: seq<Event>)

  /** What a fetch may put into a slot's buffer of `size` bytes. */
  predicate Image(b: seq<byte>, size: nat) {
    |b| == size && Delivered(b) && (Reassembles(b) ==> RequestInBounds(InAt(b, 0), Body(b)))
  }

  /** A request waits in the slot, and the slot owes its answer. */
  predicate Landed(r: Ring, i: nat, size: nat) {
    i < |r.bufs| && Image(r.bufs[i], size) && Stand(r.log, i) == Owes(r.bufs[i])
  }

  /** The slot's buffer carries the frame left for its request, under this commit id. */
  predicate Answered(r: Ring, i: nat, cid: u64) {
    && i < |r.bufs|
    && var st := Stand(r.log, i);
       st.Ready? && Carries(r.bufs[i], cid, st.request, st.frame)
  }

  predicate SqOk(r: Ring, e: Sqe) {
    match e
    case Poll => true
    case Register(i) => Stand(r.log, i) == Idle
    case Commit(i, cid) => Answered(r, i, cid)
  }

  predicate ArmedOk(r: Ring, e: Sqe) {
    e.Poll? || Stand(r.log, e.slot) == Idle
  }

  predicate CqOk(r: Ring, c: Cqe, size: nat) {
    c.ud == STOP || (c.ud >= 0 && if c.err == 0 then Landed(r, c.ud, size) else Stand(r.log, c.ud) == Idle)
  }

  predicate Conserved(r: Ring, depth: nat) {
    SqTokens(r.sq) + SqTokens(r.armed) + CqTokens(r.cq) + r.hand == AllTokens(depth)
  }

  predicate Orderly(r: Ring, size: nat) {
    && (forall i :: 0 <= i < |r.sq| ==> SqOk(r, r.sq[i]))
    && (forall i :: 0 <= i < |r.armed| ==> ArmedOk(r, r.armed[i]))
    && (forall i :: 0 <= i < |r.cq| ==> CqOk(r, r.cq[i], size))
  }

  ghost predicate Sound(r: Ring, depth: nat, size: nat) {
    && depth < TWO32 && |r.bufs| == depth && (forall i :: 0 <= i < depth ==> |r.bufs[i]| == size) && REQ_HEADER <= size
    && Conserved(r, depth) && Orderly(r, size) && (forall i: nat :: Stand(r.log, i) != Wrong)
  }

  /** No entry anywhere carries this token. */
  predicate Absent(r: Ring, t: int) {
    && (forall i :: 0 <= i < |r.sq| ==> Token(r.sq[i]) != t)
    && (forall i :: 0 <= i < |r.armed| ==> Token(r.armed[i]) != t)
    && (forall i :: 0 <= i < |r.cq| ==> r.cq[i].ud != t)
  }

  /** A token in hand is nowhere else. */
  lemma HandIsAlone(r: Ring, depth: nat, t: int)
    requires depth < TWO32 && Conserved(r, depth) && t in r.hand
    ensures Absent(r, t) && (t == STOP || 0 <= t < depth) && r.hand[t] == 1
  {
    AllTokensOnce(depth, t);
    var all := SqTokens(r.sq) + SqTokens(r.armed) + CqTokens(r.cq) + r.hand;
    assert all[t] == SqTokens(r.sq)[t] + SqTokens(r.armed)[t] + CqTokens(r.cq)[t] + r.hand[t];
    forall i | 0 <= i < |r.sq| ensures Token(r.sq[i]) != t { SqMember(r.sq, i); }
    forall i | 0 <= i < |r.armed| ensures Token(r.armed[i]) != t { SqMember(r.armed, i); }
    forall i | 0 <= i < |r.cq| ensures r.cq[i].ud != t { CqMember(r.cq, i); }
  }

  /** Work on one slot's buffer and history leaves the entries of the others as they are. */
  lemma OthersUntouched(r: Ring, r': Ring, slot: nat, size: nat)
    requires Orderly(r, size) && Absent(r, slot) && r'.sq == r.sq && r'.armed == r.armed && r'.cq == r.cq
    requires |r'.bufs| == |r.bufs| && forall i :: 0 <= i < |r.bufs| && i != slot ==> r'.bufs[i] == r.bufs[i]
    requires forall i: nat :: i != slot ==> Stand(r'.log, i) == Stand(r.log, i)
    ensures Orderly(r', size)
  {
    hide Image, Carries, Stand;
    forall i | 0 <= i < |r.sq| ensures SqOk(r', r.sq[i]) { assert SqOk(r, r.sq[i]) && Token(r.sq[i]) != slot; }
    forall i | 0 <= i < |r.armed| ensures ArmedOk(r', r.armed[i]) { assert ArmedOk(r, r.armed[i]) && Token(r.armed[i]) != slot; }
    forall i | 0 <= i < |r.cq| ensures CqOk(r', r.cq[i], size) { assert CqOk(r, r.cq[i], size) && r.cq[i].ud != slot; }
  }

  // ---- Moves -------------------------------------------------------------

  /** Moving an entry between queues keeps the others in order. */
  lemma StillOrderly(r: Ring, r': Ring, size: nat)
    requires Orderly(r, size) && r'.bufs == r.bufs && r'.log == r.log
    requires forall i :: 0 <= i < |r'.sq| ==> r'.sq[i] in r.sq || SqOk(r, r'.sq[i])
    requires forall i :: 0 <= i < |r'.armed| ==> r'.armed[i] in r.armed || ArmedOk(r, r'.armed[i])
    requires forall i :: 0 <= i < |r'.cq| ==> r'.cq[i] in r.cq || CqOk(r, r'.cq[i], size)
    ensures Orderly(r', size)
  {
    hide Image, Carries, Stand;
    assert forall e :: SqOk(r', e) == SqOk(r, e);
    assert forall e :: ArmedOk(r', e) == ArmedOk(r, e);
    assert forall c :: CqOk(r', c, size) == CqOk(r, c, size);
  }

  /** The kernel turns to one of its armed entries. */
  function Unarmed(r: Ring, k: nat): (r': Ring)
    requires k < |r.armed|
  {
    r.(armed := r.armed[..k] + r.armed[k + 1..], hand := r.hand + multiset{Token(r.armed[k])})
  }

  lemma UnarmedSound(r: Ring, k: nat, depth: nat, size: nat)
    requires Sound(r, depth, size) && k < |r.armed|
    ensures Sound(Unarmed(r, k), depth, size) && ArmedOk(r, r.armed[k]) && Token(r.armed[k]) in Unarmed(r, k).hand
  {
    hide SqOk, ArmedOk, CqOk, AllTokens, SqTokens, CqTokens;
    SqTake(r.armed, k);
    PickUp(SqTokens(r.sq), SqTokens(r.armed[..k] + r.armed[k + 1..]), CqTokens(r.cq), r.hand, Token(r.armed[k]));
    StillOrderly(r, Unarmed(r, k), size);
  }

  function Completed(r: Ring, ud: int, err: nat): (r': Ring) {
    r.(cq := r.cq + [Cqe(ud, err)], hand := r.hand - multiset{ud})
  }

  lemma CompletedSound(r: Ring, ud: int, err: nat, depth: nat, size: nat)
    requires Sound(r, depth, size) && ud in r.hand && CqOk(r, Cqe(ud, err), size)
    ensures Sound(Completed(r, ud, err), depth, size)
  {
    hide SqOk, ArmedOk, CqOk, AllTokens, SqTokens, CqTokens;
    CqSnoc(r.cq, Cqe(ud, err));
    PutDown(SqTokens(r.sq), SqTokens(r.armed), CqTokens(r.cq), r.hand, ud);
    StillOrderly(r, Completed(r, ud, err), size);
  }

  lemma OneSlotMoves(log: seq<Event>, e: Event)
    ensures forall i: nat :: Stand(log + [e], i) == if i == e.slot then After(Stand(log, i), e) else Stand(log, i)
  {
    hide After, Stand;
    forall i: nat ensures Stand(log + [e], i) == if i == e.slot then After(Stand(log, i), e) else Stand(log, i) {
      StandSnoc(log, e, i);
    }
  }

  /** A request is written into the slot's buffer. */
  function Filled(r: Ring, slot: nat, image: seq<byte>): (r': Ring)
    requires slot < |r.bufs| && REQ_HEADER <= |image|
  {
    r.(bufs := r.bufs[slot := image], log := r.log + [Deliver(slot, image)])
  }

  lemma FilledSound(r: Ring, slot: nat, image: seq<byte>, depth: nat, size: nat)
    requires Sound(r, depth, size) && slot in r.hand && slot < depth && Image(image, size) && Stand(r.log, slot) == Idle
    ensures Sound(Filled(r, slot, image), depth, size) && Landed(Filled(r, slot, image), slot, size)
  {
    hide SqOk, ArmedOk, CqOk, Stand, AllTokens, SqTokens, CqTokens, Orderly;
    var r' := Filled(r, slot, image);
    HandIsAlone(r, depth, slot);
    OneSlotMoves(r.log, Deliver(slot, image));
    OthersUntouched(r, r', slot, size);
  }

  /** The kernel completes an armed entry: the poll fires, a request lands, or it fails. */
  datatype Arrival = Lands(image: seq<byte>) | Fails(err: nat)

  predicate Possible(a: Arrival, size: nat) {
    match a
    case Lands(image) => Image(image, size)
    case Fails(err) => err > 0
  }

  function Arrived(r: Ring, k: nat, a: Arrival): (r': Ring)
    requires k < |r.armed| && (r.armed[k].Poll? || r.armed[k].slot < |r.bufs|)
    requires a.Lands? ==> REQ_HEADER <= |a.image|
  {
    var e, u := r.armed[k], Unarmed(r, k);
    if e.Poll? then Completed(u, STOP, 0)
    else match a
      case Lands(image) => Completed(Filled(u, e.slot, image), e.slot, 0)
      case Fails(err) => Completed(u, e.slot, err)
  }

  lemma TokensKnown(r: Ring, depth: nat, size: nat, k: nat)
    requires Sound(r, depth, size) && k < |r.armed|
    ensures r.armed[k].Poll? || r.armed[k].slot < depth
  {
    hide SqOk, ArmedOk, CqOk;
    UnarmedSound(r, k, depth, size);
    HandIsAlone(Unarmed(r, k), depth, Token(r.armed[k]));
  }

  lemma ArrivedSound(r: Ring, k: nat, a: Arrival, depth: nat, size: nat)
    requires Sound(r, depth, size) && k < |r.armed| && Possible(a, size)
    ensures r.armed[k].Poll? || r.armed[k].slot < |r.bufs|
    ensures Sound(Arrived(r, k, a), depth, size) && Arrived(r, k, a).hand == r.hand
  {
    hide SqOk, InAt, At64, At32, Stand, Conserved, Orderly, Landed, RequestInBounds, Body;
    TokensKnown(r, depth, size, k);
    UnarmedSound(r, k, depth, size);
    var e, u := r.armed[k], Unarmed(r, k);
    assert u.hand - multiset{Token(e)} == r.hand;
    if e.Poll? {
      CompletedSound(u, STOP, 0, depth, size);
    } else if a.Lands? {
      FilledSound(u, e.slot, a.image, depth, size);
      CompletedSound(Filled(u, e.slot, a.image), e.slot, 0, depth, size);
    } else {
      CompletedSound(u, e.slot, a.err, depth, size);
    }
  }

  /** The worker sees the oldest completion. */
  function Seen(r: Ring): (r': Ring)
    requires r.cq != []
  {
    r.(cq := r.cq[1..], hand := r.hand + multiset{r.cq[0].ud})
  }

  lemma SeenSound(r: Ring, depth: nat, size: nat)
    requires Sound(r, depth, size) && r.cq != []
    ensures Sound(Seen(r), depth, size) && r.cq[0].ud in Seen(r).hand && CqOk(Seen(r), r.cq[0], size)
    ensures r.cq[0].ud == STOP || 0 <= r.cq[0].ud < depth == |r.bufs|
  {
    hide SqOk, ArmedOk, AllTokens, SqTokens, CqTokens, Stand, Image;
    CqHead(r.cq);
    PickUp(SqTokens(r.sq), SqTokens(r.armed), CqTokens(r.cq[1..]), r.hand, r.cq[0].ud);
    StillOrderly(r, Seen(r), size);
    assert CqOk(r, r.cq[0], size);
    HandIsAlone(Seen(r), depth, r.cq[0].ud);
  }

  /** The worker queues an entry for a token it holds. */
  function Queued(r: Ring, e: Sqe): (r': Ring) {
    r.(sq := r.sq + [e], hand := r.hand - multiset{Token(e)})
  }

  /** Holding a token, the worker finds a free queue entry among `depth` + 1. */
  lemma RoomToQueue(r: Ring, depth: nat, size: nat, t: int)
    requires Sound(r, depth, size) && t in r.hand
    ensures |r.sq| <= depth
  {
    hide Orderly, Stand;
    SqSize(r.sq);
    AllTokensOnce(depth, t);
    assert |AllTokens(depth)| == |SqTokens(r.sq)| + |SqTokens(r.armed)| + |CqTokens(r.cq)| + |r.hand|;
    assert r.hand == (r.hand - multiset{t}) + multiset{t};
  }

  lemma QueuedSound(r: Ring, e: Sqe, depth: nat, size: nat)
    requires Sound(r, depth, size) && Token(e) in r.hand && SqOk(r, e)
    ensures Sound(Queued(r, e), depth, size)
  {
    hide SqOk, ArmedOk, CqOk, AllTokens, SqTokens, CqTokens;
    SqSnoc(r.sq, e);
    StillOrderly(r, Queued(r, e), size);
    PutDown(SqTokens(r.sq), SqTokens(r.armed), CqTokens(r.cq), r.hand, Token(e));
  }

  lemma PutDown(a: multiset<int>, b: multiset<int>, c: multiset<int>, hand: multiset<int>, t: int)
    requires t in hand
    ensures (a + multiset{t}) + b + c + (hand - multiset{t}) == a + b + c + hand
    ensures a + (b + multiset{t}) + c + (hand - multiset{t}) == a + b + c + hand
    ensures a + b + (c + multiset{t}) + (hand - multiset{t}) == a + b + c + hand
  {
  }

  lemma PickUp(a: multiset<int>, b: multiset<int>, c: multiset<int>, hand: multiset<int>, t: int)
    ensures a + b + c + (hand + multiset{t}) == (a + multiset{t}) + b + c + hand
    ensures a + b + c + (hand + multiset{t}) == a + (b + multiset{t}) + c + hand
    ensures a + b + c + (hand + multiset{t}) == a + b + (c + multiset{t}) + hand
  {
  }

  /** The kernel takes the entry at the front of the queue; a commit's answer is read from
      the slot's buffer at that moment. */
  function Consumed(r: Ring): (r': Ring)
    requires r.sq != [] && (r.sq[0].Commit? ==> r.sq[0].slot < |r.bufs|)
  {
    var e := r.sq[0];
    var moved := r.(sq := r.sq[1..], armed := r.armed + [e]);
    if !e.Commit? then moved
    else
      moved.(log := r.log + [Answer(e.slot, e.cid, r.bufs[e.slot])])
  }

  /** The front of the queue, in the kernel's hand. */
  function Dequeued(r: Ring): (r': Ring)
    requires r.sq != []
  {
    r.(sq := r.sq[1..], hand := r.hand + multiset{Token(r.sq[0])})
  }

  lemma DequeuedSound(r: Ring, depth: nat, size: nat)
    requires Sound(r, depth, size) && r.sq != []
    ensures Sound(Dequeued(r), depth, size) && SqOk(Dequeued(r), r.sq[0])
  {
    hide ArmedOk, CqOk, Image, Carries, Stand, AllTokens, SqTokens, CqTokens;
    SqHead(r.sq);
    PickUp(SqTokens(r.sq[1..]), SqTokens(r.armed), CqTokens(r.cq), r.hand, Token(r.sq[0]));
    assert SqOk(r, r.sq[0]);
    StillOrderly(r, Dequeued(r), size);
  }

  /** Reading the answer settles what the slot owes. */
  lemma SettledSound(r: Ring, slot: nat, cid: u64, depth: nat, size: nat)
    requires Sound(r, depth, size) && slot in r.hand && Answered(r, slot, cid)
    ensures var r' := r.(log := r.log + [Answer(slot, cid, r.bufs[slot])]);
            Sound(r', depth, size) && Stand(r'.log, slot) == Idle
  {
    hide SqOk, ArmedOk, CqOk, Carries, Stand, AllTokens, SqTokens, CqTokens, Orderly;
    var r' := r.(log := r.log + [Answer(slot, cid, r.bufs[slot])]);
    HandIsAlone(r, depth, slot);
    OneSlotMoves(r.log, Answer(slot, cid, r.bufs[slot]));
    OthersUntouched(r, r', slot, size);
  }

  lemma RearmedSound(r: Ring, e: Sqe, depth: nat, size: nat)
    requires Sound(r, depth, size) && Token(e) in r.hand && ArmedOk(r, e)
    ensures Sound(r.(armed := r.armed + [e], hand := r.hand - multiset{Token(e)}), depth, size)
  {
    hide SqOk, ArmedOk, CqOk, AllTokens, SqTokens, CqTokens;
    SqSnoc(r.armed, e);
    StillOrderly(r, r.(armed := r.armed + [e], hand := r.hand - multiset{Token(e)}), size);
    PutDown(SqTokens(r.sq), SqTokens(r.armed), CqTokens(r.cq), r.hand, Token(e));
  }

  lemma ConsumedSound(r: Ring, depth: nat, size: nat)
    requires Sound(r, depth, size) && r.sq != []
    ensures r.sq[0].Commit? ==> r.sq[0].slot < |r.bufs|
    ensures Sound(Consumed(r), depth, size)
  {
    hide OutAt, At32, Stand, Conserved, Orderly, CqOk;
    var e, u := r.sq[0], Dequeued(r);
    DequeuedSound(r, depth, size);
    var v := u.(log := Consumed(r).log);
    if e.Commit? {
      SettledSound(u, e.slot, e.cid, depth, size);
    }
    RearmedSound(v, e, depth, size);
    assert u.hand - multiset{Token(e)} == r.hand;
  }

  /** The worker replaces a landed request by the frame of its reply. */
  function Rewritten(r: Ring, slot: nat, b: seq<byte>, f: Frame): (r': Ring)
    requires slot < |r.bufs|
  {
    r.(bufs := r.bufs[slot := b], log := r.log + [Reply(slot, f)])
  }

  lemma RewrittenSound(r: Ring, slot: nat, b: seq<byte>, f: Frame, depth: nat, size: nat)
    requires Sound(r, depth, size) && slot in r.hand && slot < depth && Landed(r, slot, size) && |b| == size < TWO32
    requires Holds(b, f) && f.unique == InAt(r.bufs[slot], 0).unique
    ensures Sound(Rewritten(r, slot, b, f), depth, size)
    ensures Answered(Rewritten(r, slot, b, f), slot, At64(r.bufs[slot], COMMIT_ID))
  {
    hide SqOk, ArmedOk, CqOk, Stand, AllTokens, SqTokens, CqTokens, Orderly, InAt, OutAt, At32, At64;
    HandIsAlone(r, depth, slot);
    OneSlotMoves(r.log, Reply(slot, f));
    OthersUntouched(r, Rewritten(r, slot, b, f), slot, size);
  }
}
