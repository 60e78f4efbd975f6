/**
  Dispatching a request on the passthrough, as steps of the lookup-count protocol: each
  lookup a step of the request's job, each forget it carries a batch processed, and the
  job's end sent or lost as the reply says. A compound that loses an entry for want of room
  is two jobs, one whose lookups the reply carries and one whose lookups are lost.
 */
module Conversations {
  import opened Bytes
  import opened Wire
  import opened Filesystem
  import opened Requests
  import opened Replies
  import opened Dispatcher
  import opened Compounds
  import opened CompoundReplies
  import opened Inodes
  import opened Passthrough
  import opened Lookups
  import LC = LookupCounts

  // ---- A list of effects -------------------------------------------------

  function AppliedAll(t: Counts, es: seq<Effect>): (r: Counts)
    decreases |es|
  {
    if es == [] then t else AppliedAll(Applied(t, es[0]), es[1..])
  }

  /** The batches a list of effects processes, in order. */
  function Batches(es: seq<Effect>): (bs: seq<seq<(u64, u64)>>) {
    if es == [] then [] else (if es[0].Dropped? then [es[0].items] else []) + Batches(es[1..])
  }

  /** The inodes looked up by effects whose flag is `want`, in order. */
  function Found(es: seq<Effect>, told: seq<bool>, want: bool): (ns: seq<u64>)
    requires |told| == |es|
  {
    if es == [] then []
    else (if es[0].Looked? && told[0] == want then [es[0].ino] else []) + Found(es[1..], told[1..], want)
  }

  /** The steps: lookups go to job `j` if told, to `j` + 1 if not; forgets stand at `at`. */
  function Moves(es: seq<Effect>, told: seq<bool>, j: nat, at: nat): (run: seq<LC.Step>)
    requires |told| == |es|
    ensures |run| <= |es|
  {
    if es == [] then []
    else
      var rest := Moves(es[1..], told[1..], j, at);
      match es[0]
      case Looked(ino) => [LC.Lookup(if told[0] then j else j + 1, ino)] + rest
      case Dropped(_) => [LC.Process(at)] + rest
      case Still => rest
  }

  /** The protocol with two jobs `a` and `c` behind those of `others`, and these forgets. */
  function With(p: LC.State, t: Counts, others: seq<seq<u64>>, a: seq<u64>, c: seq<u64>,
                forgets: seq<seq<(u64, u64)>>, lookups: nat): (q: LC.State)
  {
    p.(table := t, working := others + [a, c], forgets := forgets, lookups := lookups)
  }

  lemma LookupNext(p: LC.State, t: Counts, others: seq<seq<u64>>, a: seq<u64>, c: seq<u64>,
                   forgets: seq<seq<(u64, u64)>>, n: nat, told: bool, ino: u64)
    ensures var q, step := With(p, t, others, a, c, forgets, n), LC.Lookup(if told then |others| else |others| + 1, ino);
            && LC.Enabled(q, step)
            && LC.Next(q, step) == With(p, Inserted(t, ino), others, if told then a + [ino] else a,
                                        if told then c else c + [ino], forgets, n + 1)
  {
    hide Inserted;
    assert (others + [a, c])[|others| := a + [ino]] == others + [a + [ino], c];
    assert (others + [a, c])[|others| + 1 := c + [ino]] == others + [a, c + [ino]];
  }

  lemma ProcessNext(p: LC.State, t: Counts, others: seq<seq<u64>>, a: seq<u64>, c: seq<u64>,
                    pre: seq<seq<(u64, u64)>>, batch: seq<(u64, u64)>, post: seq<seq<(u64, u64)>>, n: nat)
    ensures var q := With(p, t, others, a, c, pre + [batch] + post, n);
            && LC.Enabled(q, LC.Process(|pre|))
            && LC.Next(q, LC.Process(|pre|)) == With(p, ForgottenAll(t, batch), others, a, c, pre + post, n)
  {
    hide ForgottenAll;
    assert LC.Removed(pre + [batch] + post, |pre|) == pre + post;
  }

  /** The protocol can follow any list of effects whose forgets are on their way. */
  lemma {:induction false} MovesRun(p: LC.State, t: Counts, others: seq<seq<u64>>, a: seq<u64>, c: seq<u64>,
                                    pre: seq<seq<(u64, u64)>>, post: seq<seq<(u64, u64)>>, n: nat,
                                    es: seq<Effect>, told: seq<bool>)
    requires |told| == |es|
    ensures var q, run := With(p, t, others, a, c, pre + (Batches(es) + post), n), Moves(es, told, |others|, |pre|);
            && LC.Legal(q, run)
            && LC.Last(q, run) == With(p, AppliedAll(t, es), others, a + Found(es, told, true), c + Found(es, told, false),
                                       pre + post, n + |Found(es, told, true)| + |Found(es, told, false)|)
    decreases |es|, 1
  {
    hide With, LC.Next, Inserted, ForgottenAll, LC.Enabled;
    if es == [] {
      assert [] + post == post && a + [] == a && c + [] == c;
    } else {
      match es[0]
      case Looked(_) => LookedRun(p, t, others, a, c, pre, post, n, es, told);
      case Dropped(_) => DroppedRun(p, t, others, a, c, pre, post, n, es, told);
      case Still =>
        assert Batches(es) == Batches(es[1..]);
        MovesRun(p, t, others, a, c, pre, post, n, es[1..], told[1..]);
        NotFound(es, told);
    }
  }

  lemma {:induction false} LookedRun(p: LC.State, t: Counts, others: seq<seq<u64>>, a: seq<u64>, c: seq<u64>,
                                    pre: seq<seq<(u64, u64)>>, post: seq<seq<(u64, u64)>>, n: nat,
                                    es: seq<Effect>, told: seq<bool>)
    requires |told| == |es| && es != [] && es[0].Looked?
    ensures var q, run := With(p, t, others, a, c, pre + (Batches(es) + post), n), Moves(es, told, |others|, |pre|);
            && LC.Legal(q, run)
            && LC.Last(q, run) == With(p, AppliedAll(t, es), others, a + Found(es, told, true), c + Found(es, told, false),
                                       pre + post, n + |Found(es, told, true)| + |Found(es, told, false)|)
    decreases |es|, 0
  {
    hide With, LC.Next, Inserted, ForgottenAll, LC.Enabled, Found;
    var rest, flags, ino := es[1..], told[1..], es[0].ino;
    var step := LC.Lookup(if told[0] then |others| else |others| + 1, ino);
    LookupNext(p, t, others, a, c, pre + (Batches(es) + post), n, told[0], ino);
    assert Batches(es) == Batches(rest);
    MovesRun(p, Inserted(t, ino), others, if told[0] then a + [ino] else a, if told[0] then c else c + [ino],
             pre, post, n + 1, rest, flags);
    LC.RunCons(With(p, t, others, a, c, pre + (Batches(es) + post), n), step, Moves(rest, flags, |others|, |pre|));
    JustFound(es, told, a, c);
  }

  lemma {:induction false} DroppedRun(p: LC.State, t: Counts, others: seq<seq<u64>>, a: seq<u64>, c: seq<u64>,
                                    pre: seq<seq<(u64, u64)>>, post: seq<seq<(u64, u64)>>, n: nat,
                                    es: seq<Effect>, told: seq<bool>)
    requires |told| == |es| && es != [] && es[0].Dropped?
    ensures var q, run := With(p, t, others, a, c, pre + (Batches(es) + post), n), Moves(es, told, |others|, |pre|);
            && LC.Legal(q, run)
            && LC.Last(q, run) == With(p, AppliedAll(t, es), others, a + Found(es, told, true), c + Found(es, told, false),
                                       pre + post, n + |Found(es, told, true)| + |Found(es, told, false)|)
    decreases |es|, 0
  {
    hide With, LC.Next, Inserted, ForgottenAll, LC.Enabled, Found;
    var rest, flags, items := es[1..], told[1..], es[0].items;
    assert pre + (Batches(es) + post) == pre + [items] + (Batches(rest) + post);
    ProcessNext(p, t, others, a, c, pre, items, Batches(rest) + post, n);
    assert pre + (Batches(rest) + post) == pre + Batches(rest) + post;
    MovesRun(p, ForgottenAll(t, items), others, a, c, pre, post, n, rest, flags);
    LC.RunCons(With(p, t, others, a, c, pre + (Batches(es) + post), n), LC.Process(|pre|), Moves(rest, flags, |others|, |pre|));
    NotFound(es, told);
  }

  lemma JustFound(es: seq<Effect>, told: seq<bool>, a: seq<u64>, c: seq<u64>)
    requires |told| == |es| && es != [] && es[0].Looked?
    ensures var got, lost := Found(es[1..], told[1..], true), Found(es[1..], told[1..], false);
            && (if told[0] then a + [es[0].ino] else a) + got == a + Found(es, told, true)
            && (if told[0] then c else c + [es[0].ino]) + lost == c + Found(es, told, false)
            && |Found(es, told, true)| + |Found(es, told, false)| == 1 + |got| + |lost|
  {
    var got, lost, one := Found(es[1..], told[1..], true), Found(es[1..], told[1..], false), [es[0].ino as u64];
    assert Found(es, told, true) == (if told[0] then one else []) + got;
    assert Found(es, told, false) == (if told[0] then [] else one) + lost;
  }

  lemma NotFound(es: seq<Effect>, told: seq<bool>)
    requires |told| == |es| && es != [] && !es[0].Looked?
    ensures forall want :: Found(es, told, want) == Found(es[1..], told[1..], want)
  {
    forall want ensures Found(es, told, want) == Found(es[1..], told[1..], want) {
      assert [] + Found(es[1..], told[1..], want) == Found(es[1..], told[1..], want);
    }
  }

  // ---- A dispatch, from begin to end ---------------------------------------

  lemma BeginBoth(p: LC.State)
    ensures LC.Legal(p, [LC.Begin, LC.Begin])
    ensures LC.Last(p, [LC.Begin, LC.Begin]) == With(p, p.table, p.working, [], [], p.forgets, p.lookups)
  {
    var one := LC.Next(p, LC.Begin);
    LC.RunOne(one, LC.Begin);
    LC.RunCons(p, LC.Begin, [LC.Begin]);
    assert [LC.Begin] + [LC.Begin] == [LC.Begin, LC.Begin];
    assert p.working + [[]] + [[]] == p.working + [[], []];
  }

  /** The second job is lost; the first is sent or lost. */
  lemma FinishBoth(p: LC.State, t: Counts, others: seq<seq<u64>>, a: seq<u64>, c: seq<u64>,
                   forgets: seq<seq<(u64, u64)>>, n: nat, sent: bool)
    ensures var q, run := With(p, t, others, a, c, forgets, n), [LC.Finish(|others| + 1, false), LC.Finish(|others|, sent)];
            && LC.Legal(q, run)
            && var r := LC.Last(q, run);
               && r.table == t && r.working == others && r.forgets == forgets && r.held == p.held && r.lookups == n
               && r.replies == p.replies + (if sent then [a] else [])
               && forall k: u64 :: r.surplus(k) == p.surplus(k) + LC.Times(c, k) + if sent then 0 else LC.Times(a, k)
  {
    var q, one, two := With(p, t, others, a, c, forgets, n), LC.Finish(|others| + 1, false), LC.Finish(|others|, sent);
    var mid := LC.Next(q, one);
    assert mid.working == others + [a];
    assert LC.Removed(mid.working, |others|) == others;
    LC.RunOne(mid, two);
    LC.RunCons(q, one, [two]);
    assert [one] + [two] == [one, two];
    if !sent {
      assert p.replies + [] == p.replies;
    }
  }

  function Skips(at: nat, n: nat): (run: seq<LC.Step>)
    ensures |run| == n
  {
    if n == 0 then [] else [LC.Skip(at)] + Skips(at, n - 1)
  }

  /** Forgets behind the point where a run stopped are lost. */
  lemma {:induction false} SkipsRun(p: LC.State, pre: seq<seq<(u64, u64)>>, unrun: seq<seq<(u64, u64)>>)
    requires p.forgets == pre + unrun
    ensures var run := Skips(|pre|, |unrun|);
            && LC.Legal(p, run)
            && var r := LC.Last(p, run);
               && r == p.(forgets := pre, surplus := r.surplus)
               && forall k: u64 :: r.surplus(k) == p.surplus(k) + LC.Subtracting(unrun, k)
    decreases |unrun|
  {
    if unrun == [] {
      assert p.forgets == pre;
    } else {
      var next := LC.Next(p, LC.Skip(|pre|));
      assert p.forgets[|pre|] == unrun[0];
      assert next.forgets == pre + unrun[1..];
      SkipsRun(next, pre, unrun[1..]);
      LC.RunCons(p, LC.Skip(|pre|), Skips(|pre|, |unrun| - 1));
    }
  }

  /** Where a dispatch leaves the protocol: the table as the daemon left it, one more reply
      under way if it was sent, and everything else it counted or skipped among the losses. */
  ghost predicate Followed(p: LC.State, q: LC.State, t: Counts, reply: seq<seq<u64>>, forgets: seq<seq<(u64, u64)>>) {
    && q.table == t && q.working == p.working && q.forgets == forgets && q.held == p.held
    && q.replies == p.replies + reply
  }

  lemma EffectsAreRun(p: LC.State, es: seq<Effect>, told: seq<bool>, sent: bool,
                      pre: seq<seq<(u64, u64)>>, unrun: seq<seq<(u64, u64)>>) returns (run: seq<LC.Step>)
    requires |told| == |es| && p.forgets == pre + (Batches(es) + unrun)
    ensures LC.Legal(p, run)
    ensures var q, carried, lost := LC.Last(p, run), Found(es, told, true), Found(es, told, false);
            && Followed(p, q, AppliedAll(p.table, es), if sent then [carried] else [], pre)
            && forall k: u64 :: q.surplus(k) == p.surplus(k) + LC.Times(lost, k)
                                + (if sent then 0 else LC.Times(carried, k)) + LC.Subtracting(unrun, k)
  {
    hide With, Moves, Skips, LC.Times, LC.Subtracting, Batches, AppliedAll, Found;
    var carried, lost := Found(es, told, true), Found(es, told, false);
    var begin, moves := [LC.Begin, LC.Begin], Moves(es, told, |p.working|, |pre|);
    var finish := [LC.Finish(|p.working| + 1, false), LC.Finish(|p.working|, sent)];
    BeginBoth(p);
    MovesRun(p, p.table, p.working, [], [], pre, unrun, p.lookups, es, told);
    LC.RunConcat(p, begin, moves);
    assert [] + carried == carried && [] + lost == lost;
    FinishBoth(p, AppliedAll(p.table, es), p.working, carried, lost, pre + unrun, p.lookups + |carried| + |lost|, sent);
    LC.RunConcat(p, begin + moves, finish);
    SkipsRun(LC.Last(p, begin + moves + finish), pre, unrun);
    LC.RunConcat(p, begin + moves + finish, Skips(|pre|, |unrun|));
    run := begin + moves + finish + Skips(|pre|, |unrun|);
  }

  // ---- Requests on the passthrough -----------------------------------------

  /** A plain request is a fragment of the protocol. Its lookup is told if the reply tells of
      it, and lost otherwise; `unrun` are forgets it carried that never reached the daemon. */
  lemma RequestIsRun<B>(b: Backing<B>, s: State<B>, h: InHeader, args: seq<byte>, cap: nat, p: LC.State,
                        pre: seq<seq<(u64, u64)>>, unrun: seq<seq<(u64, u64)>>) returns (run: seq<LC.Step>, carried: seq<u64>)
    requires InBounds(h, args) && h.opcode != COMPOUND && p.table == s.table
    requires p.forgets == pre + (Batches([EffectOf(b, s, h, args, cap)]) + unrun)
    ensures LC.Legal(p, run)
    ensures var (t, reply) := Request(Daemon(b), s, h, args, cap);
            && Followed(p, LC.Last(p, run), t.table, if reply.Replied? then [carried] else [], pre)
            && forall k: u64 :: k != 0 ==>
                 var told := if Tells(h.opcode, reply, k) then 1 else 0;
                 && told == (if reply.Replied? then LC.Times(carried, k) else 0)
                 && LC.Last(p, run).surplus(k)
                    == p.surplus(k) + Once(EffectOf(b, s, h, args, cap), k) - told + LC.Subtracting(unrun, k)
  {
    hide Dispatch, EffectOf, Produced, LC.Subtracting, LC.Last, LC.Legal, Batches;
    var e, reply := EffectOf(b, s, h, args, cap), Request(Daemon(b), s, h, args, cap).1;
    var es, told := [e], [ENTRYX_OUT <= cap];
    RequestEffect(b, s, h, args, cap);
    run := EffectsAreRun(p, es, told, reply.Replied?, pre, unrun);
    carried := Found(es, told, true);
    OneEffect(p.table, e, ENTRYX_OUT <= cap);
    forall k: u64 | k != 0
      ensures Tells(h.opcode, reply, k) <==> Once(e, k) == 1 && ENTRYX_OUT <= cap
      ensures Tells(h.opcode, reply, k) ==> reply.Replied?
    {
      TellsEffect(b, s, h, args, cap, k);
      ToldIsReplied(h.opcode, reply, k);
    }
    if e.Looked? && ENTRYX_OUT <= cap {
      assert Tells(h.opcode, reply, e.ino);
    }
  }

  lemma ToldIsReplied(op: u32, reply: Reply, k: u64)
    requires k != 0
    ensures Tells(op, reply, k) ==> reply.Replied?
  {
  }

  lemma OneEffect(t: Counts, e: Effect, flag: bool)
    ensures AppliedAll(t, [e]) == Applied(t, e)
    ensures forall want :: Found([e], [flag], want) == if e.Looked? && flag == want then [e.ino] else []
  {
    assert [e][1..] == [] && [flag][1..] == [];
    forall want ensures Found([e], [flag], want) == if e.Looked? && flag == want then [e.ino] else [] {
      assert Found([], [], want) == [];
    }
  }

  // ---- Compounds on the passthrough ----------------------------------------

  function EffectsOf<B>(b: Backing<B>, s: State<B>, rs: seq<SubReq>, n: nat, room: nat): (es: seq<Effect>)
    requires AllInBounds(rs) && n <= |rs|
    ensures |es| == n
  {
    if n == 0 then [] else EffectsOf(b, s, rs, n - 1, room) + [EffectAt(b, s, rs, n - 1, room)]
  }

  /** Which subrequests have room to report an entry. */
  function Roomy<B>(b: Backing<B>, s: State<B>, rs: seq<SubReq>, n: nat, room: nat): (flags: seq<bool>)
    requires AllInBounds(rs) && n <= |rs|
    ensures |flags| == n
  {
    if n == 0 then []
    else Roomy(b, s, rs, n - 1, room) + [RoomFor(room, Before(Daemon(b), s, rs, n - 1, room).frames) >= ENTRYX_OUT]
  }

  lemma {:induction false} AppliedSnoc(t: Counts, es: seq<Effect>, e: Effect)
    ensures AppliedAll(t, es + [e]) == Applied(AppliedAll(t, es), e)
    decreases |es|
  {
    hide Applied;
    if es == [] {
      assert (es + [e])[1..] == [];
    } else {
      assert (es + [e])[1..] == es[1..] + [e];
      AppliedSnoc(Applied(t, es[0]), es[1..], e);
    }
  }

  lemma {:induction false} FoundSnoc(es: seq<Effect>, told: seq<bool>, e: Effect, flag: bool, want: bool)
    requires |told| == |es|
    ensures Found(es + [e], told + [flag], want) == Found(es, told, want) + if e.Looked? && flag == want then [e.ino] else []
    decreases |es|
  {
    if es == [] {
      assert (es + [e])[1..] == [] && (told + [flag])[1..] == [];
    } else {
      assert (es + [e])[1..] == es[1..] + [e] && (told + [flag])[1..] == told[1..] + [flag];
      FoundSnoc(es[1..], told[1..], e, flag, want);
    }
  }

  lemma {:induction false} TableFollows<B>(b: Backing<B>, s: State<B>, rs: seq<SubReq>, n: nat, room: nat)
    requires AllInBounds(rs) && n <= |rs|
    ensures Before(Daemon(b), s, rs, n, room).state.table == AppliedAll(s.table, EffectsOf(b, s, rs, n, room))
    decreases n
  {
    hide Before, EffectAt, Applied, AppliedAll;
    if n == 0 {
      BeforeNothing(Daemon(b), s, rs, room);
      AppliedNone(s.table);
    } else {
      TableFollows(b, s, rs, n - 1, room);
      EffectStep(b, s, rs, n - 1, room);
      AppliedSnoc(s.table, EffectsOf(b, s, rs, n - 1, room), EffectAt(b, s, rs, n - 1, room));
    }
  }

  lemma AppliedNone(t: Counts)
    ensures AppliedAll(t, []) == t
  {
  }

  lemma TimesSnoc(ns: seq<u64>, e: Effect, keep: bool, k: u64)
    ensures LC.Times(ns + (if e.Looked? && keep then [e.ino] else []), k)
         == LC.Times(ns, k) + if keep then Once(e, k) else 0
  {
    if !(e.Looked? && keep) {
      assert ns + [] == ns;
    }
  }

  /** The told job's lookups are those the frames report; the two jobs' are all there were. */
  lemma {:induction false} JobsCount<B>(b: Backing<B>, s: State<B>, rs: seq<SubReq>, n: nat, room: nat, k: u64)
    requires AllInBounds(rs) && n <= |rs| && k != 0
    ensures var es, flags := EffectsOf(b, s, rs, n, room), Roomy(b, s, rs, n, room);
            && LC.Times(Found(es, flags, true), k) == Positives(rs, Before(Daemon(b), s, rs, n, room).frames, k)
            && LC.Times(Found(es, flags, true), k) + LC.Times(Found(es, flags, false), k) == LookedUp(b, s, rs, n, room, k)
    decreases n
  {
    hide Before, EffectAt, Positives, LC.Times, Found, FramesSize, Once;
    if n == 0 {
      BeforeNothing(Daemon(b), s, rs, room);
      NoPositives(rs, k);
      NoneFound(k);
    } else {
      JobsCount(b, s, rs, n - 1, room, k);
      ToldStep(b, s, rs, n - 1, room, k);
      var es, flags, e := EffectsOf(b, s, rs, n - 1, room), Roomy(b, s, rs, n - 1, room), EffectAt(b, s, rs, n - 1, room);
      var flag := RoomFor(room, Before(Daemon(b), s, rs, n - 1, room).frames) >= ENTRYX_OUT;
      FoundSnoc(es, flags, e, flag, true);
      FoundSnoc(es, flags, e, flag, false);
      TimesSnoc(Found(es, flags, true), e, flag, k);
      TimesSnoc(Found(es, flags, false), e, !flag, k);
      OnceOrNot(e, k);
    }
  }

  lemma OnceOrNot(e: Effect, k: u64)
    ensures Once(e, k) <= 1
  {
  }

  lemma NoneFound(k: u64)
    ensures forall want :: Found([], [], want) == []
    ensures LC.Times([], k) == 0
  {
  }

  /** A compound, accepted or refused, is a fragment of the protocol. An accepted one sends one
      reply that carries exactly the lookups its bytes tell of; what it counted beyond those,
      and the forgets it never ran, are the losses. */
  lemma CompoundIsRun<B>(b: Backing<B>, s: State<B>, body: seq<byte>, cap: nat, p: LC.State,
                         pre: seq<seq<(u64, u64)>>, unrun: seq<seq<(u64, u64)>>) returns (run: seq<LC.Step>, carried: seq<u64>)
    requires SubsInBounds(body) && cap < TWO32 && p.table == s.table && AllInBounds(Running(body, cap))
    requires p.forgets == pre + (Batches(EffectsOf(b, s, Running(body, cap), |Running(body, cap)|, RoomOf(cap))) + unrun)
    ensures LC.Legal(p, run)
    ensures var (t, reply) := Compound(Daemon(b), s, body, cap);
            && Followed(p, LC.Last(p, run), t.table, if reply.Replied? then [carried] else [], pre)
            && forall k: u64 :: k != 0 ==> Settled(b, s, body, cap, p, LC.Last(p, run), carried, unrun, k)
  {
    hide Compound, Running, EffectsOf, Roomy, Found, AppliedAll, Batches, LC.Last, LC.Legal, LC.Times, LC.Subtracting, Settled;
    var rs, room, reply := Running(body, cap), RoomOf(cap), Compound(Daemon(b), s, body, cap).1;
    var es, flags := EffectsOf(b, s, rs, |rs|, room), Roomy(b, s, rs, |rs|, room);
    CompoundRuns(b, s, body, cap);
    TableFollows(b, s, rs, |rs|, room);
    run := EffectsAreRun(p, es, flags, reply.Replied?, pre, unrun);
    carried := Found(es, flags, true);
    forall k: u64 | k != 0 ensures Settled(b, s, body, cap, p, LC.Last(p, run), carried, unrun, k) {
      SettledFor(b, s, body, cap, p, LC.Last(p, run), unrun, k);
    }
  }

  /** How a compound leaves the books for `k`. */
  ghost predicate Settled<B>(b: Backing<B>, s: State<B>, body: seq<byte>, cap: nat, p: LC.State, q: LC.State,
                             carried: seq<u64>, unrun: seq<seq<(u64, u64)>>, k: u64)
    requires SubsInBounds(body) && AllInBounds(Running(body, cap))
  {
    var rs, reply := Running(body, cap), Compound(Daemon(b), s, body, cap).1;
    && Told(rs, reply, k) == (if reply.Replied? then LC.Times(carried, k) else 0)
    && q.surplus(k) == p.surplus(k) + LookedUp(b, s, rs, |rs|, RoomOf(cap), k) - Told(rs, reply, k) + LC.Subtracting(unrun, k)
  }

  lemma SettledFor<B>(b: Backing<B>, s: State<B>, body: seq<byte>, cap: nat, p: LC.State, q: LC.State,
                      unrun: seq<seq<(u64, u64)>>, k: u64)
    requires SubsInBounds(body) && cap < TWO32 && AllInBounds(Running(body, cap)) && k != 0
    requires var rs, room, reply := Running(body, cap), RoomOf(cap), Compound(Daemon(b), s, body, cap).1;
             var es, flags := EffectsOf(b, s, rs, |rs|, room), Roomy(b, s, rs, |rs|, room);
             q.surplus(k) == p.surplus(k) + LC.Times(Found(es, flags, false), k)
                             + (if reply.Replied? then 0 else LC.Times(Found(es, flags, true), k)) + LC.Subtracting(unrun, k)
    ensures var rs, room := Running(body, cap), RoomOf(cap);
            Settled(b, s, body, cap, p, q, Found(EffectsOf(b, s, rs, |rs|, room), Roomy(b, s, rs, |rs|, room), true), unrun, k)
  {
    hide Compound, Running, EffectsOf, Roomy, Found, LC.Times, LC.Subtracting, Told, LookedUp, Before, Positives;
    var rs, reply := Running(body, cap), Compound(Daemon(b), s, body, cap).1;
    JobsCount(b, s, rs, |rs|, RoomOf(cap), k);
    if reply.Replied? {
      AcceptedTells(b, s, body, cap, k);
    } else {
      RefusedTells(rs, reply, k);
    }
  }
}
