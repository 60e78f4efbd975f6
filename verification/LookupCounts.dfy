/**
  The lookup count as a protocol between the kernel and a multi-queue daemon.
  Requests in progress interleave, replies and forgets overtake each other, a
  reply may be lost after its lookups were counted, and a truncated batch of
  forgets is skipped. In every run the daemon's count is exactly what the kernel
  holds plus what is still under way plus what was lost.
 */
module LookupCounts {
  import opened Bytes
  import opened Inodes

  /**
    table:   the daemon's inode table
    working: nodeids looked up so far by each request in progress
    replies: nodeids carried by each reply not yet taken in by the kernel
    forgets: batches sent by the kernel, not yet processed
    held:    lookups the kernel holds
    surplus: lookups counted whose reply was lost, and forgets that were skipped
    lookups: lookups made so far
   */
  datatype State = State(table: Counts, working: seq<seq<u64>>, replies: seq<seq<u64>>,
                         forgets: seq<seq<(u64, u64)>>, held: u64 -> nat, surplus: u64 -> nat, lookups: nat)

  datatype Step =
    | Begin
    | Lookup(job: nat, ino: u64)
    | Finish(job: nat, sent: bool)
    | Deliver(reply: nat)
    | Send(batch: seq<(u64, u64)>)
    | Process(forget: nat)
    | Skip(forget: nat)

  const INITIAL: State := State(map[ROOT := 1], [], [], [], k => 0, k => 0, 0)

  function Removed<T>(s: seq<T>, i: nat): (r: seq<T>)
    requires i < |s|
    ensures |r| == |s| - 1
  {
    s[..i] + s[i + 1..]
  }

  /** A kernel never forgets more than it holds; everything else may happen at any time. */
  ghost predicate Enabled(s: State, a: Step) {
    match a
    case Begin => true
    case Lookup(j, _) => j < |s.working|
    case Finish(j, _) => j < |s.working|
    case Deliver(i) => i < |s.replies|
    case Send(batch) => forall k: u64 :: k != ROOT ==> Total(batch, k) <= s.held(k)
    case Process(i) => i < |s.forgets|
    case Skip(i) => i < |s.forgets|
  }

  /** Occurrences of a nodeid in a message. */
  function Times(ns: seq<u64>, k: u64): (n: nat) {
    multiset(ns)[k]
  }

  ghost function Next(s: State, a: Step): (t: State)
    requires Enabled(s, a)
  {
    match a
    case Begin => s.(working := s.working + [[]])
    case Lookup(j, ino) =>
      s.(table := Inserted(s.table, ino), working := s.working[j := s.working[j] + [ino]], lookups := s.lookups + 1)
    case Finish(j, sent) =>
      var ns := s.working[j];
      if sent then s.(working := Removed(s.working, j), replies := s.replies + [ns])
      else s.(working := Removed(s.working, j), surplus := k => s.surplus(k) + Times(ns, k))
    case Deliver(i) =>
      var ns := s.replies[i];
      s.(replies := Removed(s.replies, i), held := k => s.held(k) + Times(ns, k))
    case Send(batch) =>
      s.(forgets := s.forgets + [batch], held := k => Monus(s.held(k), Total(batch, k)))
    case Process(i) =>
      s.(table := ForgottenAll(s.table, s.forgets[i]), forgets := Removed(s.forgets, i))
    case Skip(i) =>
      var batch := s.forgets[i];
      s.(forgets := Removed(s.forgets, i), surplus := k => s.surplus(k) + Total(batch, k))
  }

  // ---- Sums over what is under way ---------------------------------------

  function Carried(msgs: seq<seq<u64>>, k: u64): (n: nat) {
    if msgs == [] then 0 else Times(msgs[0], k) + Carried(msgs[1..], k)
  }

  function Subtracting(batches: seq<seq<(u64, u64)>>, k: u64): (n: nat) {
    if batches == [] then 0 else Total(batches[0], k) + Subtracting(batches[1..], k)
  }

  lemma {:induction false} CarriedConcat(a: seq<seq<u64>>, b: seq<seq<u64>>, k: u64)
    ensures Carried(a + b, k) == Carried(a, k) + Carried(b, k)
  {
    if a == [] {
      assert a + b == b;
    } else {
      assert (a + b)[1..] == a[1..] + b;
      CarriedConcat(a[1..], b, k);
    }
  }

  lemma {:induction false} SubtractingConcat(a: seq<seq<(u64, u64)>>, b: seq<seq<(u64, u64)>>, k: u64)
    ensures Subtracting(a + b, k) == Subtracting(a, k) + Subtracting(b, k)
  {
    if a == [] {
      assert a + b == b;
    } else {
      assert (a + b)[1..] == a[1..] + b;
      SubtractingConcat(a[1..], b, k);
    }
  }

  lemma CarriedSplit(s: seq<seq<u64>>, i: nat, m: seq<u64>, k: u64)
    requires i < |s|
    ensures Carried(s, k) == Carried(Removed(s, i), k) + Times(s[i], k)
    ensures Carried(s[i := m], k) == Carried(Removed(s, i), k) + Times(m, k)
  {
    CarriedConcat(s[..i], s[i + 1..], k);
    CarriedConcat(s[..i], [s[i]] + s[i + 1..], k);
    CarriedConcat(s[..i], [m] + s[i + 1..], k);
    assert s == s[..i] + ([s[i]] + s[i + 1..]) && s[i := m] == s[..i] + ([m] + s[i + 1..]);
    assert ([s[i]] + s[i + 1..])[1..] == s[i + 1..] && ([m] + s[i + 1..])[1..] == s[i + 1..];
  }

  lemma CarriedSnoc(s: seq<seq<u64>>, m: seq<u64>, k: u64)
    ensures Carried(s + [m], k) == Carried(s, k) + Times(m, k)
  {
    CarriedConcat(s, [m], k);
  }

  lemma SubtractingSplit(s: seq<seq<(u64, u64)>>, i: nat, k: u64)
    requires i < |s|
    ensures Subtracting(s, k) == Subtracting(Removed(s, i), k) + Total(s[i], k)
  {
    SubtractingConcat(s[..i], s[i + 1..], k);
    SubtractingConcat(s[..i], [s[i]] + s[i + 1..], k);
    assert s == s[..i] + ([s[i]] + s[i + 1..]);
    assert ([s[i]] + s[i + 1..])[1..] == s[i + 1..];
  }

  lemma SubtractingSnoc(s: seq<seq<(u64, u64)>>, b: seq<(u64, u64)>, k: u64)
    ensures Subtracting(s + [b], k) == Subtracting(s, k) + Total(b, k)
  {
    SubtractingConcat(s, [b], k);
  }

  // ---- The invariant -----------------------------------------------------

  /** Everything that accounts for a nodeid's count. */
  ghost function Owed(s: State, k: u64): (n: nat) {
    s.held(k) + Carried(s.working, k) + Carried(s.replies, k) + Subtracting(s.forgets, k) + s.surplus(k)
  }

  ghost predicate Balanced(s: State, k: u64) {
    && (k != ROOT ==> CountOf(s.table, k) == Owed(s, k))
    && CountOf(s.table, k) <= s.lookups + 1
  }

  ghost predicate Inv(s: State) {
    Sound(s.table) && forall k: u64 :: Balanced(s, k)
  }

  lemma LookupKeeps(s: State, j: nat, ino: u64, k: u64)
    requires Inv(s) && j < |s.working| && s.lookups + 2 < TWO64
    ensures var t := Next(s, Lookup(j, ino)); Sound(t.table) && Balanced(t, k)
  {
    assert Balanced(s, k) && Balanced(s, ino);
    InsertAdds(s.table, ino, k);
    CarriedSplit(s.working, j, s.working[j] + [ino], k);
  }

  lemma FinishKeeps(s: State, j: nat, sent: bool, k: u64)
    requires Inv(s) && j < |s.working|
    ensures Balanced(Next(s, Finish(j, sent)), k)
  {
    assert Balanced(s, k);
    CarriedSplit(s.working, j, [], k);
    CarriedSnoc(s.replies, s.working[j], k);
  }

  lemma DeliverKeeps(s: State, i: nat, k: u64)
    requires Inv(s) && i < |s.replies|
    ensures Balanced(Next(s, Deliver(i)), k)
  {
    assert Balanced(s, k);
    CarriedSplit(s.replies, i, [], k);
  }

  lemma SendKeeps(s: State, batch: seq<(u64, u64)>, k: u64)
    requires Inv(s) && Enabled(s, Send(batch))
    ensures Balanced(Next(s, Send(batch)), k)
  {
    assert Balanced(s, k);
    SubtractingSnoc(s.forgets, batch, k);
  }

  /** A batch under way never saturates: the table still counts all it subtracts. */
  lemma ProcessKeeps(s: State, i: nat, k: u64)
    requires Inv(s) && i < |s.forgets|
    ensures k != ROOT ==> Total(s.forgets[i], k) <= CountOf(s.table, k)
    ensures var t := Next(s, Process(i)); Sound(t.table) && Balanced(t, k)
  {
    hide ForgottenAll, Total, Carried, Subtracting;
    assert Balanced(s, k);
    SubtractingSplit(s.forgets, i, k);
    ForgetSubtracts(s.table, s.forgets[i], k);
  }

  lemma SkipKeeps(s: State, i: nat, k: u64)
    requires Inv(s) && i < |s.forgets|
    ensures Balanced(Next(s, Skip(i)), k)
  {
    assert Balanced(s, k);
    SubtractingSplit(s.forgets, i, k);
  }

  /** Every step keeps the books balanced, short of 2^64 lookups. */
  lemma StepKeeps(s: State, a: Step)
    requires Inv(s) && Enabled(s, a) && s.lookups + 2 < TWO64
    ensures Inv(Next(s, a))
  {
    var t := Next(s, a);
    forall k: u64
      ensures Sound(t.table) && Balanced(t, k)
    {
      match a
      case Begin => CarriedSnoc(s.working, [], k); assert Balanced(s, k);
      case Lookup(j, ino) => LookupKeeps(s, j, ino, k);
      case Finish(j, sent) => FinishKeeps(s, j, sent, k);
      case Deliver(i) => DeliverKeeps(s, i, k);
      case Send(batch) => SendKeeps(s, batch, k);
      case Process(i) => ProcessKeeps(s, i, k);
      case Skip(i) => SkipKeeps(s, i, k);
    }
    assert Balanced(t, ROOT);
  }

  // ---- Runs --------------------------------------------------------------

  ghost predicate Legal(s: State, run: seq<Step>)
    decreases |run|
  {
    run == [] || (Enabled(s, run[0]) && Legal(Next(s, run[0]), run[1..]))
  }

  ghost function Last(s: State, run: seq<Step>): (t: State)
    requires Legal(s, run)
    decreases |run|
  {
    if run == [] then s else Last(Next(s, run[0]), run[1..])
  }

  lemma {:induction false} RunKeeps(s: State, run: seq<Step>)
    requires Inv(s) && Legal(s, run) && s.lookups + |run| + 1 < TWO64
    ensures Inv(Last(s, run))
    decreases |run|
  {
    if run != [] {
      StepKeeps(s, run[0]);
      RunKeeps(Next(s, run[0]), run[1..]);
    }
  }

  /** In every run, each nodeid's count is the kernel's lookups plus those on their way
      to it plus the forgets on their way back plus the losses; and whatever the kernel
      holds, or will yet hold or forget, is in the table. */
  lemma LookupConservation(run: seq<Step>, k: u64)
    requires Legal(INITIAL, run) && |run| + 1 < TWO64 && k != ROOT
    ensures var s := Last(INITIAL, run);
            && CountOf(s.table, k) == s.held(k) + Carried(s.working, k) + Carried(s.replies, k)
                                      + Subtracting(s.forgets, k) + s.surplus(k)
            && (s.held(k) > 0 || Carried(s.replies, k) > 0 || Subtracting(s.forgets, k) > 0 ==> k in s.table)
  {
    InitialInv();
    RunKeeps(INITIAL, run);
    assert Balanced(Last(INITIAL, run), k);
  }

  lemma InitialInv()
    ensures Inv(INITIAL)
  {
    forall k: u64
      ensures Balanced(INITIAL, k)
    {
    }
  }

  /** The root is never dropped. */
  lemma RootStays(run: seq<Step>)
    requires Legal(INITIAL, run) && |run| + 1 < TWO64
    ensures CountOf(Last(INITIAL, run).table, ROOT) >= 1
  {
    InitialInv();
    RunKeeps(INITIAL, run);
  }

  /** A step that loses something. */
  predicate Loses(a: Step) {
    a.Skip? || (a.Finish? && !a.sent)
  }

  lemma {:induction false} SurplusFromLosses(s: State, run: seq<Step>, k: u64)
    requires Legal(s, run)
    ensures Last(s, run).surplus(k) >= s.surplus(k)
    ensures (forall i :: 0 <= i < |run| ==> !Loses(run[i])) ==> Last(s, run).surplus(k) == s.surplus(k)
    decreases |run|
  {
    if run != [] {
      SurplusFromLosses(Next(s, run[0]), run[1..], k);
      assert forall i :: 0 <= i < |run| - 1 ==> run[1..][i] == run[i + 1];
    }
  }

  /** Without losses the count is exact; with losses it only errs upward. */
  lemma ExactWithoutLosses(run: seq<Step>, k: u64)
    requires Legal(INITIAL, run) && |run| + 1 < TWO64 && k != ROOT
    ensures var s := Last(INITIAL, run);
            var honest := s.held(k) + Carried(s.working, k) + Carried(s.replies, k) + Subtracting(s.forgets, k);
            && CountOf(s.table, k) >= honest
            && (CountOf(s.table, k) == honest <==> s.surplus(k) == 0)
            && ((forall i :: 0 <= i < |run| ==> !Loses(run[i])) ==> CountOf(s.table, k) == honest)
  {
    LookupConservation(run, k);
    SurplusFromLosses(INITIAL, run, k);
  }

  lemma {:induction false} RunConcat(s: State, a: seq<Step>, c: seq<Step>)
    requires Legal(s, a) && Legal(Last(s, a), c)
    ensures Legal(s, a + c) && Last(s, a + c) == Last(Last(s, a), c)
    decreases |a|
  {
    hide Next, Enabled;
    if a == [] {
      assert a + c == c;
    } else {
      assert (a + c)[1..] == a[1..] + c && (a + c)[0] == a[0];
      RunConcat(Next(s, a[0]), a[1..], c);
    }
  }

  lemma RunCons(s: State, a: Step, rest: seq<Step>)
    requires Enabled(s, a) && Legal(Next(s, a), rest)
    ensures Legal(s, [a] + rest) && Last(s, [a] + rest) == Last(Next(s, a), rest)
  {
    hide Next, Enabled;
    assert ([a] + rest)[1..] == rest;
  }

  lemma RunOne(s: State, a: Step)
    requires Enabled(s, a)
    ensures Legal(s, [a]) && Last(s, [a]) == Next(s, a)
  {
    hide Next, Enabled;
    assert Legal(Next(s, a), []) && [a] + [] == [a];
    RunCons(s, a, []);
  }

  /** The kernel holds one lookup of `ino`, and nothing is under way. */
  ghost predicate HoldsOne(s: State, ino: u64) {
    && s.table == map[ROOT := 1, ino := 1] && s.held(ino) == 1 && (forall k: u64 :: k != ino ==> s.held(k) == 0)
    && s.working == [] && s.replies == [] && s.forgets == []
  }

  lemma LookupMade(ino: u64)
    requires ino != ROOT
    ensures var a := Next(INITIAL, Begin);
            && Enabled(a, Lookup(0, ino))
            && Next(a, Lookup(0, ino)) == INITIAL.(table := map[ROOT := 1, ino := 1], working := [[ino]], lookups := 1)
  {
    var a := Next(INITIAL, Begin);
    assert a.working == [[]] && a.working[0] + [ino] == [ino];
  }

  lemma LookupDelivered(b: State, ino: u64)
    requires b == INITIAL.(table := map[ROOT := 1, ino := 1], working := [[ino]], lookups := 1)
    ensures Enabled(b, Finish(0, true)) && Enabled(Next(b, Finish(0, true)), Deliver(0))
    ensures HoldsOne(Next(Next(b, Finish(0, true)), Deliver(0)), ino)
  {
    var c := Next(b, Finish(0, true));
    assert c.replies == [[ino]] && c.working == [];
    var d := Next(c, Deliver(0));
    forall k: u64 ensures d.held(k) == if k == ino then 1 else 0 {
      assert d.held(k) == c.held(k) + Times([ino], k);
    }
  }

  /** A lookup can be made, answered and delivered: the kernel then holds it. */
  lemma LookupArrives(ino: u64)
    requires ino != ROOT
    ensures var run := [Begin, Lookup(0, ino)] + [Finish(0, true), Deliver(0)];
            Legal(INITIAL, run) && HoldsOne(Last(INITIAL, run), ino)
  {
    hide Next, HoldsOne, Legal, Last;
    var a := Next(INITIAL, Begin);
    LookupMade(ino);
    var b := Next(a, Lookup(0, ino));
    LookupDelivered(b, ino);
    RunOne(a, Lookup(0, ino));
    RunCons(INITIAL, Begin, [Lookup(0, ino)]);
    RunOne(Next(b, Finish(0, true)), Deliver(0));
    RunCons(b, Finish(0, true), [Deliver(0)]);
    assert [Begin] + [Lookup(0, ino)] == [Begin, Lookup(0, ino)];
    assert [Finish(0, true)] + [Deliver(0)] == [Finish(0, true), Deliver(0)];
    RunConcat(INITIAL, [Begin, Lookup(0, ino)], [Finish(0, true), Deliver(0)]);
  }

  /** A lookup the kernel holds can be forgotten: the daemon then drops the inode. */
  lemma ForgetArrives(s: State, ino: u64)
    requires HoldsOne(s, ino) && ino != ROOT
    ensures var run := [Send([(ino, 1)])] + [Process(0)];
            Legal(s, run) && Last(s, run).held(ino) == 0 && Last(s, run).table == map[ROOT := 1]
  {
    var batch: seq<(u64, u64)> := [(ino, 1)];
    assert batch[1..] == [];
    assert forall k: u64 :: Total(batch, k) == if k == ino then 1 else 0;
    var e := Next(s, Send(batch));
    assert e.forgets == [batch];
    assert ForgottenAll(s.table, batch) == Forgotten(s.table, ino, 1) == map[ROOT := 1];
    RunOne(e, Process(0));
    RunCons(s, Send(batch), [Process(0)]);
  }

  /** Nothing is held and nothing is under way. */
  ghost predicate Quiet(s: State) {
    s.working == [] && s.replies == [] && s.forgets == [] && forall k: u64 :: k != ROOT ==> s.held(k) == 0
  }

  /** When all is quiet, the table keeps the root and the losses, and nothing else. */
  lemma QuietTable(run: seq<Step>)
    requires Legal(INITIAL, run) && |run| + 1 < TWO64 && Quiet(Last(INITIAL, run))
    ensures var s := Last(INITIAL, run);
            forall k: u64 :: k in s.table <==> k == ROOT || s.surplus(k) > 0
    ensures (forall i :: 0 <= i < |run| ==> !Loses(run[i])) ==> Last(INITIAL, run).table.Keys == {ROOT}
  {
    var s := Last(INITIAL, run);
    InitialInv();
    RunKeeps(INITIAL, run);
    forall k: u64
      ensures k in s.table <==> k == ROOT || s.surplus(k) > 0
      ensures (forall i :: 0 <= i < |run| ==> !Loses(run[i])) ==> s.surplus(k) == 0
    {
      assert Balanced(s, k);
      SurplusFromLosses(INITIAL, run, k);
    }
  }
}
