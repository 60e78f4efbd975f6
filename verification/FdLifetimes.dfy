/**
  Who owns an O_PATH descriptor. An inode is shared by reference count between the
  table and the callbacks that looked it up; a freshly opened child descriptor
  belongs to its callback until it is inserted or given up. Callbacks interleave
  freely. In every run a descriptor is open exactly while someone owns it, and it
  is closed once.
 */
module FdLifetimes {
  import opened Bytes
  import opened Inodes

  /** An inode object: its descriptor, shared count, lookup count, and the nodeid the table files it under. */
  datatype Obj = Obj(fd: nat, refs: nat, nlookup: u64, home: Home)
  datatype Home = Filed(key: u64) | Unfiled

  /**
    filed:  the table, nodeid to object
    objs:   the live objects
    holds:  references held by callbacks in flight
    temps:  descriptors held by callbacks in flight
    open:   descriptors that are open
    closed: descriptors in the order they were closed
    nextFd, nextObj: names never used before (a reused number is a new descriptor)
   */
  datatype State = State(filed: map<u64, nat>, objs: map<nat, Obj>, holds: multiset<nat>, temps: set<nat>,
                         open: set<nat>, closed: seq<nat>, nextFd: nat, nextObj: nat)

  datatype Step =
    | Get(n: u64)
    | OpenChild
    | Insert(fd: nat, ino: u64)
    | Abandon(fd: nat)
    | Release(obj: nat)
    | Forget(n: u64, count: u64)

  const INITIAL: State :=
    State(map[ROOT := 0], map[0 := Obj(0, 1, 1, Filed(ROOT))], multiset{}, {}, {0}, [], 1, 1)

  /** A callback inserts or gives up only what it owns. */
  predicate Enabled(s: State, a: Step) {
    match a
    case Insert(fd, _) => fd in s.temps
    case Abandon(fd) => fd in s.temps
    case Release(o) => o in s.holds
    case _ => true
  }

  function Close(s: State, fd: nat): (t: State) {
    s.(open := s.open - {fd}, closed := s.closed + [fd])
  }

  /** Drops one reference; the last one destroys the object and closes its descriptor. */
  function Unref(s: State, o: nat): (t: State)
    requires o in s.objs && s.objs[o].refs > 0
  {
    var obj := s.objs[o];
    if obj.refs == 1 then Close(s.(objs := s.objs - {o}), obj.fd)
    else s.(objs := s.objs[o := obj.(refs := obj.refs - 1)])
  }

  /** References resolve: the table and the callbacks name live objects. */
  predicate Resolves(s: State) {
    && (forall k :: k in s.filed ==> s.filed[k] in s.objs)
    && (forall o :: o in s.holds ==> o in s.objs)
    && (forall o :: o in s.objs ==> s.objs[o].refs > 0)
  }

  /** Takes an entry out of the table, its reference still counted. */
  function Unfiling(s: State, n: u64): (t: State)
    requires Resolves(s) && n in s.filed
  {
    var o := s.filed[n];
    s.(filed := s.filed - {n}, objs := s.objs[o := s.objs[o].(nlookup := 0, home := Unfiled)])
  }

  function Next(s: State, a: Step): (t: State)
    requires Resolves(s) && Enabled(s, a)
  {
    match a
    case Get(n) =>
      if n !in s.filed then s
      else
        var o := s.filed[n];
        s.(holds := s.holds + multiset{o}, objs := s.objs[o := s.objs[o].(refs := s.objs[o].refs + 1)])
    case OpenChild =>
      s.(temps := s.temps + {s.nextFd}, open := s.open + {s.nextFd}, nextFd := s.nextFd + 1)
    case Insert(fd, ino) =>
      if ino !in s.filed then
        s.(filed := s.filed[ino := s.nextObj], objs := s.objs[s.nextObj := Obj(fd, 1, 1, Filed(ino))],
           temps := s.temps - {fd}, nextObj := s.nextObj + 1)
      else
        // A re-lookup keeps the original inode and closes the duplicate.
        var o := s.filed[ino];
        Close(s.(objs := s.objs[o := s.objs[o].(nlookup := (s.objs[o].nlookup + 1) % TWO64)], temps := s.temps - {fd}), fd)
    case Abandon(fd) => Close(s.(temps := s.temps - {fd}), fd)
    case Release(o) => Unref(s.(holds := s.holds - multiset{o}), o)
    case Forget(n, count) =>
      if n == ROOT || n !in s.filed then s
      else
        var o := s.filed[n];
        var obj := s.objs[o];
        if count < obj.nlookup then s.(objs := s.objs[o := obj.(nlookup := obj.nlookup - count)])
        else Unref(Unfiling(s, n), o)
  }

  // ---- The invariant -----------------------------------------------------

  /** The table files an object under at most one nodeid, the one it remembers. */
  ghost predicate Filing(s: State)
    requires Resolves(s)
  {
    && ROOT in s.filed
    && (forall k :: k in s.filed ==> s.objs[s.filed[k]].home == Filed(k))
    && (forall o :: o in s.objs && s.objs[o].home.Filed? ==> s.objs[o].home.key in s.filed && s.filed[s.objs[o].home.key] == o)
    && (forall o :: o in s.objs ==> o < s.nextObj)
  }

  /** The shared count is the table's reference plus the callbacks'. */
  ghost predicate Counted(s: State) {
    forall o :: o in s.objs ==> s.objs[o].refs == s.holds[o] + if s.objs[o].home.Filed? then 1 else 0
  }

  /** Who owns a descriptor: an inode object, or a callback. */
  ghost predicate Owned(s: State, fd: nat) {
    fd in s.temps || exists o :: o in s.objs && s.objs[o].fd == fd
  }

  /** No descriptor has two owners. */
  ghost predicate Exclusive(s: State) {
    && (forall o, p :: o in s.objs && p in s.objs && s.objs[o].fd == s.objs[p].fd ==> o == p)
    && (forall o :: o in s.objs ==> s.objs[o].fd !in s.temps)
  }

  /** Open means owned; and every descriptor ever opened is open or was closed once. */
  ghost predicate Accounted(s: State) {
    && (forall fd: nat :: fd in s.open <==> Owned(s, fd))
    && (forall fd: nat :: fd < s.nextFd <==> fd in s.open || fd in s.closed)
    && (forall i :: 0 <= i < |s.closed| ==> s.closed[i] !in s.open)
    && (forall i, j :: 0 <= i < j < |s.closed| ==> s.closed[i] != s.closed[j])
  }

  ghost predicate Inv(s: State) {
    Resolves(s) && Filing(s) && Counted(s) && Exclusive(s) && Accounted(s)
  }

  lemma OpenKeeps(s: State)
    requires Inv(s)
    ensures Inv(Next(s, OpenChild))
  {
    hide Accounted;
    OpenAccounts(s);
  }

  lemma OpenAccounts(s: State)
    requires Resolves(s) && Accounted(s)
    ensures Accounted(Next(s, OpenChild))
    ensures !Owned(s, s.nextFd)
  {
    var t := Next(s, OpenChild);
    assert s.nextFd !in s.open;
    forall fd: nat
      ensures Owned(t, fd) <==> fd == s.nextFd || Owned(s, fd)
    {
    }
    assert forall i :: 0 <= i < |s.closed| ==> s.closed[i] in s.closed;
  }

  lemma GetKeeps(s: State, n: u64)
    requires Inv(s)
    ensures Inv(Next(s, Get(n)))
  {
    hide Filing, Counted, Exclusive, Accounted;
    GetStructure(s, n);
    GetAccounts(s, n);
  }

  lemma GetAccounts(s: State, n: u64)
    requires Resolves(s) && Accounted(s)
    ensures Accounted(Next(s, Get(n)))
  {
    hide Owned;
    SameOwners(s, Next(s, Get(n)));
  }

  lemma GetStructure(s: State, n: u64)
    requires Inv(s)
    ensures var t := Next(s, Get(n)); Resolves(t) && Filing(t) && Counted(t) && Exclusive(t)
  {
    hide Filing, Exclusive, Accounted;
    GetFiling(s, n);
  }

  lemma GetFiling(s: State, n: u64)
    requires Resolves(s) && Filing(s) && Exclusive(s)
    ensures var t := Next(s, Get(n)); Resolves(t) && Filing(t) && Exclusive(t)
  {
    hide Exclusive;
    GetExclusive(s, n);
  }

  lemma GetExclusive(s: State, n: u64)
    requires Resolves(s) && Exclusive(s)
    ensures Exclusive(Next(s, Get(n)))
  {
  }

  /** Objects that keep their names and descriptors own what they owned. */
  lemma SameOwners(s: State, t: State)
    requires s.objs.Keys == t.objs.Keys && s.temps == t.temps
    requires forall o :: o in s.objs ==> s.objs[o].fd == t.objs[o].fd
    ensures forall fd: nat :: Owned(s, fd) <==> Owned(t, fd)
  {
    forall fd: nat
      ensures Owned(s, fd) <==> Owned(t, fd)
    {
      if exists o :: o in s.objs && s.objs[o].fd == fd {
        var o :| o in s.objs && s.objs[o].fd == fd;
        assert o in t.objs && t.objs[o].fd == fd;
      }
      if exists o :: o in t.objs && t.objs[o].fd == fd {
        var o :| o in t.objs && t.objs[o].fd == fd;
        assert o in s.objs && s.objs[o].fd == fd;
      }
    }
  }

  /** Closing the one descriptor that just lost its owner restores the accounts. */
  lemma CloseAccounts(s: State, t: State, fd: nat)
    requires Accounted(s) && fd in s.open && t.nextFd == s.nextFd
    requires t.open == s.open - {fd} && t.closed == s.closed + [fd]
    requires forall x: nat :: Owned(t, x) <==> Owned(s, x) && x != fd
    ensures Accounted(t)
  {
    forall x: nat
      ensures x < t.nextFd <==> x in t.open || x in t.closed
    {
      assert x in t.closed <==> x in s.closed || x == fd;
    }
  }

  lemma AbandonKeeps(s: State, fd: nat)
    requires Inv(s) && fd in s.temps
    ensures Inv(Next(s, Abandon(fd)))
  {
    var t := Next(s, Abandon(fd));
    assert Owned(s, fd);
    forall x: nat
      ensures Owned(t, x) <==> Owned(s, x) && x != fd
    {
    }
    CloseAccounts(s, t, fd);
  }

  lemma FirstInsertKeeps(s: State, fd: nat, ino: u64)
    requires Inv(s) && fd in s.temps && ino !in s.filed
    ensures Inv(Next(s, Insert(fd, ino)))
  {
    FirstInsertStructure(s, fd, ino);
    FirstInsertOwners(s, fd, ino);
  }

  lemma FirstInsertStructure(s: State, fd: nat, ino: u64)
    requires Resolves(s) && Filing(s) && Counted(s) && Exclusive(s) && fd in s.temps && ino !in s.filed
    ensures var t := Next(s, Insert(fd, ino)); Resolves(t) && Filing(t) && Counted(t) && Exclusive(t)
  {
    hide Exclusive, Counted;
    assert s.nextObj !in s.objs && s.nextObj !in s.holds;
    FirstInsertCounts(s, fd, ino);
  }

  lemma FirstInsertCounts(s: State, fd: nat, ino: u64)
    requires Resolves(s) && Counted(s) && Exclusive(s) && fd in s.temps && ino !in s.filed && s.nextObj !in s.objs
    ensures var t := Next(s, Insert(fd, ino)); Counted(t) && Exclusive(t)
  {
    hide Counted, Exclusive;
    FirstInsertCounted(s, fd, ino);
    FirstInsertExclusive(s, fd, ino);
  }

  lemma FirstInsertCounted(s: State, fd: nat, ino: u64)
    requires Resolves(s) && Counted(s) && fd in s.temps && ino !in s.filed && s.nextObj !in s.objs
    ensures Counted(Next(s, Insert(fd, ino)))
  {
    assert s.nextObj !in s.holds;
  }

  lemma FirstInsertExclusive(s: State, fd: nat, ino: u64)
    requires Resolves(s) && Exclusive(s) && fd in s.temps && ino !in s.filed && s.nextObj !in s.objs
    ensures Exclusive(Next(s, Insert(fd, ino)))
  {
  }

  /** The descriptor passes from the callback to the new inode. */
  lemma FirstInsertOwners(s: State, fd: nat, ino: u64)
    requires Inv(s) && fd in s.temps && ino !in s.filed
    ensures forall x: nat :: Owned(Next(s, Insert(fd, ino)), x) <==> Owned(s, x)
  {
    hide Accounted, Counted, Exclusive;
    var t := Next(s, Insert(fd, ino));
    assert s.nextObj !in s.objs;
    forall x: nat
      ensures Owned(t, x) <==> Owned(s, x)
    {
      if x == fd {
        assert t.objs[s.nextObj].fd == fd;
      }
      if exists o :: o in s.objs && s.objs[o].fd == x {
        var o :| o in s.objs && s.objs[o].fd == x;
        assert o in t.objs && t.objs[o].fd == x;
      }
    }
  }

  lemma ReinsertKeeps(s: State, fd: nat, ino: u64)
    requires Inv(s) && fd in s.temps && ino in s.filed
    ensures Inv(Next(s, Insert(fd, ino)))
  {
    hide Filing, Counted, Exclusive, Accounted;
    ReinsertStructure(s, fd, ino);
    ReinsertAccounts(s, fd, ino);
  }

  lemma ReinsertStructure(s: State, fd: nat, ino: u64)
    requires Resolves(s) && Filing(s) && Counted(s) && Exclusive(s) && fd in s.temps && ino in s.filed
    ensures var t := Next(s, Insert(fd, ino)); Resolves(t) && Filing(t) && Counted(t) && Exclusive(t)
  {
    hide Filing, Counted, Exclusive;
    ReinsertFiling(s, fd, ino);
    ReinsertCounts(s, fd, ino);
  }

  lemma ReinsertFiling(s: State, fd: nat, ino: u64)
    requires Resolves(s) && Filing(s) && fd in s.temps && ino in s.filed
    ensures var t := Next(s, Insert(fd, ino)); Resolves(t) && Filing(t)
  {
  }

  lemma ReinsertCounts(s: State, fd: nat, ino: u64)
    requires Resolves(s) && Counted(s) && Exclusive(s) && fd in s.temps && ino in s.filed
    ensures var t := Next(s, Insert(fd, ino)); Counted(t) && Exclusive(t)
  {
  }

  lemma ReinsertAccounts(s: State, fd: nat, ino: u64)
    requires Resolves(s) && Exclusive(s) && Accounted(s) && fd in s.temps && ino in s.filed
    ensures Accounted(Next(s, Insert(fd, ino)))
  {
    var t := Next(s, Insert(fd, ino));
    var bumped := t.(temps := s.temps);
    SameOwners(s, bumped);
    assert Owned(s, fd);
    forall x: nat
      ensures Owned(t, x) <==> Owned(s, x) && x != fd
    {
      assert Owned(bumped, x) <==> Owned(t, x) || x == fd;
    }
    CloseAccounts(s, t, fd);
  }

  /** A state that is sound but for one reference too many on `o`. */
  ghost predicate Slack(s: State, o: nat) {
    && Resolves(s) && Filing(s) && Exclusive(s) && Accounted(s) && o in s.objs
    && (forall p :: p in s.objs ==>
          s.objs[p].refs == s.holds[p] + (if s.objs[p].home.Filed? then 1 else 0) + if p == o then 1 else 0)
  }

  lemma UnrefKeeps(s: State, o: nat)
    requires Slack(s, o)
    ensures Inv(Unref(s, o))
  {
    UnrefStructure(s, o);
    var t, fd := Unref(s, o), s.objs[o].fd;
    if s.objs[o].refs == 1 {
      LastOwner(s, o);
      assert Owned(s, fd);
      CloseAccounts(s, t, fd);
    } else {
      SameOwners(s, t);
    }
  }

  lemma UnrefStructure(s: State, o: nat)
    requires Slack(s, o)
    ensures var t := Unref(s, o); Resolves(t) && Filing(t) && Counted(t) && Exclusive(t)
  {
    hide Filing, Exclusive, Counted;
    UnrefFiling(s, o);
    UnrefExclusive(s, o);
    UnrefCounted(s, o);
  }

  lemma UnrefFiling(s: State, o: nat)
    requires Slack(s, o)
    ensures Resolves(Unref(s, o)) && Filing(Unref(s, o))
  {
    hide Accounted, Exclusive;
    assert s.objs[o].refs == 1 ==> s.holds[o] == 0 && s.objs[o].home.Unfiled?;
  }

  lemma UnrefExclusive(s: State, o: nat)
    requires Slack(s, o)
    ensures Exclusive(Unref(s, o))
  {
    hide Accounted, Filing, Resolves;
  }

  lemma UnrefCounted(s: State, o: nat)
    requires Slack(s, o)
    ensures Counted(Unref(s, o))
  {
    hide Accounted, Filing, Exclusive, Resolves;
  }

  /** Destroying an object takes exactly its descriptor's owner away. */
  lemma LastOwner(s: State, o: nat)
    requires Slack(s, o) && s.objs[o].refs == 1
    ensures forall x: nat :: Owned(Unref(s, o), x) <==> Owned(s, x) && x != s.objs[o].fd
  {
    hide Accounted, Filing;
    var t, fd := Unref(s, o), s.objs[o].fd;
    forall x: nat
      ensures Owned(t, x) <==> Owned(s, x) && x != fd
    {
      if x != fd && exists p :: p in s.objs && s.objs[p].fd == x {
        var p :| p in s.objs && s.objs[p].fd == x;
        assert p in t.objs && t.objs[p].fd == x;
      }
    }
  }

  lemma ReleaseKeeps(s: State, o: nat)
    requires Inv(s) && o in s.holds
    ensures Inv(Next(s, Release(o)))
  {
    var u := s.(holds := s.holds - multiset{o});
    SameOwners(s, u);
    UnrefKeeps(u, o);
  }

  lemma ForgetSome(s: State, n: u64, count: u64)
    requires Inv(s) && n != ROOT && n in s.filed && count < s.objs[s.filed[n]].nlookup
    ensures Inv(Next(s, Forget(n, count)))
  {
    SameOwners(s, Next(s, Forget(n, count)));
  }

  /** Leaving the table, the object has one reference too many. */
  lemma Unfile(s: State, n: u64)
    requires Inv(s) && n != ROOT && n in s.filed
    ensures Slack(Unfiling(s, n), s.filed[n])
  {
    hide Filing, Exclusive, Counted;
    UnfileStructure(s, n);
    SameOwners(s, Unfiling(s, n));
  }

  lemma UnfileStructure(s: State, n: u64)
    requires Resolves(s) && Filing(s) && Counted(s) && Exclusive(s) && n != ROOT && n in s.filed
    ensures var o, t := s.filed[n], Unfiling(s, n);
            && Resolves(t) && Filing(t) && Exclusive(t)
            && (forall p :: p in t.objs ==>
                  t.objs[p].refs == t.holds[p] + (if t.objs[p].home.Filed? then 1 else 0) + if p == o then 1 else 0)
  {
    hide Filing, Exclusive;
    UnfileFiling(s, n);
    UnfileExclusive(s, n);
    UnfileCounted(s, n);
  }

  lemma UnfileFiling(s: State, n: u64)
    requires Resolves(s) && Filing(s) && n != ROOT && n in s.filed
    ensures Resolves(Unfiling(s, n)) && Filing(Unfiling(s, n))
  {
    var o, t := s.filed[n], Unfiling(s, n);
    assert forall k :: k in t.filed ==> t.filed[k] != o;
  }

  lemma UnfileExclusive(s: State, n: u64)
    requires Resolves(s) && Exclusive(s) && n in s.filed
    ensures Exclusive(Unfiling(s, n))
  {
  }

  lemma UnfileCounted(s: State, n: u64)
    requires Resolves(s) && Filing(s) && Counted(s) && n in s.filed
    ensures var o, t := s.filed[n], Unfiling(s, n);
            forall p :: p in t.objs ==>
              t.objs[p].refs == t.holds[p] + (if t.objs[p].home.Filed? then 1 else 0) + if p == o then 1 else 0
  {
    assert s.objs[s.filed[n]].home == Filed(n);
  }

  lemma ForgetKeeps(s: State, n: u64, count: u64)
    requires Inv(s)
    ensures Inv(Next(s, Forget(n, count)))
  {
    hide Inv, Slack;
    if n != ROOT && n in s.filed {
      var o := s.filed[n];
      InvResolves(s);
      if count < s.objs[o].nlookup {
        ForgetSome(s, n, count);
      } else {
        Unfile(s, n);
        UnrefKeeps(Unfiling(s, n), o);
      }
    }
  }

  lemma InvResolves(s: State)
    requires Inv(s)
    ensures Resolves(s)
  {
  }

  lemma StepKeeps(s: State, a: Step)
    requires Inv(s) && Enabled(s, a)
    ensures Inv(Next(s, a))
  {
    match a
    case Get(n) => GetKeeps(s, n);
    case OpenChild => OpenKeeps(s);
    case Insert(fd, ino) => if ino in s.filed { ReinsertKeeps(s, fd, ino); } else { FirstInsertKeeps(s, fd, ino); }
    case Abandon(fd) => AbandonKeeps(s, fd);
    case Release(o) => ReleaseKeeps(s, o);
    case Forget(n, count) => ForgetKeeps(s, n, count);
  }

  /** The lookup counts behind the objects. */
  function Tallies(s: State): (t: Counts)
    requires Resolves(s)
  {
    map k | k in s.filed :: s.objs[s.filed[k]].nlookup
  }

  /** On lookup counts, the steps are those of the inode table. */
  lemma StepTallies(s: State, a: Step)
    requires Inv(s) && Enabled(s, a)
    ensures Resolves(Next(s, a))
    ensures Tallies(Next(s, a)) == match a
                                   case Insert(_, ino) => Inserted(Tallies(s), ino)
                                   case Forget(n, count) => Forgotten(Tallies(s), n, count)
                                   case _ => Tallies(s)
  {
    hide Tallies, Next, Accounted, Exclusive, Counted, Filing, Inserted, Forgotten;
    StepKeeps(s, a);
    match a
    case Insert(fd, ino) => InsertTallies(s, fd, ino);
    case Forget(n, count) => ForgetTallies(s, n, count);
    case _ => OtherTallies(s, a);
  }

  lemma InsertTallies(s: State, fd: nat, ino: u64)
    requires Inv(s) && fd in s.temps && Resolves(Next(s, Insert(fd, ino)))
    ensures Tallies(Next(s, Insert(fd, ino))) == Inserted(Tallies(s), ino)
  {
    hide Accounted, Exclusive, Counted, Filing, Inserted;
    if ino in s.filed {
      ReinsertTallies(s, fd, ino);
    } else {
      FirstInsertTallies(s, fd, ino);
    }
  }

  lemma FirstInsertTallies(s: State, fd: nat, ino: u64)
    requires Resolves(s) && Filing(s) && fd in s.temps && ino !in s.filed && Resolves(Next(s, Insert(fd, ino)))
    ensures Tallies(Next(s, Insert(fd, ino))) == Inserted(Tallies(s), ino)
  {
    assert s.nextObj !in s.objs;
  }

  lemma ReinsertTallies(s: State, fd: nat, ino: u64)
    requires Resolves(s) && Filing(s) && fd in s.temps && ino in s.filed && Resolves(Next(s, Insert(fd, ino)))
    ensures Tallies(Next(s, Insert(fd, ino))) == Inserted(Tallies(s), ino)
  {
    forall k: u64 | k in s.filed && k != ino ensures s.filed[k] != s.filed[ino] {
      assert s.objs[s.filed[k]].home == Filed(k) && s.objs[s.filed[ino]].home == Filed(ino);
    }
  }

  lemma ForgetTallies(s: State, n: u64, count: u64)
    requires Inv(s) && Resolves(Next(s, Forget(n, count)))
    ensures Tallies(Next(s, Forget(n, count))) == Forgotten(Tallies(s), n, count)
  {
    hide Accounted, Exclusive, Counted;
    if n != ROOT && n in s.filed && count >= s.objs[s.filed[n]].nlookup {
      ForgetLastTallies(s, n, count);
    } else {
      assert Tallies(Next(s, Forget(n, count))).Keys == Tallies(s).Keys;
    }
  }

  lemma ForgetLastTallies(s: State, n: u64, count: u64)
    requires Inv(s) && Resolves(Next(s, Forget(n, count)))
    requires n != ROOT && n in s.filed && count >= s.objs[s.filed[n]].nlookup
    ensures Tallies(Next(s, Forget(n, count))) == Tallies(s) - {n}
  {
    hide Accounted, Exclusive, Counted;
    var t, o := Next(s, Forget(n, count)), s.filed[n];
    assert forall k :: k in t.filed ==> t.filed[k] != o && t.objs[t.filed[k]] == s.objs[s.filed[k]];
  }

  lemma OtherTallies(s: State, a: Step)
    requires Inv(s) && Enabled(s, a) && !a.Insert? && !a.Forget? && Resolves(Next(s, a))
    ensures Tallies(Next(s, a)) == Tallies(s)
  {
    hide Accounted, Exclusive, Filing, Counted;
    if a.Release? {
      ReleaseTallies(s, a.obj);
    }
  }

  lemma ReleaseTallies(s: State, o: nat)
    requires Inv(s) && o in s.holds && Resolves(Next(s, Release(o)))
    ensures Tallies(Next(s, Release(o))) == Tallies(s)
  {
    hide Accounted, Exclusive;
    forall k: u64 | k in s.filed && s.filed[k] == o ensures s.objs[o].refs > 1 {
      assert s.objs[o].home == Filed(k) && s.holds[o] >= 1;
    }
  }

  // ---- Runs --------------------------------------------------------------

  /** The states of a run, first to last. */
  ghost predicate IsRun(states: seq<State>, steps: seq<Step>) {
    && |states| == |steps| + 1 && states[0] == INITIAL
    && forall i :: 0 <= i < |steps| ==>
         Resolves(states[i]) && Enabled(states[i], steps[i]) && states[i + 1] == Next(states[i], steps[i])
  }

  lemma {:induction false} RunKeeps(states: seq<State>, steps: seq<Step>, i: nat)
    requires IsRun(states, steps) && i < |states|
    ensures Inv(states[i])
  {
    if i == 0 {
      var s := INITIAL;
      assert s.objs[0].fd == 0;
      assert forall fd: nat :: fd in s.open <==> Owned(s, fd);
    } else {
      RunKeeps(states, steps, i - 1);
      StepKeeps(states[i - 1], steps[i - 1]);
    }
  }

  /** At every point of every run: a descriptor is open exactly while an inode reachable
      from the table or from a callback owns it, or a callback does; no two owners share
      one; closed ones stay closed and were closed once; and what a callback holds is open. */
  lemma DescriptorLifetime(states: seq<State>, steps: seq<Step>, i: nat)
    requires IsRun(states, steps) && i < |states|
    ensures var s := states[i];
            && (forall fd: nat :: fd in s.open <==> Owned(s, fd))
            && (forall o :: o in s.objs <==> o in s.holds || o in s.filed.Values)
            && (forall fd: nat :: fd < s.nextFd <==> fd in s.open || fd in s.closed)
            && (forall j, k :: 0 <= j < k < |s.closed| ==> s.closed[j] != s.closed[k])
            && (forall j :: 0 <= j < |s.closed| ==> s.closed[j] !in s.open)
            && (forall o :: o in s.holds ==> o in s.objs && s.objs[o].fd in s.open)
  {
    RunKeeps(states, steps, i);
    var s := states[i];
    forall o
      ensures o in s.objs <==> o in s.holds || o in s.filed.Values
    {
      if o in s.objs && s.objs[o].home.Filed? {
        assert s.filed[s.objs[o].home.key] == o;
      }
    }
    forall o | o in s.holds
      ensures o in s.objs && s.objs[o].fd in s.open
    {
      assert Owned(s, s.objs[o].fd);
    }
  }

  /** A re-lookup closes the duplicate at once and leaves the original inode open. */
  lemma RelookupClosesDuplicate(states: seq<State>, steps: seq<Step>, i: nat)
    requires IsRun(states, steps) && i < |steps| && steps[i].Insert? && steps[i].ino in states[i].filed
    ensures var s, t := states[i], states[i + 1];
            var o := s.filed[steps[i].ino];
            && steps[i].fd in s.open && steps[i].fd !in t.open && t.closed == s.closed + [steps[i].fd]
            && t.filed == s.filed && o in t.objs && t.objs[o].fd == s.objs[o].fd && t.objs[o].fd in t.open
  {
    RunKeeps(states, steps, i);
    RunKeeps(states, steps, i + 1);
    var s, t := states[i], states[i + 1];
    var o := s.filed[steps[i].ino];
    assert Owned(s, steps[i].fd);
    assert Owned(t, t.objs[o].fd);
  }

  // ---- What each callback step does to ownership ---------------------------

  /** The holds and descriptors of callbacks after a step: a get takes a reference to the object
      filed under its nodeid, a release gives one up; an open gives the callback a descriptor,
      which an insert or an abandon takes from it. Nothing else changes what callbacks hold. */
  function HoldsAfter(s: State, a: Step): (h: multiset<nat>) {
    match a
    case Get(n) => if n in s.filed then s.holds + multiset{s.filed[n]} else s.holds
    case Release(o) => s.holds - multiset{o}
    case _ => s.holds
  }

  function TempsAfter(s: State, a: Step): (fds: set<nat>) {
    match a
    case OpenChild => s.temps + {s.nextFd}
    case Insert(fd, _) => s.temps - {fd}
    case Abandon(fd) => s.temps - {fd}
    case _ => s.temps
  }

  lemma StepHolds(s: State, a: Step)
    requires Resolves(s) && Enabled(s, a)
    ensures Next(s, a).holds == HoldsAfter(s, a) && Next(s, a).temps == TempsAfter(s, a)
  {
    match a
    case Release(o) => UnrefParts(s.(holds := s.holds - multiset{o}), o);
    case Forget(n, count) =>
      if n in s.filed {
        UnrefParts(Unfiling(s, n), s.filed[n]);
      }
    case Get(_) =>
    case OpenChild =>
    case Insert(_, _) =>
    case Abandon(_) =>
  }

  /** Exactly these descriptors, one at most, are closed between `s` and `t`, and none is opened. */
  ghost predicate Closes(s: State, t: State, fds: seq<nat>)
    requires |fds| <= 1
  {
    t.closed == s.closed + fds && t.open == if fds == [] then s.open else s.open - {fds[0]}
  }

  lemma UnrefParts(s: State, o: nat)
    requires o in s.objs && s.objs[o].refs > 0
    ensures var t := Unref(s, o);
            && t.holds == s.holds && t.temps == s.temps && t.filed == s.filed
            && Closes(s, t, if s.objs[o].refs == 1 then [s.objs[o].fd] else [])
            && forall p :: p in t.objs ==> p in s.objs && t.objs[p].fd == s.objs[p].fd
  {
    assert s.closed + [] == s.closed;
  }

  /** What a step closes: the descriptor whose last owner it takes away. That owner is the
      callback itself, an object that is not filed and that no other callback holds, or a
      forgotten object that no callback holds. */
  function ClosedBy(s: State, a: Step): (fds: seq<nat>)
    requires Resolves(s) && Enabled(s, a)
    ensures |fds| <= 1
  {
    match a
    case Abandon(fd) => [fd]
    case Insert(fd, ino) => if ino in s.filed then [fd] else []
    case Release(o) => if s.holds[o] == 1 && s.objs[o].home == Unfiled then [s.objs[o].fd] else []
    case Forget(n, count) =>
      if n != ROOT && n in s.filed && count >= s.objs[s.filed[n]].nlookup && s.holds[s.filed[n]] == 0
      then [s.objs[s.filed[n]].fd]
      else []
    case _ => []
  }

  lemma ReleaseCloses(s: State, o: nat)
    requires Resolves(s) && Counted(s) && o in s.holds
    ensures Closes(s, Next(s, Release(o)), ClosedBy(s, Release(o)))
  {
    assert s.objs[o].refs == s.holds[o] + if s.objs[o].home.Filed? then 1 else 0;
    UnrefParts(s.(holds := s.holds - multiset{o}), o);
  }

  lemma ForgetCloses(s: State, n: u64, count: u64)
    requires Resolves(s) && Filing(s) && Counted(s)
    ensures Closes(s, Next(s, Forget(n, count)), ClosedBy(s, Forget(n, count)))
  {
    assert s.closed + [] == s.closed;
    if n != ROOT && n in s.filed {
      FiledHome(s, n);
      assert s.objs[s.filed[n]].refs == s.holds[s.filed[n]] + 1;
      UnrefParts(Unfiling(s, n), s.filed[n]);
    }
  }

  /** A step opens a new descriptor exactly if it is an open, and closes one exactly if it
      takes away that descriptor's last owner. */
  lemma StepOpensAndCloses(s: State, a: Step)
    requires Inv(s) && Enabled(s, a)
    ensures var t := Next(s, a);
            if a.OpenChild? then t.open == s.open + {s.nextFd} && t.closed == s.closed && s.nextFd !in s.open && s.nextFd !in s.closed
            else Closes(s, t, ClosedBy(s, a))
  {
    hide Filing, Exclusive, Counted;
    assert s.closed + [] == s.closed;
    match a
    case Release(o) => ReleaseCloses(s, o);
    case Forget(n, count) => ForgetCloses(s, n, count);
    case Get(_) =>
    case OpenChild =>
    case Insert(_, _) =>
    case Abandon(_) =>
  }

  lemma FiledHome(s: State, n: u64)
    requires Resolves(s) && Filing(s) && n in s.filed
    ensures s.objs[s.filed[n]].home == Filed(n)
  {
  }

  /** A first insert files the callback's descriptor under its inode, still open. */
  lemma FirstInsertFiles(s: State, fd: nat, ino: u64)
    requires Inv(s) && fd in s.temps && ino !in s.filed
    ensures var t := Next(s, Insert(fd, ino));
            ino in t.filed && t.filed[ino] in t.objs && t.objs[t.filed[ino]].fd == fd && fd in s.open && fd in t.open
  {
    assert Owned(s, fd);
  }

  /** No step changes the descriptor of an object that stays. */
  lemma StepFds(s: State, a: Step, o: nat)
    requires Resolves(s) && Enabled(s, a) && o in s.objs && o in Next(s, a).objs && s.nextObj !in s.objs
    ensures Next(s, a).objs[o].fd == s.objs[o].fd
  {
    match a
    case Release(p) => UnrefParts(s.(holds := s.holds - multiset{p}), p);
    case Forget(n, count) =>
      if n in s.filed {
        UnrefParts(Unfiling(s, n), s.filed[n]);
      }
    case Get(_) =>
    case OpenChild =>
    case Insert(_, _) =>
    case Abandon(_) =>
  }

  lemma StepKeepsHeld(s: State, a: Step, o: nat)
    requires Inv(s) && Enabled(s, a) && Resolves(Next(s, a)) && o in s.holds && a != Release(o)
    ensures var t := Next(s, a); o in t.holds && o in t.objs && t.objs[o].fd == s.objs[o].fd
  {
    hide Accounted, Exclusive, Counted, Next;
    StepHolds(s, a);
    StepFds(s, a, o);
  }

  /** What a callback got stays: its object's descriptor is open until the callback releases
      it, whatever is forgotten, inserted or released meanwhile. */
  lemma {:induction false} HeldUntilReleased(states: seq<State>, steps: seq<Step>, i: nat, j: nat)
    requires IsRun(states, steps) && i < j < |states| && steps[i].Get? && steps[i].n in states[i].filed
    requires forall m :: i < m < j ==> steps[m] != Release(states[i].filed[steps[i].n])
    ensures var o := states[i].filed[steps[i].n];
            && o in states[i].objs && o in states[j].holds && o in states[j].objs
            && states[j].objs[o].fd == states[i].objs[o].fd && states[j].objs[o].fd in states[j].open
    decreases j
  {
    hide Inv, Next, Enabled;
    RunKeeps(states, steps, i);
    RunKeeps(states, steps, j);
    RunKeeps(states, steps, j - 1);
    var o := states[i].filed[steps[i].n];
    InvResolves(states[i]);
    if j == i + 1 {
      GetHolds(states[i], steps[i].n);
    } else {
      HeldUntilReleased(states, steps, i, j - 1);
      InvResolves(states[j]);
      StepKeepsHeld(states[j - 1], steps[j - 1], o);
    }
    HeldIsOpen(states[j], o);
  }

  lemma GetHolds(s: State, n: u64)
    requires Resolves(s) && n in s.filed
    ensures var o, t := s.filed[n], Next(s, Get(n)); o in t.holds && o in t.objs && t.objs[o].fd == s.objs[o].fd
  {
  }

  lemma HeldIsOpen(s: State, o: nat)
    requires Inv(s) && o in s.holds
    ensures o in s.objs && s.objs[o].fd in s.open
  {
    assert Owned(s, s.objs[o].fd);
  }
}
