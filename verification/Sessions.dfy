/**
  The life of a session: `Session::run` with its scope guard, on every exit path. A
  monitor written independently of it says which orders of events are safe.
 */
module Sessions {
  datatype Event =
    | OpenDevice
    | MakeEventfd
    | SetFd
    | StartRing(q: nat)
    | StartFailed(q: nat)
    | Launch(q: nat)
    | Create
    | MoveMount
    | SignalStop
    | Join(q: nat)
    | Teardown(q: nat)
    | Destroy
    | CloseDevice
    | Unmount

  // ---- The monitor -------------------------------------------------------

  datatype Queue = Absent | Started | Running | Joined | Gone

  /** What has happened so far, the queues apart. */
  datatype Flags = Flags(device: bool, eventfd: bool, channel: bool, signalled: bool, created: bool, mounted: bool,
                         installed: bool, destroyed: bool)

  datatype Monitor = Monitor(f: Flags, queues: seq<Queue>, ok: bool)

  predicate All(qs: seq<Queue>, want: Queue) {
    forall i :: 0 <= i < |qs| ==> qs[i] == want
  }

  /** No ring exists that is not torn down. */
  predicate Quiet(qs: seq<Queue>) {
    forall i :: 0 <= i < |qs| ==> qs[i] == Absent || qs[i] == Gone
  }

  function At(m: Monitor, q: nat): Queue {
    if q < |m.queues| then m.queues[q] else Absent
  }

  /** Rings register only on a device whose channel is installed, with an eventfd to poll. The
      superblock is created once, only with every queue running, and moved into place after that. A thread is waited for only when something can end it: a
      stop signal, or a mount that was installed. A ring is torn down only when its thread is
      not running. The device is closed and then the mount dropped, with no ring left. */
  predicate Allowed(m: Monitor, e: Event) {
    match e
    case SetFd => m.f.device
    case SignalStop => m.f.eventfd
    case StartRing(q) => m.f.channel && m.f.eventfd && q < |m.queues| && At(m, q) == Absent
    case StartFailed(q) => m.f.channel && m.f.eventfd && q < |m.queues| && At(m, q) == Absent
    case Launch(q) => At(m, q) == Started
    case Create => m.f.channel && !m.f.created && All(m.queues, Running)
    case MoveMount => m.f.channel && m.f.created && !m.f.mounted && All(m.queues, Running)
    case Join(q) => At(m, q) == Started || (At(m, q) == Running && (m.f.signalled || m.f.mounted))
    case Teardown(q) => At(m, q) == Started || At(m, q) == Joined
    case Destroy => All(m.queues, Joined)
    case CloseDevice => Quiet(m.queues)
    case Unmount => m.f.mounted && !m.f.device && Quiet(m.queues)
    case _ => true
  }

  function Put(qs: seq<Queue>, q: nat, to: Queue): seq<Queue> {
    if q < |qs| then qs[q := to] else qs
  }

  function Queues(qs: seq<Queue>, e: Event): seq<Queue> {
    match e
    case StartRing(q) => Put(qs, q, Started)
    case StartFailed(q) => Put(qs, q, Gone)
    case Launch(q) => Put(qs, q, Running)
    case Join(q) => Put(qs, q, Joined)
    case Teardown(q) => Put(qs, q, Gone)
    case _ => qs
  }

  function Step(m: Monitor, e: Event): Monitor {
    Monitor(
      Flags(
        e.OpenDevice? || (m.f.device && !e.CloseDevice?),
        m.f.eventfd || e.MakeEventfd?,
        m.f.channel || e.SetFd?,
        m.f.signalled || e.SignalStop?,
        m.f.created || e.Create?,
        e.MoveMount? || (m.f.mounted && !e.Unmount?),
        m.f.installed || e.MoveMount?,
        m.f.destroyed || e.Destroy?),
      Queues(m.queues, e),
      m.ok && Allowed(m, e))
  }

  /** The moves of one queue that keep the rules, each changing only that queue. */
  lemma QueueSteps(m: Monitor, q: nat)
    requires m.ok && q < |m.queues|
    ensures m.queues[q] == Absent && m.f.channel && m.f.eventfd ==> Step(m, StartRing(q)) == m.(queues := m.queues[q := Started])
    ensures m.queues[q] == Absent && m.f.channel && m.f.eventfd ==> Step(m, StartFailed(q)) == m.(queues := m.queues[q := Gone])
    ensures m.queues[q] == Started ==> Step(m, Launch(q)) == m.(queues := m.queues[q := Running])
    ensures m.queues[q] == Started || (m.queues[q] == Running && (m.f.signalled || m.f.mounted)) ==>
      Step(m, Join(q)) == m.(queues := m.queues[q := Joined])
    ensures m.queues[q] == Joined ==> Step(m, Teardown(q)) == m.(queues := m.queues[q := Gone])
  {
  }

  function Watch(m: Monitor, es: seq<Event>): Monitor {
    if es == [] then m else Step(Watch(m, es[..|es| - 1]), es[|es| - 1])
  }

  lemma WatchSnoc(m: Monitor, es: seq<Event>, e: Event)
    ensures Watch(m, es + [e]) == Step(Watch(m, es), e)
  {
    assert (es + [e])[..|es|] == es;
  }

  lemma NothingSeen(n: nat)
    ensures Watch(Asleep(n), []) == Asleep(n)
  {
  }

  function Asleep(n: nat): Monitor {
    Monitor(Flags(false, false, false, false, false, false, false, false), seq(n, i => Absent), true)
  }

  // ---- What an unbroken log says about the order of its events --------------------

  /** Where the monitor has a queue tells which of the queue's events it has seen. */
  ghost predicate Tells(s: Queue, seen: set<Event>, q: nat) {
    && (s == Running ==> Launch(q) in seen)
    && (Launch(q) in seen ==> s == Running || s == Joined || s == Gone)
    && (Launch(q) in seen && s != Running ==> Join(q) in seen)
    && (Launch(q) in seen && s == Gone ==> Teardown(q) in seen)
  }

  /** How one event moves one queue. */
  predicate Moves(s: Queue, e: Event, q: nat, t: Queue) {
    if e == StartRing(q) then s == Absent && t == Started
    else if e == StartFailed(q) then s == Absent && t == Gone
    else if e == Launch(q) then s == Started && t == Running
    else if e == Join(q) then (s == Started || s == Running) && t == Joined
    else if e == Teardown(q) then (s == Started || s == Joined) && t == Gone
    else t == s
  }

  lemma StepMoves(m: Monitor, e: Event, q: nat)
    requires Step(m, e).ok && q < |m.queues|
    ensures m.ok && |Step(m, e).queues| == |m.queues| && Moves(m.queues[q], e, q, Step(m, e).queues[q])
    ensures Step(m, e).f.installed == (m.f.installed || e == MoveMount)
    ensures Step(m, e).f.mounted ==> m.f.mounted || e == MoveMount
    ensures Step(m, e).f.created == (m.f.created || e == Create)
  {
  }

  lemma MovesTell(s: Queue, e: Event, q: nat, t: Queue, seen: set<Event>)
    requires Moves(s, e, q, t) && Tells(s, seen, q)
    ensures Tells(t, seen + {e}, q)
  {
  }

  lemma NothingTold(q: nat)
    ensures Tells(Absent, {}, q)
  {
  }

  lemma {:induction false} PrefixUnbroken(n: nat, es: seq<Event>, i: nat)
    requires Watch(Asleep(n), es).ok && i <= |es|
    ensures Watch(Asleep(n), es[..i]).ok
  {
    hide Step;
    if i == |es| {
      assert es[..i] == es;
    } else {
      OnceBroken(Watch(Asleep(n), es[..|es| - 1]), es[|es| - 1]);
      PrefixUnbroken(n, es[..|es| - 1], i);
      assert es[..|es| - 1][..i] == es[..i];
    }
  }

  lemma OnceBroken(m: Monitor, e: Event)
    ensures Step(m, e).ok ==> m.ok
  {
  }

  function Met(es: seq<Event>): set<Event> {
    set e | e in es
  }

  lemma {:induction false} Lengths(m: Monitor, es: seq<Event>)
    ensures |Watch(m, es).queues| == |m.queues|
  {
    if es != [] {
      Lengths(m, es[..|es| - 1]);
      KeepsLength(Watch(m, es[..|es| - 1]), es[|es| - 1]);
    }
  }

  lemma KeepsLength(m: Monitor, e: Event)
    ensures |Step(m, e).queues| == |m.queues|
  {
  }

  lemma {:induction false} LogTells(n: nat, es: seq<Event>, q: nat)
    requires Watch(Asleep(n), es).ok && q < n
    ensures var m := Watch(Asleep(n), es);
      |m.queues| == n && Tells(m.queues[q], Met(es), q) && (m.f.mounted ==> m.f.installed) && (m.f.installed <==> MoveMount in es)
      && (m.f.created <==> Create in es)
  {
    hide Step, Tells;
    if es == [] {
      assert Met(es) == {};
      NothingTold(q);
    } else {
      var init, e := es[..|es| - 1], es[|es| - 1];
      var m := Watch(Asleep(n), init);
      assert Met(es) == Met(init) + {e};
      Lengths(Asleep(n), init);
      StepMoves(m, e, q);
      LogTells(n, init, q);
      MovesTell(m.queues[q], e, q, Step(m, e).queues[q], Met(init));
    }
  }

  lemma AllowedTells(m: Monitor, e: Event, q: nat, seen: set<Event>)
    requires Step(m, e).ok && q < |m.queues| && Tells(m.queues[q], seen, q)
    ensures e == Create || e == MoveMount ==> Launch(q) in seen
    ensures e == CloseDevice || e == Unmount ==> (Launch(q) in seen ==> Join(q) in seen && Teardown(q) in seen)
    ensures e == Unmount ==> m.f.mounted
    ensures (e == Create ==> !m.f.created) && (e == MoveMount ==> m.f.created)
  {
  }

  /** In an unbroken log every queue is launched before the superblock is created, and by the
      time the device is closed or the mount dropped, every launched queue was joined and
      torn down; a mount is dropped only after it was installed, and installed only after the
      superblock was created, which happens once. */
  lemma UnbrokenOrder(n: nat, es: seq<Event>, i: nat, q: nat)
    requires Watch(Asleep(n), es).ok && i < |es| && q < n
    ensures es[i] == Create || es[i] == MoveMount ==> Launch(q) in es[..i]
    ensures es[i] == CloseDevice || es[i] == Unmount ==>
      (Launch(q) in es[..i] ==> Join(q) in es[..i] && Teardown(q) in es[..i])
    ensures es[i] == Unmount ==> MoveMount in es[..i]
    ensures es[i] == Create ==> Create !in es[..i]
    ensures es[i] == MoveMount ==> Create in es[..i]
  {
    hide Watch, Step, Tells;
    var before := es[..i];
    assert es[..i + 1] == before + [es[i]];
    PrefixUnbroken(n, es, i + 1);
    PrefixUnbroken(n, es, i);
    WatchSnoc(Asleep(n), before, es[i]);
    LogTells(n, before, q);
    AllowedTells(Watch(Asleep(n), before), es[i], q, Met(before));
  }

  // ---- The session -------------------------------------------------------

  /** How the calls a run makes turn out: 0 is success, otherwise an error number. A device
      the caller supplies is never opened. */
  datatype World = World(
    queuesWanted: nat, processors: nat, deviceGiven: bool, deviceErr: nat, eventfdErr: nat, setFdErr: nat,
    startErr: nat -> nat, createErr: nat, fsmountErr: nat, moveErr: nat, stopping: bool, initDone: bool,
    workerErr: nat -> nat)

  /** The number of queues asked for, or the processor count (4 if unknown) clamped to 1..32. */
  function QueueCount(w: World): (n: nat)
    ensures w.queuesWanted > 0 ==> n == w.queuesWanted
    ensures w.queuesWanted == 0 && w.processors == 0 ==> n == 4
    ensures w.queuesWanted == 0 && 0 < w.processors <= 32 ==> n == w.processors
    ensures w.queuesWanted == 0 && w.processors > 32 ==> n == 32
  {
    if w.queuesWanted > 0 then w.queuesWanted
    else
      var hw := if w.processors == 0 then 4 else w.processors;
      if hw > 32 then 32 else hw
  }

  function Or(a: nat, b: nat): nat {
    if a != 0 then a else b
  }

  /** The error of the least queue below `n` that has one. */
  function FirstError(f: nat -> nat, n: nat): nat {
    if n == 0 then 0 else Or(FirstError(f, n - 1), f(n - 1))
  }

  lemma {:induction false} FirstErrorIsLeast(f: nat -> nat, n: nat)
    ensures FirstError(f, n) == 0 <==> forall q: nat :: q < n ==> f(q) == 0
    ensures FirstError(f, n) != 0 ==>
      exists q: nat :: q < n && f(q) == FirstError(f, n) && forall p: nat :: p < q ==> f(p) == 0
  {
    if n > 0 { FirstErrorIsLeast(f, n - 1); }
  }

  lemma {:induction false} FirstErrorStays(f: nat -> nat, k: nat, n: nat)
    requires k < n && FirstError(f, k) == 0 && f(k) != 0
    ensures FirstError(f, n) == f(k)
  {
    if n > k + 1 { FirstErrorStays(f, k, n - 1); }
  }

  function MountError(w: World): nat {
    Or(w.createErr, Or(w.fsmountErr, w.moveErr))
  }

  /** Device, eventfd and channel are there, so that rings are started. */
  predicate RingsTried(w: World) {
    (w.deviceGiven || w.deviceErr == 0) && w.eventfdErr == 0 && w.setFdErr == 0
  }

  /** The first failure on the way to started queues, in the order the calls are made. */
  function StartError(w: World): nat {
    Or(if w.deviceGiven then 0 else w.deviceErr, Or(w.eventfdErr, Or(w.setFdErr, FirstError(w.startErr, QueueCount(w)))))
  }

  /** The first failure on the way to an installed mount. */
  function SetupError(w: World): nat {
    Or(StartError(w), MountError(w))
  }

  predicate Served(w: World) {
    !w.stopping && w.initDone
  }

  /** A finished run: no rule was broken and no ring is left; the superblock was created exactly
      when every queue started; a mount was installed exactly when setting up never failed;
      destroy() was called exactly when it then served; and the workers were told to stop
      exactly when a ring failed to start, the mount failed, or INIT was never served. */
  predicate Wound(m: Monitor, w: World) {
    && m.ok && |m.queues| == QueueCount(w) && Quiet(m.queues)
    && (m.f.installed <==> SetupError(w) == 0)
    && (m.f.created <==> StartError(w) == 0)
    && (m.f.signalled <==> if StartError(w) != 0 then RingsTried(w) else MountError(w) != 0 || (!w.stopping && !w.initDone))
    && (m.f.destroyed <==> SetupError(w) == 0 && Served(w))
  }

  class Session {
    var mountInstalled: bool
    var deviceOpen: bool
    var events: seq<Event>

    constructor ()
      ensures !mountInstalled && events == []
    {
      mountInstalled, deviceOpen, events := false, false, [];
    }

    ghost function Seen(n: nat): Monitor
      reads this
    {
      Watch(Asleep(n), events)
    }

    method Emit(e: Event, ghost n: nat)
      modifies this`events
      ensures events == old(events) + [e] && Seen(n) == Step(old(Seen(n)), e)
    {
      WatchSnoc(Asleep(n), events, e);
      events := events + [e];
    }

    /** Joins the first `k` workers. */
    method JoinAll(k: nat, ghost n: nat)
      requires k <= n == |Seen(n).queues| && Seen(n).ok
      requires forall i :: 0 <= i < k ==> Seen(n).queues[i] == Started || Seen(n).queues[i] == Running
      requires forall i :: 0 <= i < k && Seen(n).queues[i] == Running ==> Seen(n).f.signalled || Seen(n).f.mounted
      modifies this`events
      ensures forall i :: 0 <= i < k ==> i < |Seen(n).queues| && Seen(n).queues[i] == Joined
      ensures Seen(n).ok == old(Seen(n).ok) && Seen(n).f == old(Seen(n).f) && |Seen(n).queues| == n
      ensures forall i :: k <= i < n ==> Seen(n).queues[i] == old(Seen(n).queues[i])
    {
      hide Watch, Step;
      for q := 0 to k
        invariant Seen(n).ok == old(Seen(n).ok) && Seen(n).f == old(Seen(n).f) && |Seen(n).queues| == n
        invariant forall i :: 0 <= i < q ==> Seen(n).queues[i] == Joined
        invariant forall i :: q <= i < n ==> Seen(n).queues[i] == old(Seen(n).queues[i])
      {
        QueueSteps(Seen(n), q);
        Emit(Join(q), n);
      }
    }

    /** The workers vector goes out of scope. */
    method TeardownAll(k: nat, ghost n: nat)
      requires k <= n == |Seen(n).queues| && Seen(n).ok
      requires forall i :: 0 <= i < k ==> Seen(n).queues[i] == Joined
      modifies this`events
      ensures Seen(n).ok == old(Seen(n).ok) && Seen(n).f == old(Seen(n).f) && |Seen(n).queues| == n
      ensures forall i :: 0 <= i < k ==> Seen(n).queues[i] == Gone
      ensures forall i :: k <= i < n ==> Seen(n).queues[i] == old(Seen(n).queues[i])
    {
      hide Watch, Step;
      for q := 0 to k
        invariant Seen(n).ok == old(Seen(n).ok) && Seen(n).f == old(Seen(n).f) && |Seen(n).queues| == n
        invariant forall i :: 0 <= i < q ==> Seen(n).queues[i] == Gone
        invariant forall i :: q <= i < n ==> Seen(n).queues[i] == old(Seen(n).queues[i])
      {
        QueueSteps(Seen(n), q);
        Emit(Teardown(q), n);
      }
    }

    /** Starts a ring per queue until one fails; the worker that fails is torn down at once. */
    method StartAll(w: World, n: nat) returns (started: nat, ec: nat)
      requires Seen(n) == Asleep(n).(f := Seen(n).f) && Seen(n).f.eventfd && Seen(n).f.channel
      modifies this`events
      ensures started <= n && ec == FirstError(w.startErr, n) && (ec == 0 <==> started == n)
      ensures Seen(n).ok == old(Seen(n).ok) && Seen(n).f == old(Seen(n).f) && |Seen(n).queues| == n
      ensures forall i :: 0 <= i < started ==> Seen(n).queues[i] == Started
      ensures forall i :: started <= i < n ==> Seen(n).queues[i] == Absent || Seen(n).queues[i] == Gone
    {
      hide Watch, Step;
      started, ec := 0, 0;
      while started < n && ec == 0
        invariant started <= n && Seen(n).ok == old(Seen(n).ok) && Seen(n).f == old(Seen(n).f) && |Seen(n).queues| == n
        invariant ec == 0 ==> FirstError(w.startErr, started) == 0 && forall i :: started <= i < n ==> Seen(n).queues[i] == Absent
        invariant ec != 0 ==> started < n && ec == FirstError(w.startErr, n)
        invariant forall i :: 0 <= i < started ==> Seen(n).queues[i] == Started
        invariant forall i :: started <= i < n ==> Seen(n).queues[i] == Absent || Seen(n).queues[i] == Gone
        decreases n - started, ec == 0
      {
        QueueSteps(Seen(n), started);
        if w.startErr(started) != 0 {
          FirstErrorStays(w.startErr, started, n);
          ec := w.startErr(started);
          Emit(StartFailed(started), n);
        } else {
          Emit(StartRing(started), n);
          started := started + 1;
        }
      }
    }

    method LaunchAll(n: nat)
      requires Seen(n).ok && |Seen(n).queues| == n && All(Seen(n).queues, Started)
      modifies this`events
      ensures Seen(n).ok == old(Seen(n).ok) && Seen(n).f == old(Seen(n).f) && |Seen(n).queues| == n
      ensures All(Seen(n).queues, Running)
    {
      hide Watch, Step;
      for q := 0 to n
        invariant Seen(n).ok == old(Seen(n).ok) && Seen(n).f == old(Seen(n).f) && |Seen(n).queues| == n
        invariant forall i :: 0 <= i < q ==> Seen(n).queues[i] == Running
        invariant forall i :: q <= i < n ==> Seen(n).queues[i] == Started
      {
        QueueSteps(Seen(n), q);
        Emit(Launch(q), n);
      }
    }

    /** CMD_CREATE, fsmount and move_mount; only the last one installs the mount. */
    method CreateAndFinish(w: World, ghost n: nat) returns (ec: nat)
      requires Seen(n).ok && Seen(n).f.channel && All(Seen(n).queues, Running) && !mountInstalled
      requires !Seen(n).f.created && !Seen(n).f.mounted
      modifies this`events, this`mountInstalled
      ensures ec == MountError(w) && (ec == 0 <==> mountInstalled)
      ensures Seen(n).ok && Seen(n).queues == old(Seen(n).queues)
      ensures Seen(n).f == old(Seen(n).f).(created := true, mounted := mountInstalled,
                                           installed := old(Seen(n).f.installed) || mountInstalled)
    {
      Emit(Create, n);
      if w.createErr != 0 { return w.createErr; }
      if w.fsmountErr != 0 { return w.fsmountErr; }
      if w.moveErr != 0 { return w.moveErr; }
      Emit(MoveMount, n);
      mountInstalled := true;
      ec := 0;
    }

    /** The first error a worker ended with. */
    method WorkerVerdict(w: World, n: nat) returns (ec: nat)
      ensures ec == FirstError(w.workerErr, n)
    {
      ec := 0;
      var q := 0;
      while q < n && ec == 0
        invariant q <= n && FirstError(w.workerErr, q) == ec
        invariant ec != 0 ==> ec == FirstError(w.workerErr, n)
      {
        if w.workerErr(q) != 0 { FirstErrorStays(w.workerErr, q, n); }
        ec := w.workerErr(q);
        q := q + 1;
      }
    }

    /** Stops, joins and tears down the first `k` workers. */
    method Unwind(signal: bool, destroy: bool, k: nat, n: nat)
      requires k <= n == |Seen(n).queues| && Seen(n).ok && (destroy ==> k == n) && (signal ==> Seen(n).f.eventfd)
      requires forall i :: 0 <= i < k ==> Seen(n).queues[i] == Started || Seen(n).queues[i] == Running
      requires forall i :: 0 <= i < k && Seen(n).queues[i] == Running ==> signal || Seen(n).f.mounted
      requires forall i :: k <= i < n ==> Seen(n).queues[i] == Absent || Seen(n).queues[i] == Gone
      modifies this`events
      ensures Seen(n).ok && |Seen(n).queues| == n && Quiet(Seen(n).queues)
      ensures var f := old(Seen(n).f);
        Seen(n).f == f.(signalled := f.signalled || signal, destroyed := f.destroyed || destroy)
    {
      hide Watch;
      if signal { Emit(SignalStop, n); }
      JoinAll(k, n);
      if destroy { Emit(Destroy, n); }
      TeardownAll(k, n);
    }

    /** The body of run(), up to the point where the scope guard acts. */
    method Conduct(w: World) returns (ec: nat)
      requires !mountInstalled
      modifies this
      ensures mountInstalled <==> SetupError(w) == 0
      ensures deviceOpen <==> old(deviceOpen) || w.deviceGiven || w.deviceErr == 0
      ensures Seen(QueueCount(w)).f.mounted == mountInstalled && Wound(Seen(QueueCount(w)), w)
      ensures ec == if SetupError(w) == 0 && Served(w) then FirstError(w.workerErr, QueueCount(w)) else SetupError(w)
    {
      hide Watch;
      var n := QueueCount(w);
      events := [];
      assert Seen(n) == Asleep(n) by { NothingSeen(n); }
      if !w.deviceGiven && w.deviceErr != 0 { return w.deviceErr; }
      deviceOpen := true;
      Emit(OpenDevice, n);
      if w.eventfdErr != 0 { return w.eventfdErr; }
      Emit(MakeEventfd, n);
      if w.setFdErr != 0 { return w.setFdErr; }
      Emit(SetFd, n);
      var started;
      started, ec := StartAll(w, n);
      if ec != 0 {
        Unwind(true, false, started, n);
        return;
      }
      LaunchAll(n);
      ec := CreateAndFinish(w, n);
      if ec != 0 {
        Unwind(true, false, n, n);
        return;
      }
      if w.stopping {
        Unwind(false, false, n, n);
        return;
      }
      if !w.initDone {
        Unwind(true, false, n, n);
        return;
      }
      ec := WorkerVerdict(w, n);
      Unwind(false, true, n, n);
    }

    /** run(): whatever fails, the scope guard finds every ring gone, and leaves no mount. */
    method Run(w: World) returns (ec: nat)
      requires !mountInstalled
      modifies this
      ensures SetupError(w) != 0 ==> (deviceOpen <==> old(deviceOpen) || w.deviceGiven || w.deviceErr == 0)
      ensures !mountInstalled && !Seen(QueueCount(w)).f.mounted && Wound(Seen(QueueCount(w)), w)
      ensures SetupError(w) == 0 ==> !deviceOpen && |events| >= 2 && events[|events| - 2..] == [CloseDevice, Unmount]
      ensures ec == if SetupError(w) == 0 && Served(w) then FirstError(w.workerErr, QueueCount(w)) else SetupError(w)
    {
      hide Watch;
      ec := Conduct(w);
      if mountInstalled {
        deviceOpen := false;
        Emit(CloseDevice, QueueCount(w));
        Emit(Unmount, QueueCount(w));
        mountInstalled := false;
      }
    }
  }
}
