/**
  The passthrough daemon as a filesystem: its inode table over a backing directory
  that is itself an oracle. A lookup or creation that succeeds counts one lookup of
  the inode it found; nothing but forgets ever lowers a count.
 */
module Passthrough {
  import opened Bytes
  import opened Wire
  import opened Filesystem
  import opened Requests
  import opened Replies
  import opened Dispatcher
  import opened Compounds
  import opened CompoundReplies
  import opened Inodes

  /** A backing inode number; there is no inode 0. */
  type Ino = x: int | 0 < x < TWO64 witness 1

  datatype Resolved = Found(ino: Ino) | Missing | Broken(errno: Errno)

  /** openat and fstatat on a child; creating a child; and the calls that never touch the inode table. */
  datatype Backing<!B> = Backing(
    resolve: (B, u64, seq<byte>) -> (B, Resolved),
    make: (B, u64, MkobjxIn) -> (B, Result<Ino>),
    rest: Filesystem<B>)

  datatype State<+B> = State(table: Counts, backing: B)

  const STALE: Errno := ESTALE

  function EntryOf<B>(b: Backing<B>, s: State<B>, c: EntryCall): (r: (State<B>, Result<EntryOut>)) {
    match c
    case LookupRoot(_) => (s, Ok(EntryOut(ROOT, 1, 0, false)))
    case Lookupx(_, parent, name) =>
      if parent !in s.table then (s, Err(STALE))
      else
        var (t, rv) := b.resolve(s.backing, parent, name);
        (match rv
         case Found(ino) => (State(Inserted(s.table, ino), t), Ok(EntryOut(ino, 1, 0, false)))
         case Missing => (State(s.table, t), Ok(EntryOut(0, 0, 0, true)))
         case Broken(e) => (State(s.table, t), Err(e)))
    case Mkobjx(_, parent, args) =>
      if parent !in s.table then (s, Err(STALE))
      else
        var (t, rv) := b.make(s.backing, parent, args);
        if rv.Err? then (State(s.table, t), Err(rv.errno))
        else (State(Inserted(s.table, rv.value), t), Ok(EntryOut(rv.value, 1, 0, false)))
  }

  function ForgetOf<B>(s: State<B>, c: ForgetCall): (t: State<B>) {
    match c
    case Forget(n, count) => s.(table := Forgotten(s.table, n, count))
    case ForgetMulti(items) => s.(table := ForgottenAll(s.table, items))
  }

  /** STATX needs a live nodeid. SETSTATX may change an open file without one, but then fails
      when it reports the attributes. */
  function AttrOf<B>(b: Backing<B>, s: State<B>, c: AttrCall): (r: (State<B>, Result<StatxImage>)) {
    if c.Statx? && c.nodeid !in s.table then (s, Err(STALE))
    else
      var (t, rv) := b.rest.attr(s.backing, c);
      (s.(backing := t), if c.nodeid !in s.table && rv.Ok? then Err(STALE) else rv)
  }

  function OpenOf<B>(b: Backing<B>, s: State<B>, c: OpenCall): (r: (State<B>, Result<OpenOut>)) {
    if c.nodeid !in s.table then (s, Err(STALE))
    else var (t, rv) := b.rest.open(s.backing, c); (s.(backing := t), rv)
  }

  /** The nodeids a call resolves in the table before it does anything. */
  function Resolving(c: UnitCall): (ns: seq<u64>) {
    match c
    case Unlink(_, p, _) => [p]
    case Rmdir(_, p, _) => [p]
    case Rename(_, p, _, q, _, _) => [p, q]
    case Link(_, n, p, _) => [n, p]
    case Setxattr(_, n, _, _, _) => [n]
    case Removexattr(_, n, _) => [n]
    case _ => []
  }

  function UnitOf<B>(b: Backing<B>, s: State<B>, c: UnitCall): (r: (State<B>, Result<()>)) {
    if exists n :: n in Resolving(c) && n !in s.table then (s, Err(STALE))
    else var (t, rv) := b.rest.unit(s.backing, c); (s.(backing := t), rv)
  }

  function CountCallOf<B>(b: Backing<B>, s: State<B>, c: CountCall): (r: (State<B>, Result<nat>)) {
    if !c.Write? && c.nodeid !in s.table then (s, Err(STALE))
    else var (t, rv) := b.rest.count(s.backing, c); (s.(backing := t), rv)
  }

  function FillOf<B>(b: Backing<B>, s: State<B>, c: FillCall): (r: (State<B>, Result<seq<byte>>, seq<byte>)) {
    if !c.Read? && c.nodeid !in s.table then (s, Err(STALE), [])
    else var (t, rv, more) := b.rest.fill(s.backing, c); (s.(backing := t), rv, more)
  }

  function Daemon<B>(b: Backing<B>): (fs: Filesystem<State<B>>) {
    Filesystem(
      (s: State<B>, args) => (var (t, rv) := b.rest.init(s.backing, args); (s.(backing := t), rv)),
      (s: State<B>, c) => EntryOf(b, s, c),
      (s: State<B>, c) => AttrOf(b, s, c),
      (s: State<B>, c) => OpenOf(b, s, c),
      (s: State<B>, c) => UnitOf(b, s, c),
      (s: State<B>, c) => CountCallOf(b, s, c),
      (s: State<B>, c) => FillOf(b, s, c),
      (s: State<B>, x, n) =>
        if n !in s.table then (s, Err(STALE)) else (var (t, rv) := b.rest.readlink(s.backing, x, n); (s.(backing := t), rv)),
      (s: State<B>, x, n) =>
        if n !in s.table then (s, Err(STALE)) else (var (t, rv) := b.rest.statfs(s.backing, x, n); (s.(backing := t), rv)),
      (s: State<B>, x, n, fh, off, room) =>
        (var (t, rv, more) := b.rest.readdir(s.backing, x, n, fh, off, room); (s.(backing := t), rv, more)),
      (s: State<B>, c) => ForgetOf(s, c))
  }

  // ---- Whose answer a callback gives ------------------------------------------

  /** LOOKUPX and MKOBJX are ESTALE exactly when the parent is missing. Otherwise what the backing
      directory has or makes is counted and reported under its inode number, a missing name is
      a negative entry, and an error is passed on. The root is always there. */
  lemma EntryAnswer<B>(b: Backing<B>, s: State<B>, c: EntryCall)
    ensures var (t, rv) := Daemon(b).entry(s, c);
            match c
            case LookupRoot(_) => t == s && rv == Ok(EntryOut(1, 1, 0, false))
            case Lookupx(_, p, name) =>
              if p !in s.table then t == s && rv == Err(116)
              else
                var (x, found) := b.resolve(s.backing, p, name);
                && t.backing == x && t.table == (if found.Found? then Inserted(s.table, found.ino) else s.table)
                && rv == (match found
                          case Found(ino) => Ok(EntryOut(ino, 1, 0, false))
                          case Missing => Ok(EntryOut(0, 0, 0, true))
                          case Broken(e) => Err(e))
            case Mkobjx(_, p, args) =>
              if p !in s.table then t == s && rv == Err(116)
              else
                var (x, made) := b.make(s.backing, p, args);
                && t.backing == x && t.table == (if made.Ok? then Inserted(s.table, made.value) else s.table)
                && rv == if made.Ok? then Ok(EntryOut(made.value, 1, 0, false)) else Err(made.errno)
  {
    match c
    case LookupRoot(_) =>
    case Lookupx(_, p, name) => var found := b.resolve(s.backing, p, name).1;
    case Mkobjx(_, p, args) => var made := b.make(s.backing, p, args).1;
  }

  /** STATX is ESTALE exactly when its nodeid is missing, and otherwise the backing's answer;
      SETSTATX of a missing nodeid never succeeds. */
  lemma AttrAnswer<B>(b: Backing<B>, s: State<B>, c: AttrCall)
    ensures var (t, rv) := Daemon(b).attr(s, c);
            var (x, own) := b.rest.attr(s.backing, c);
            if c.nodeid in s.table then t == State(s.table, x) && rv == own
            else if c.Statx? then t == s && rv == Err(116)
            else t == State(s.table, x) && rv == if own.Err? then own else Err(116)
  {
    var own := b.rest.attr(s.backing, c).1;
  }

  /** The nodeids that each of these resolves must be there; then the answer is the backing's. */
  lemma UnitAnswer<B>(b: Backing<B>, s: State<B>, c: UnitCall)
    ensures var missing := match c
                           case Unlink(_, p, _) => p !in s.table
                           case Rmdir(_, p, _) => p !in s.table
                           case Rename(_, p, _, q, _, _) => p !in s.table || q !in s.table
                           case Link(_, n, p, _) => n !in s.table || p !in s.table
                           case Setxattr(_, n, _, _, _) => n !in s.table
                           case Removexattr(_, n, _) => n !in s.table
                           case _ => false;
            var (x, own) := b.rest.unit(s.backing, c);
            Daemon(b).unit(s, c) == if missing then (s, Err(116)) else (State(s.table, x), own)
  {
    match c
    case Rename(_, p, _, q, _, _) => assert Resolving(c)[0] == p && Resolving(c)[1] == q;
    case Link(_, n, p, _) => assert Resolving(c)[0] == n && Resolving(c)[1] == p;
    case Unlink(_, p, _) => assert Resolving(c)[0] == p;
    case Rmdir(_, p, _) => assert Resolving(c)[0] == p;
    case Setxattr(_, n, _, _, _) => assert Resolving(c)[0] == n;
    case Removexattr(_, n, _) => assert Resolving(c)[0] == n;
    case _ =>
  }

  /** Opening, size queries, attribute reads, links and statfs are ESTALE exactly when the nodeid is
      missing; READ and WRITE resolve their handle first and are the backing's to answer. */
  lemma OtherAnswers<B>(b: Backing<B>, s: State<B>, o: OpenCall, c: CountCall, f: FillCall, x: Context, n: u64)
    ensures var (u, own) := b.rest.open(s.backing, o);
            Daemon(b).open(s, o) == if o.nodeid !in s.table then (s, Err(116)) else (State(s.table, u), own)
    ensures var (u, own) := b.rest.count(s.backing, c);
            Daemon(b).count(s, c) == if !c.Write? && c.nodeid !in s.table then (s, Err(116)) else (State(s.table, u), own)
    ensures var (u, own, more) := b.rest.fill(s.backing, f);
            Daemon(b).fill(s, f) == if !f.Read? && f.nodeid !in s.table then (s, Err(116), []) else (State(s.table, u), own, more)
    ensures var (u, own) := b.rest.readlink(s.backing, x, n);
            Daemon(b).readlink(s, x, n) == if n !in s.table then (s, Err(116)) else (State(s.table, u), own)
    ensures var (u, own) := b.rest.statfs(s.backing, x, n);
            Daemon(b).statfs(s, x, n) == if n !in s.table then (s, Err(116)) else (State(s.table, u), own)
  {
  }

  /** INIT and READDIR are the backing's to answer; forgets touch the table alone. */
  lemma PlainAnswers<B>(b: Backing<B>, s: State<B>, args: seq<byte>, x: Context, n: u64, fh: u64, off: u64, room: nat,
                        c: ForgetCall)
    ensures var (u, own) := b.rest.init(s.backing, args); Daemon(b).init(s, args) == (State(s.table, u), own)
    ensures var (u, own, more) := b.rest.readdir(s.backing, x, n, fh, off, room);
            Daemon(b).readdir(s, x, n, fh, off, room) == (State(s.table, u), own, more)
    ensures Daemon(b).forget(s, c).backing == s.backing
    ensures Daemon(b).forget(s, c).table == if c.Forget? then Forgotten(s.table, c.nodeid, c.nlookup) else ForgottenAll(s.table, c.items)
  {
  }

  // ---- What a request does to the table ----------------------------------

  /** What a call does to the lookup counts: it looks an inode up, drops lookups, or neither. */
  datatype Effect = Looked(ino: Ino) | Dropped(items: seq<(u64, u64)>) | Still

  function EffectBy<B>(b: Backing<B>, s: State<B>, c: Call): (e: Effect) {
    match c
    case Entry(Lookupx(_, parent, name)) =>
      if parent !in s.table then Still
      else (match b.resolve(s.backing, parent, name).1 case Found(ino) => Looked(ino) case _ => Still)
    case Entry(Mkobjx(_, parent, args)) =>
      if parent !in s.table then Still
      else (match b.make(s.backing, parent, args).1 case Ok(ino) => Looked(ino) case _ => Still)
    case Drop(Forget(n, count)) => Dropped([(n, count)])
    case Drop(ForgetMulti(items)) => Dropped(items)
    case _ => Still
  }

  function EffectOf<B>(b: Backing<B>, s: State<B>, h: InHeader, args: seq<byte>, cap: nat): (e: Effect)
    requires InBounds(h, args)
  {
    if h.opcode == COMPOUND then Still
    else
      match Decode(h, args, cap)
      case Ok(c) => EffectBy(b, s, c)
      case Err(_) => Still
  }

  function Applied(t: Counts, e: Effect): (r: Counts) {
    match e
    case Looked(ino) => Inserted(t, ino)
    case Dropped(items) => ForgottenAll(t, items)
    case Still => t
  }

  predicate Looks(op: u32) {
    op == LOOKUPX || op == MKOBJX
  }

  /** Which calls an opcode can decode to, as far as the table is concerned. */
  lemma DecodeKinds(h: InHeader, args: seq<byte>, cap: nat)
    requires InBounds(h, args)
    ensures var d := Decode(h, args, cap);
            d.Ok? ==>
              && (d.value.Entry? ==> MakesEntry(h.opcode))
              && (h.opcode == LOOKUPX ==> d.value.Entry? && d.value.entry.Lookupx? && d.value.entry.parent == h.nodeid)
              && (h.opcode == MKOBJX ==> d.value.Entry? && d.value.entry.Mkobjx? && d.value.entry.parent == h.nodeid)
              && (h.opcode == LOOKUP_ROOT ==> d.value.Entry? && d.value.entry.LookupRoot?)
              && (h.opcode == STATX ==> d.value.Attr? && d.value.attr.Statx? && d.value.attr.nodeid == h.nodeid)
    ensures Looks(h.opcode) && Decode(h, args, cap).Err? ==> Decode(h, args, cap).errno == EINVAL
  {
    hide At32, At64, At16, StrNLen, LinkBody, IsLink, ForgetItems;
  }

  lemma ServeTable<B>(b: Backing<B>, s: State<B>, c: Call, cap: nat)
    ensures Serve(Daemon(b), s, c, cap).0.table == Applied(s.table, EffectBy(b, s, c))
  {
    if c.Drop? && c.forget.Forget? {
      ForgetsOne(s.table, c.forget.nodeid, c.forget.nlookup);
    }
  }

  lemma ForgetsOne(t: Counts, n: u64, count: u64)
    ensures ForgottenAll(t, [(n, count)]) == Forgotten(t, n, count)
  {
    assert [(n, count)][1..] == [];
  }

  /** A request counts the inode it looked up, whatever becomes of its reply, or drops the
      lookups it was told to; no other request touches the table. */
  lemma RequestEffect<B>(b: Backing<B>, s: State<B>, h: InHeader, args: seq<byte>, cap: nat)
    requires InBounds(h, args)
    ensures SubReply(Daemon(b), s, h, args, cap).0.table == Applied(s.table, EffectOf(b, s, h, args, cap))
  {
    hide Decode, Serve, EffectBy;
    var d := Decode(h, args, cap);
    if d.Ok? {
      ServeTable(b, s, d.value, cap);
    }
  }

  lemma EntryImageNode(e: EntryOut, flags: u32)
    ensures At64(EntryImage(e, flags), 0) == e.nodeid
  {
    hide At64, Put32;
    var s, rest := EntryImage(e, flags), Put64(e.validSec) + Put32(e.validNsec) + Put32(flags) + Put64(0);
    assert s == Put64(e.nodeid) + rest;
    assert s[0..8] == Put64(e.nodeid);
    At64Put(s, 0, e.nodeid);
  }

  lemma ServeProduces<B>(b: Backing<B>, s: State<B>, c: EntryCall, cap: nat, op: u32)
    requires !c.LookupRoot? && Looks(op)
    ensures var e := EffectBy(b, s, Entry(c));
            Produced(op, Serve(Daemon(b), s, Entry(c), cap).1) == if e.Looked? && ENTRYX_OUT <= cap then e.ino else 0
  {
    hide EntryImage, At64;
    var (t, rv) := EntryOf(b, s, c);
    if rv.Ok? {
      EntryImageNode(rv.value, EntryFlags(c, rv.value));
    }
  }

  /** A lookup's reply hands on the inode it counted, given room for an entry; a lookup
      that failed, found nothing or lost its reply hands on 0. */
  lemma RequestProduces<B>(b: Backing<B>, s: State<B>, h: InHeader, args: seq<byte>, cap: nat)
    requires InBounds(h, args) && Looks(h.opcode)
    ensures var e := EffectOf(b, s, h, args, cap);
            Produced(h.opcode, SubReply(Daemon(b), s, h, args, cap).1) == if e.Looked? && ENTRYX_OUT <= cap then e.ino else 0
  {
    hide Decode, Serve, EffectBy;
    DecodeKinds(h, args, cap);
    var d := Decode(h, args, cap);
    if d.Ok? {
      ServeProduces(b, s, d.value.entry, cap, h.opcode);
    }
  }

  /** Only LOOKUPX and MKOBJX look anything up. */
  lemma OnlyLooksLook<B>(b: Backing<B>, s: State<B>, h: InHeader, args: seq<byte>, cap: nat)
    requires InBounds(h, args) && !Looks(h.opcode)
    ensures !EffectOf(b, s, h, args, cap).Looked?
  {
    hide Decode;
    DecodeKinds(h, args, cap);
    LooksByKind(h, args, cap);
  }

  lemma LooksByKind(h: InHeader, args: seq<byte>, cap: nat)
    requires InBounds(h, args)
    ensures var d := Decode(h, args, cap);
            d.Ok? && d.value.Entry? && !d.value.entry.LookupRoot? ==> Looks(h.opcode)
  {
    hide At32, At64, At16, StrNLen, LinkBody, IsLink, ForgetItems;
  }

  // ---- Chains below a failed producer ------------------------------------

  lemma SubKeepsNoZero<B>(b: Backing<B>, s: State<B>, h: InHeader, args: seq<byte>, cap: nat)
    requires InBounds(h, args) && 0 !in s.table
    ensures 0 !in SubReply(Daemon(b), s, h, args, cap).0.table
  {
    hide SubReply, EffectOf;
    RequestEffect(b, s, h, args, cap);
    var e := EffectOf(b, s, h, args, cap);
    if e.Dropped? {
      ForgetsOnly(s.table, e.items);
    }
  }

  lemma {:induction false} ForgetsOnly(t: Counts, items: seq<(u64, u64)>)
    ensures ForgottenAll(t, items).Keys <= t.Keys
    decreases |items|
  {
    if items != [] {
      ForgetsOnly(Forgotten(t, items[0].0, items[0].1), items[1..]);
    }
  }

  lemma BeforeNothing<S>(fs: Filesystem<S>, s: S, rs: seq<SubReq>, room: nat)
    requires AllInBounds(rs)
    ensures Before(fs, s, rs, 0, room) == Outcome(s, [], true)
  {
    hide SubReply;
    assert rs[..0] == [];
    FoldNone(fs, s, room);
  }

  /** No compound ever puts nodeid 0 into the table. */
  lemma {:induction false} NeverZero<B>(b: Backing<B>, s: State<B>, rs: seq<SubReq>, room: nat, n: nat)
    requires AllInBounds(rs) && n <= |rs| && 0 !in s.table
    ensures 0 !in Before(Daemon(b), s, rs, n, room).state.table
    decreases n
  {
    hide SubReply, Before;
    if n == 0 {
      BeforeNothing(Daemon(b), s, rs, room);
    } else {
      NeverZero(b, s, rs, room, n - 1);
      BeforeStep(Daemon(b), s, rs, n - 1, room);
      var o := Before(Daemon(b), s, rs, n - 1, room);
      var left := room - FramesSize(o.frames);
      if o.accepted && left >= OUT_HEADER {
        SubKeepsNoZero(b, o.state, HeaderOf(rs, n - 1, o), rs[n - 1].args, left - OUT_HEADER);
      }
    }
  }

  /** LOOKUPX, MKOBJX and STATX on nodeid 0 fail and change nothing. */
  lemma ZeroFails<B>(b: Backing<B>, s: State<B>, h: InHeader, args: seq<byte>, cap: nat)
    requires InBounds(h, args) && 0 !in s.table && h.nodeid == 0 && (Looks(h.opcode) || h.opcode == STATX)
    ensures var (t, reply) := SubReply(Daemon(b), s, h, args, cap);
            t == s && reply.Failed? && Produced(h.opcode, reply) == 0
  {
    hide Decode;
    DecodeKinds(h, args, cap);
  }

  /** `i` hangs below `r`: it is `r`, or it names as its producer an earlier subrequest that does. */
  predicate Hangs(rs: seq<SubReq>, i: nat, r: nat)
    requires i < |rs|
    decreases i
  {
    i == r
    || (&& rs[i].dep != NO_DEP && rs[i].dep < i && (Looks(rs[i].h.opcode) || rs[i].h.opcode == STATX)
        && Hangs(rs, rs[i].dep, r))
  }

  /** Below a producer that handed on nothing, every lookup, creation and stat of a compound
      fails, hands on nothing itself, and leaves the daemon as it was. */
  lemma {:induction false} DeadChain<B>(b: Backing<B>, s: State<B>, rs: seq<SubReq>, room: nat, r: nat, i: nat)
    requires AllInBounds(rs) && 0 !in s.table && r < i < |Fold(Daemon(b), s, rs, [], room).frames|
    requires Hangs(rs, i, r)
    requires Produced(rs[r].h.opcode, Fold(Daemon(b), s, rs, [], room).frames[r].reply) == 0
    ensures var frames := Fold(Daemon(b), s, rs, [], room).frames;
            && frames[i].reply.Failed? && Produced(rs[i].h.opcode, frames[i].reply) == 0
            && Before(Daemon(b), s, rs, i + 1, room).state == Before(Daemon(b), s, rs, i, room).state
    decreases i
  {
    hide SubReply, Fold, Before, Produced, FramesSize;
    var frames, d := Fold(Daemon(b), s, rs, [], room).frames, rs[i].dep;
    if d > r {
      DeadChain(b, s, rs, room, r, d);
    } else if d < r {
      HangsBelow(rs, d, r);
    }
    FrameIsDispatch(Daemon(b), s, rs, room, i);
    NeverZero(b, s, rs, room, i);
    var o := Before(Daemon(b), s, rs, i, room);
    assert o.frames[d] == frames[d];
    ZeroFails(b, o.state, HeaderOf(rs, i, o), rs[i].args, room - FramesSize(o.frames) - OUT_HEADER);
  }

  /** Nothing hangs below a later subrequest. */
  lemma {:induction false} HangsBelow(rs: seq<SubReq>, i: nat, r: nat)
    requires i < r && i < |rs|
    ensures !Hangs(rs, i, r)
    decreases i
  {
    if rs[i].dep < i {
      HangsBelow(rs, rs[i].dep, r);
    }
  }
}
