/**
  Reading a directory in pieces. The passthrough daemon packs entries until one is
  refused and leaves the stream before it; the reader comes back with the offset of
  the last entry it got, and stops at an empty reply.
 */
module DirListing {
  import opened Bytes
  import opened Filesystem
  import opened Dirents

  datatype Item = Item(name: seq<byte>, ino: u64, kind: u32)

  /**
    An unchanging directory stream. `tell(i)` is the opaque cookie of position `i`
    and `seek` takes cookies back to positions; what `seek` does with other values
    is unknown. Reading position `i` may fail with an error.
   */
  datatype Directory = Directory(items: seq<Item>, tell: nat -> u64, seek: u64 -> nat, fault: nat -> Result<()>)

  /** Cookies are distinct and resolve; 0 is the beginning. */
  ghost predicate Coherent(d: Directory) {
    && d.seek(0) == 0
    && (forall i :: 0 <= i <= |d.items| ==> d.seek(d.tell(i)) == i)
    && (forall c: u64 :: d.seek(c) <= |d.items|)
  }

  /** Entry `i` as it goes on the wire: its offset resumes behind it. */
  function Record(d: Directory, i: nat): (e: Dirent)
    requires i < |d.items|
  {
    Dirent(d.items[i].name, d.items[i].ino, d.tell(i + 1), d.items[i].kind)
  }

  function Records(d: Directory, from: nat): (es: seq<Dirent>)
    requires from <= |d.items|
    ensures |es| == |d.items| - from
    ensures forall i :: 0 <= i < |es| ==> es[i] == Record(d, from + i)
    decreases |d.items| - from
  {
    if from == |d.items| then [] else [Record(d, from)] + Records(d, from + 1)
  }

  /** The entries are those of the directory from position `k` on, in order: names, inode
      numbers and kinds as they stand there, and offsets that resume behind each. */
  ghost predicate Lists(es: seq<Dirent>, d: Directory, k: nat) {
    forall i :: 0 <= i < |es| ==>
      && k + i < |d.items|
      && es[i].name == d.items[k + i].name && es[i].ino == d.items[k + i].ino && es[i].kind == d.items[k + i].kind
      && d.seek(es[i].off) == k + i + 1
  }

  /** What one call packs into `room` bytes from position `k`, and how it ends. */
  datatype Page = Page(entries: seq<Dirent>, result: Result<()>)

  function PageAt(d: Directory, k: nat, room: nat): (p: Page)
    requires k <= |d.items|
    ensures |PutAll(p.entries)| <= room
    ensures |p.entries| <= |d.items| - k
    decreases |d.items| - k
  {
    if d.fault(k).Err? then Page([], d.fault(k))
    else if k == |d.items| then Page([], Ok(()))
    else
      var size := RecordSize(|d.items[k].name|);
      if size > room then Page([], Ok(()))
      else
        var rest := PageAt(d, k + 1, room - size);
        Page([Record(d, k)] + rest.entries, rest.result)
  }

  // ---- Implementation ----------------------------------------------------

  /** A DIR* over an unchanging directory. */
  class Stream {
    const dir: Directory
    var pos: nat

    ghost predicate Valid()
      reads this
    {
      Coherent(dir) && pos <= |dir.items|
    }

    constructor (d: Directory)
      requires Coherent(d)
      ensures Valid() && dir == d && pos == 0
    {
      dir, pos := d, 0;
    }

    method Seek(off: u64)
      requires Valid()
      modifies this
      ensures Valid() && pos == dir.seek(off)
    {
      pos := dir.seek(off);
    }
  }

  /** Entries packed so far, and those a page from `k` will add. */
  function Onward(done: seq<Dirent>, d: Directory, k: nat, room: nat): (p: Page)
    requires k <= |d.items|
  {
    Page(done + PageAt(d, k, room).entries, PageAt(d, k, room).result)
  }

  lemma OnwardTake(done: seq<Dirent>, d: Directory, k: nat, room: nat)
    requires k < |d.items| && d.fault(k).Ok? && RecordSize(|d.items[k].name|) <= room
    ensures Onward(done, d, k, room) == Onward(done + [Record(d, k)], d, k + 1, room - RecordSize(|d.items[k].name|))
  {
    hide Record, RecordSize;
    var rest := PageAt(d, k + 1, room - RecordSize(|d.items[k].name|)).entries;
    assert done + ([Record(d, k)] + rest) == done + [Record(d, k)] + rest;
  }

  lemma OnwardStop(done: seq<Dirent>, d: Directory, k: nat, room: nat)
    requires k <= |d.items|
    requires d.fault(k).Err? || k == |d.items| || RecordSize(|d.items[k].name|) > room
    ensures Onward(done, d, k, room) == Page(done, if d.fault(k).Err? then d.fault(k) else Ok(()))
  {
    hide Record, RecordSize;
    assert done + [] == done;
  }

  /** A page reads back as the directory's next entries. */
  lemma PageReads(d: Directory, k: nat, room: nat)
    requires Coherent(d) && k <= |d.items| && room < TWO32
    ensures var es := PageAt(d, k, room).entries; Walk(PutAll(es)) == es && Lists(es, d, k)
  {
    hide Walk, PutAll, PageAt, Accepted, Attempts, Records, Lists;
    AttemptsAccepted(d, k, room);
    DirentRoundTrip(Attempts(d, k, room), room);
    PageIsPrefix(d, k, room);
    RecordsList(d, k, |PageAt(d, k, room).entries|);
  }

  /** A page ends early only at an error, at the directory's end, or where the next record does
      not fit into the room that is left. */
  lemma {:induction false} PageIsFull(d: Directory, k: nat, room: nat)
    requires k <= |d.items|
    ensures var p := PageAt(d, k, room);
            var at := k + |p.entries|;
            && at <= |d.items|
            && p.result == (if d.fault(at).Err? then d.fault(at) else Ok(()))
            && (d.fault(at).Ok? ==> at == |d.items| || |PutAll(p.entries)| + RecordSize(|d.items[at].name|) > room)
    decreases |d.items| - k
  {
    hide RecordSize, PutDirent, Record, PutAll;
    PutAllNone();
    if d.fault(k).Ok? && k < |d.items| && RecordSize(|d.items[k].name|) <= room {
      var rest := PageAt(d, k + 1, room - RecordSize(|d.items[k].name|)).entries;
      PageIsFull(d, k + 1, room - RecordSize(|d.items[k].name|));
      PutAllCons(Record(d, k), rest);
      RecordNamed(d, k);
    }
  }

  lemma RecordNamed(d: Directory, k: nat)
    requires k < |d.items|
    ensures Record(d, k).name == d.items[k].name
  {
  }

  /** PassthroughFs::readdir: the page from `start`, packed into the writer. A page that
      ends early without error leaves the stream at the first entry it lacks. What was
      written reads back as the directory's entries. */
  method ReadDir(s: Stream, start: u64, out: DirentWriter) returns (r: Result<()>)
    requires s.Valid() && out.Valid() && out.pos == 0
    modifies s, out`pos, out.buf
    ensures s.Valid() && out.Valid()
    ensures var k := s.dir.seek(start);
            var page := PageAt(s.dir, k, out.size);
            && r == page.result && out.Written() == PutAll(page.entries)
            && (r.Ok? ==> s.pos == k + |page.entries|)
            && (out.size < TWO32 ==> Walk(out.Written()) == page.entries && Lists(Walk(out.Written()), s.dir, k))
  {
    hide PageAt, PutAll, Walk, Lists;
    r := PackPage(s, start, out);
    if out.size < TWO32 {
      PageReads(s.dir, s.dir.seek(start), out.size);
    }
  }

  method PackPage(s: Stream, start: u64, out: DirentWriter) returns (r: Result<()>)
    requires s.Valid() && out.Valid() && out.pos == 0
    modifies s, out`pos, out.buf
    ensures s.Valid() && out.Valid()
    ensures var k := s.dir.seek(start);
            var page := PageAt(s.dir, k, out.size);
            && r == page.result && out.Written() == PutAll(page.entries)
            && (r.Ok? ==> s.pos == k + |page.entries|)
  {
    hide PageAt, PutDirent, RecordSize, Onward, PutAll;
    s.Seek(start);
    var off := start;
    ghost var d, k := s.dir, s.pos;
    ghost var done: seq<Dirent> := [];
    OnwardAll(d, k, out.size);
    PutAllNone();
    while true
      invariant s.Valid() && out.Valid() && s.dir == d && d.seek(off) == s.pos == k + |done|
      invariant out.Written() == PutAll(done)
      invariant PageAt(d, k, out.size) == Onward(done, d, s.pos, out.size - out.pos)
      decreases |d.items| - s.pos
    {
      var fault := s.dir.fault(s.pos);
      if fault.Err? {
        OnwardStop(done, d, s.pos, out.size - out.pos);
        return fault;
      }
      if s.pos == |s.dir.items| {
        OnwardStop(done, d, s.pos, out.size - out.pos);
        return Ok(());
      }
      ghost var at, room := s.pos, out.size - out.pos;
      var item := s.dir.items[s.pos];
      s.pos := s.pos + 1;
      var next := s.dir.tell(s.pos);
      var ok := out.Add(Dirent(item.name, item.ino, next, item.kind));
      if !ok {
        OnwardStop(done, d, at, room);
        s.Seek(off);
        return Ok(());
      }
      OnwardTake(done, d, at, room);
      PutAllSnoc(done, Record(d, at));
      done := done + [Record(d, at)];
      off := next;
    }
  }

  lemma OnwardAll(d: Directory, k: nat, room: nat)
    requires k <= |d.items|
    ensures PageAt(d, k, room) == Onward([], d, k, room)
  {
    assert [] + PageAt(d, k, room).entries == PageAt(d, k, room).entries;
  }

  // ---- Resumption --------------------------------------------------------

  /** The calls a daemon makes on its writer for one page: the page, then the refused entry. */
  function Attempts(d: Directory, k: nat, room: nat): (es: seq<Dirent>)
    requires k <= |d.items|
    decreases |d.items| - k
  {
    if d.fault(k).Err? || k == |d.items| then []
    else
      var size := RecordSize(|d.items[k].name|);
      [Record(d, k)] + if size > room then [] else Attempts(d, k + 1, room - size)
  }

  /** Seen through the writer, those calls leave the page. */
  lemma {:induction false} AttemptsAccepted(d: Directory, k: nat, room: nat)
    requires k <= |d.items|
    ensures Accepted(Attempts(d, k, room), room) == PageAt(d, k, room).entries
    decreases |d.items| - k
  {
    hide RecordSize, PutAll, Accepted;
    var e := if k < |d.items| then Record(d, k) else Dirent([], 0, 0, 0);
    if d.fault(k).Err? || k == |d.items| || RecordSize(|d.items[k].name|) > room {
      AcceptedCons(e, [], room);
      assert [e] + [] == [e];
    } else {
      var left := room - RecordSize(|d.items[k].name|);
      AttemptsAccepted(d, k + 1, left);
      AcceptedCons(e, Attempts(d, k + 1, left), room);
    }
  }

  /** A page is the next entries, in order. */
  lemma {:induction false} PageIsPrefix(d: Directory, k: nat, room: nat)
    requires k <= |d.items|
    ensures var n := |PageAt(d, k, room).entries|; PageAt(d, k, room).entries == Records(d, k)[..n]
    decreases |d.items| - k
  {
    hide RecordSize, Record;
    if d.fault(k).Ok? && k < |d.items| && RecordSize(|d.items[k].name|) <= room {
      PageIsPrefix(d, k + 1, room - RecordSize(|d.items[k].name|));
    }
  }

  ghost predicate Faultless(d: Directory) {
    forall i: nat :: d.fault(i).Ok?
  }

  /** A page is empty exactly at the end, or when the buffer cannot take the next entry. */
  lemma EmptyPage(d: Directory, k: nat, room: nat)
    requires Faultless(d) && k <= |d.items|
    ensures PageAt(d, k, room).entries == [] <==> k == |d.items| || room < RecordSize(|d.items[k].name|)
  {
    hide Record, RecordSize;
  }

  lemma RecordsSplit(d: Directory, k: nat, n: nat)
    requires k + n <= |d.items|
    ensures Records(d, k) == Records(d, k)[..n] + Records(d, k + n)
  {
    hide Record;
  }

  /** What a reader makes of one reply. */
  function Got(d: Directory, off: u64, room: nat): (es: seq<Dirent>)
    requires d.seek(off) <= |d.items|
  {
    Walk(PutAll(PageAt(d, d.seek(off), room).entries))
  }

  lemma GotIsPage(d: Directory, off: u64, room: nat)
    requires d.seek(off) <= |d.items| && room < TWO32
    ensures Got(d, off, room) == PageAt(d, d.seek(off), room).entries
  {
    AttemptsAccepted(d, d.seek(off), room);
    DirentRoundTrip(Attempts(d, d.seek(off), room), room);
  }

  /** The reader's loop: ask from `off`, stop on an empty reply, else go on from the last
      entry's offset. Call `i` offers a buffer of `rooms(i)` bytes. */
  ghost function Listing(d: Directory, off: u64, rooms: nat -> nat, i: nat): (es: seq<Dirent>)
    requires Coherent(d) && forall j: nat :: rooms(j) < TWO32
    decreases |d.items| - d.seek(off)
  {
    var es := Got(d, off, rooms(i));
    if es == [] then []
    else
      LastOffset(d, off, rooms(i));
      es + Listing(d, es[|es| - 1].off, rooms, i + 1)
  }

  /** The last entry's offset is the position behind it, so each reply makes progress. */
  lemma LastOffset(d: Directory, off: u64, room: nat)
    requires Coherent(d) && room < TWO32 && Got(d, off, room) != []
    ensures var es := Got(d, off, room);
            d.seek(es[|es| - 1].off) == d.seek(off) + |es| <= |d.items|
  {
    hide Walk, PutAll, PageAt;
    GotIsPage(d, off, room);
    PageIsPrefix(d, d.seek(off), room);
    var es, k := Got(d, off, room), d.seek(off);
    assert es[|es| - 1] == Records(d, k)[|es| - 1] == Record(d, k + |es| - 1);
  }

  /** Some call offers less than the next entry needs. */
  ghost predicate Starved(d: Directory, k: nat, rooms: nat -> nat, i: nat)
    requires k <= |d.items| && Faultless(d)
    decreases |d.items| - k
  {
    k < |d.items|
    && (rooms(i) < RecordSize(|d.items[k].name|)
        || (EmptyPage(d, k, rooms(i)); Starved(d, k + |PageAt(d, k, rooms(i)).entries|, rooms, i + 1)))
  }

  lemma ListingStep(d: Directory, off: u64, rooms: nat -> nat, i: nat)
    requires Coherent(d) && forall j: nat :: rooms(j) < TWO32
    ensures var es := Got(d, off, rooms(i));
            if es == [] then Listing(d, off, rooms, i) == []
            else
              && d.seek(es[|es| - 1].off) == d.seek(off) + |es| <= |d.items|
              && Listing(d, off, rooms, i) == es + Listing(d, es[|es| - 1].off, rooms, i + 1)
  {
    hide Got;
    var es := Got(d, off, rooms(i));
    if es != [] {
      LastOffset(d, off, rooms(i));
    }
  }

  lemma StarvedStep(d: Directory, k: nat, rooms: nat -> nat, i: nat)
    requires Faultless(d) && k <= |d.items|
    ensures var n := |PageAt(d, k, rooms(i)).entries|;
            && k + n <= |d.items|
            && (n == 0 ==> (Starved(d, k, rooms, i) <==> k < |d.items|))
            && (n > 0 ==> (Starved(d, k, rooms, i) <==> Starved(d, k + n, rooms, i + 1)))
  {
    hide PageAt, RecordSize;
    EmptyPage(d, k, rooms(i));
  }

  /** A page and a prefix of the records behind it are a prefix of the records from it on. */
  lemma PrefixOn(d: Directory, k: nat, page: seq<Dirent>, rest: seq<Dirent>)
    requires k + |page| <= |d.items| && page == Records(d, k)[..|page|]
    requires |rest| <= |d.items| - k - |page| && rest == Records(d, k + |page|)[..|rest|]
    ensures page + rest == Records(d, k)[..|page| + |rest|]
  {
    hide Records, Record;
    RecordsSplit(d, k, |page|);
    var rs, more := Records(d, k), Records(d, k + |page|);
    assert (rs[..|page|] + more)[..|page| + |rest|] == rs[..|page|] + more[..|rest|];
  }

  /** Resuming lists the directory's next entries, each once and in order, and all the rest of
      them exactly when no buffer was too small for the entry it was to start with. */
  lemma {:induction false} ListingComplete(d: Directory, off: u64, rooms: nat -> nat, i: nat)
    requires Coherent(d) && Faultless(d) && forall j: nat :: rooms(j) < TWO32
    ensures var es, rs := Listing(d, off, rooms, i), Records(d, d.seek(off));
            && |es| <= |rs| && es == rs[..|es|] && Lists(es, d, d.seek(off))
            && (|es| == |rs| <==> !Starved(d, d.seek(off), rooms, i))
    decreases |d.items| - d.seek(off)
  {
    hide Got, PageAt, RecordSize, Record, Records, Faultless, Listing, Starved, Lists;
    var k, es := d.seek(off), Got(d, off, rooms(i));
    GotIsPage(d, off, rooms(i));
    ListingStep(d, off, rooms, i);
    StarvedStep(d, k, rooms, i);
    if es != [] {
      var next := es[|es| - 1].off;
      ListingComplete(d, next, rooms, i + 1);
      PageIsPrefix(d, k, rooms(i));
      PrefixOn(d, k, es, Listing(d, next, rooms, i + 1));
    }
    RecordsList(d, k, |Listing(d, off, rooms, i)|);
  }

  lemma RecordsList(d: Directory, k: nat, n: nat)
    requires Coherent(d) && k + n <= |d.items|
    ensures Lists(Records(d, k)[..n], d, k)
  {
  }

  /** With buffers large enough for every entry, a listing from the start is the directory. */
  lemma ListingOfAll(d: Directory, rooms: nat -> nat)
    requires Coherent(d) && Faultless(d) && forall j: nat :: rooms(j) < TWO32
    requires forall i: nat, j: nat :: i < |d.items| ==> RecordSize(|d.items[i].name|) <= rooms(j)
    ensures var es := Listing(d, 0, rooms, 0); es == Records(d, 0) && |es| == |d.items| && Lists(es, d, 0)
  {
    hide Listing, Starved, RecordSize;
    ListingComplete(d, 0, rooms, 0);
    NeverStarved(d, 0, rooms, 0);
  }

  lemma {:induction false} NeverStarved(d: Directory, k: nat, rooms: nat -> nat, i: nat)
    requires Faultless(d) && k <= |d.items|
    requires forall i: nat, j: nat :: i < |d.items| ==> RecordSize(|d.items[i].name|) <= rooms(j)
    ensures !Starved(d, k, rooms, i)
    decreases |d.items| - k
  {
    hide PageAt, RecordSize;
    if k < |d.items| {
      EmptyPage(d, k, rooms(i));
      NeverStarved(d, k + |PageAt(d, k, rooms(i)).entries|, rooms, i + 1);
    }
  }
}
