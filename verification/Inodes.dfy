/**
  The passthrough daemon's inode table: nodeid to inode, with the lookup count
  the kernel is believed to hold. FORGET subtracts, saturating at zero, and an
  inode leaves the table when its count reaches zero. The root never leaves.
 */
module Inodes {
  import opened Bytes

  const ROOT: u64 := 1

  // ---- Specification -----------------------------------------------------

  /** Lookup counts by nodeid. */
  type Counts = map<u64, u64>

  function CountOf(t: Counts, k: u64): (n: u64) { if k in t then t[k] else 0 }

  /** No entry with a zero count, and the root is present. */
  predicate Sound(t: Counts) {
    ROOT in t && forall k :: k in t ==> t[k] > 0
  }

  /** Counts one more lookup. The counter is 64 bits wide. */
  function Inserted(t: Counts, ino: u64): (r: Counts) {
    t[ino := (CountOf(t, ino) + 1) % TWO64]
  }

  function Forgotten(t: Counts, k: u64, n: u64): (r: Counts) {
    if k == ROOT || k !in t then t
    else if n >= t[k] then t - {k}
    else t[k := t[k] - n]
  }

  function ForgottenAll(t: Counts, items: seq<(u64, u64)>): (r: Counts) {
    if items == [] then t else ForgottenAll(Forgotten(t, items[0].0, items[0].1), items[1..])
  }

  /** How much a batch subtracts from one nodeid in all. */
  function Total(items: seq<(u64, u64)>, k: u64): (n: nat) {
    if items == [] then 0 else (if items[0].0 == k then items[0].1 else 0) + Total(items[1..], k)
  }

  function Monus(a: nat, b: nat): (d: nat) { if b >= a then 0 else a - b }

  // ---- What a batch does -------------------------------------------------

  /** What a batch subtracts from one nodeid's count, in any table. */
  lemma {:induction false} ForgetCounts(t: Counts, items: seq<(u64, u64)>, k: u64)
    ensures CountOf(ForgottenAll(t, items), k)
         == if k == ROOT then CountOf(t, k) else Monus(CountOf(t, k), Total(items, k))
    decreases |items|
  {
    if items != [] {
      ForgetCounts(Forgotten(t, items[0].0, items[0].1), items[1..], k);
    }
  }

  /** A batch is a per-nodeid saturating subtraction of its totals, entries that
      reach zero leave, and the root is untouched. */
  lemma {:induction false} ForgetSubtracts(t: Counts, items: seq<(u64, u64)>, k: u64)
    requires Sound(t)
    ensures Sound(ForgottenAll(t, items))
    ensures k == ROOT ==> CountOf(ForgottenAll(t, items), k) == t[k]
    ensures k != ROOT ==> CountOf(ForgottenAll(t, items), k) == Monus(CountOf(t, k), Total(items, k))
    decreases |items|
  {
    if items != [] {
      ForgetSubtracts(Forgotten(t, items[0].0, items[0].1), items[1..], k);
    }
  }

  lemma SameCounts(a: Counts, b: Counts)
    requires Sound(a) && Sound(b)
    requires forall k: u64 :: CountOf(a, k) == CountOf(b, k)
    ensures a == b
  {
    forall k: u64
      ensures k in a <==> k in b
    {
      assert CountOf(a, k) == CountOf(b, k);
    }
    forall k | k in a
      ensures a[k] == b[k]
    {
      assert CountOf(a, k) == CountOf(b, k);
    }
  }

  /** Only the totals matter: reordering a batch, merging its items or splitting
      them gives the same table. */
  lemma ForgetDependsOnTotals(t: Counts, a: seq<(u64, u64)>, b: seq<(u64, u64)>)
    requires Sound(t) && forall k: u64 :: k != ROOT ==> Total(a, k) == Total(b, k)
    ensures ForgottenAll(t, a) == ForgottenAll(t, b)
  {
    forall k: u64
      ensures CountOf(ForgottenAll(t, a), k) == CountOf(ForgottenAll(t, b), k)
    {
      ForgetSubtracts(t, a, k);
      ForgetSubtracts(t, b, k);
    }
    ForgetSubtracts(t, a, ROOT);
    ForgetSubtracts(t, b, ROOT);
    SameCounts(ForgottenAll(t, a), ForgottenAll(t, b));
  }

  lemma {:induction false} TotalConcat(a: seq<(u64, u64)>, b: seq<(u64, u64)>, k: u64)
    ensures Total(a + b, k) == Total(a, k) + Total(b, k)
  {
    if a == [] {
      assert a + b == b;
    } else {
      assert (a + b)[1..] == a[1..] + b;
      TotalConcat(a[1..], b, k);
    }
  }

  lemma TotalWithout(b: seq<(u64, u64)>, i: nat, k: u64)
    requires i < |b|
    ensures Total(b, k) == (if b[i].0 == k then b[i].1 else 0) + Total(b[..i] + b[i + 1..], k)
  {
    assert b == b[..i] + ([b[i]] + b[i + 1..]);
    TotalConcat(b[..i], [b[i]] + b[i + 1..], k);
    TotalConcat(b[..i], b[i + 1..], k);
    assert ([b[i]] + b[i + 1..])[1..] == b[i + 1..];
  }

  lemma Without<T>(s: seq<T>, i: nat)
    requires i < |s|
    ensures multiset(s[..i] + s[i + 1..]) == multiset(s) - multiset{s[i]}
  {
    assert s == s[..i] + [s[i]] + s[i + 1..];
  }

  lemma FindIn<T>(a: seq<T>, b: seq<T>) returns (i: nat)
    requires a != [] && multiset(a) == multiset(b)
    ensures i < |b| && b[i] == a[0]
  {
    assert a[0] in multiset(b);
    i :| 0 <= i < |b| && b[i] == a[0];
  }

  lemma {:induction false} TotalPermuted(a: seq<(u64, u64)>, b: seq<(u64, u64)>, k: u64)
    requires multiset(a) == multiset(b)
    ensures Total(a, k) == Total(b, k)
    decreases |a|
  {
    hide Total;
    if a == [] {
      assert |multiset(b)| == 0;
    } else {
      var i := FindIn(a, b);
      Without(b, i);
      Without(a, 0);
      TotalPermuted(a[..0] + a[1..], b[..i] + b[i + 1..], k);
      TotalWithout(a, 0, k);
      TotalWithout(b, i, k);
    }
  }

  /** The order of a batch's items is irrelevant. */
  lemma ForgetPermuted(t: Counts, a: seq<(u64, u64)>, b: seq<(u64, u64)>)
    requires Sound(t) && multiset(a) == multiset(b)
    ensures ForgottenAll(t, a) == ForgottenAll(t, b)
  {
    forall k: u64 | k != ROOT
      ensures Total(a, k) == Total(b, k)
    {
      TotalPermuted(a, b, k);
    }
    ForgetDependsOnTotals(t, a, b);
  }

  lemma {:induction false} ForgottenSnoc(t: Counts, items: seq<(u64, u64)>, x: (u64, u64))
    ensures ForgottenAll(t, items + [x]) == Forgotten(ForgottenAll(t, items), x.0, x.1)
    decreases |items|
  {
    if items == [] {
      assert (items + [x])[1..] == [];
    } else {
      assert (items + [x])[1..] == items[1..] + [x];
      ForgottenSnoc(Forgotten(t, items[0].0, items[0].1), items[1..], x);
    }
  }

  /** A lookup adds one to its own nodeid and leaves the others, short of counter wrap. */
  lemma InsertAdds(t: Counts, ino: u64, k: u64)
    requires Sound(t) && CountOf(t, ino) + 1 < TWO64
    ensures Sound(Inserted(t, ino))
    ensures CountOf(Inserted(t, ino), k) == CountOf(t, k) + if k == ino then 1 else 0
  {
  }

  // ---- Implementation ----------------------------------------------------

  /** An inode shared between the table and the callbacks that hold it. */
  class Inode {
    const fd: int
    var nlookup: u64

    constructor (fd: int)
      ensures this.fd == fd && nlookup == 0
    {
      this.fd, this.nlookup := fd, 0;
    }
  }

  class InodeTable {
    var map_: map<u64, Inode>

    /** Distinct nodeids have distinct inodes. */
    ghost predicate Valid()
      reads this
    {
      forall j, k :: j in map_ && k in map_ && j != k ==> map_[j] != map_[k]
    }

    ghost function Table(): (t: Counts)
      reads this, map_.Values
    {
      map k | k in map_ :: map_[k].nlookup
    }

    constructor (rootFd: int)
      ensures Valid() && Table() == map[ROOT := 1] && ROOT in map_ && map_[ROOT].fd == rootFd && fresh(map_.Values)
    {
      var root := new Inode(rootFd);
      root.nlookup := 1;
      map_ := map[ROOT := root];
    }

    method Get(n: u64) returns (r: Inode?)
      ensures r == if n in map_ then map_[n] else null
    {
      r := if n in map_ then map_[n] else null;
    }

    /** A first lookup adopts the descriptor; a later one keeps the original inode. */
    method Insert(fd: int, ino: u64) returns (nodeid: u64)
      requires Valid()
      modifies this, map_.Values
      ensures Valid() && nodeid == ino && Table() == Inserted(old(Table()), ino)
      ensures forall k :: k in old(map_) ==> k in map_ && map_[k] == old(map_[k])
      ensures ino !in old(map_) ==> ino in map_ && fresh(map_[ino]) && map_[ino].fd == fd
    {
      if ino !in map_ {
        var node := new Inode(fd);
        map_ := map_[ino := node];
      }
      var node := map_[ino];
      node.nlookup := (node.nlookup + 1) % TWO64;
      nodeid := ino;
    }

    method ForgetLocked(key: u64, n: u64)
      requires Valid() && key != ROOT
      modifies this, map_.Values
      ensures Valid() && Table() == Forgotten(old(Table()), key, n)
      ensures map_.Keys <= old(map_.Keys) && forall k :: k in map_ ==> map_[k] == old(map_[k])
    {
      if key !in map_ {
        return;
      }
      var node := map_[key];
      node.nlookup := if n >= node.nlookup then 0 else node.nlookup - n;
      if node.nlookup == 0 {
        map_ := map_ - {key};
      }
    }

    method Forget(nid: u64, n: u64)
      requires Valid()
      modifies this, map_.Values
      ensures Valid() && Table() == Forgotten(old(Table()), nid, n)
    {
      if nid == ROOT {
        return;
      }
      ForgetLocked(nid, n);
    }

    /** The batch under one lock equals the default per-item loop. */
    method ForgetMany(items: seq<(u64, u64)>)
      requires Valid()
      modifies this, map_.Values
      ensures Valid() && Table() == ForgottenAll(old(Table()), items)
    {
      for i := 0 to |items|
        invariant Valid() && Table() == ForgottenAll(old(Table()), items[..i])
        invariant map_.Keys <= old(map_.Keys) && forall k :: k in map_ ==> map_[k] == old(map_[k])
      {
        ForgottenSnoc(old(Table()), items[..i], items[i]);
        assert items[..i] + [items[i]] == items[..i + 1];
        var (nid, n) := items[i];
        if nid == ROOT {
          continue;
        }
        ForgetLocked(nid, n);
      }
      assert items[..|items|] == items;
    }
  }
}
