/**
  The passthrough's handle tables over the process's descriptor table. Descriptor numbers are
  reused by the system as soon as they are closed, so what a number stands for is a
  description: which inode was opened, and as which of all the opens made so far. The file
  table and the directory table are two of these; `Io` is for files and `List` for directories.
 */
module Handles {
  import opened Bytes

  datatype Description = Description(node: u64, serial: nat)

  /** What the callbacks of one history do. `known` says whether the inode table has the
      inode, `ok` whether the system opens it. */
  datatype Op =
    | Open(node: u64, known: bool, ok: bool)
    | Release(handle: u64)
    | Io(node: u64, handle: u64, known: bool, ok: bool)
    | List(handle: u64)

  datatype Outcome = Opened(handle: u64) | Released | Used(what: Description) | Refused | BadHandle

  lemma KeysWith(m: map<u64, nat>, k: u64, v: nat)
    ensures m[k := v].Keys == m.Keys + {k} && (m - {k}).Keys == m.Keys - {k}
  {
  }

  class HandleTable {
    var entries: map<u64, nat>
    var lastId: u64
    var system: map<nat, Description>
    var serial: nat
    /** The description handle `i + 1` was opened with. */
    ghost var issued: seq<Description>
    ghost var holder: map<nat, u64>

    ghost predicate Valid()
      reads this
    {
      && lastId == |issued|
      && (forall h :: h in entries ==> 0 < h <= |issued|)
      && (forall h :: h in entries ==> entries[h] in system && system[entries[h]] == issued[h as int - 1])
      && (forall n :: n in system ==> n in holder && holder[n] in entries && entries[holder[n]] == n)
      && Serials(issued, serial)
    }

    constructor ()
      ensures Valid() && entries == map[] && system == map[] && issued == [] && lastId == 0
    {
      entries, lastId, system, serial, issued, holder := map[], 0, map[], 0, [], map[];
    }

    /** Two live handles never share a descriptor. */
    lemma Distinct(h: u64, k: u64)
      requires Valid() && h in entries && k in entries && h < k
      ensures entries[h] != entries[k]
    {
      assert issued[h as int - 1].serial < issued[k as int - 1].serial;
    }

    /** open and opendir: a handle never given out before, for a descriptor of the inode. */
    method OpenNode(node: u64, known: bool, ok: bool, number: nat) returns (r: Outcome)
      requires Valid() && number !in system && lastId + 1 < TWO64
      modifies this
      ensures Valid() && old(lastId) == |old(issued)|
      ensures r == if known && ok then Opened(old(lastId) + 1) else Refused
      ensures r == Refused ==>
        entries == old(entries) && system == old(system) && issued == old(issued) && serial == old(serial)
      ensures r.Opened? ==>
        && entries == old(entries)[r.handle := number] && r.handle !in old(entries) && serial == old(serial) + 1
        && system == old(system)[number := Description(node, old(serial))]
        && issued == old(issued) + [Description(node, old(serial))]
    {
      if !known || !ok { return Refused; }
      SerialsMore(issued, node, serial);
      system := system[number := Description(node, serial)];
      issued := issued + [Description(node, serial)];
      serial := serial + 1;
      lastId := lastId + 1;
      entries, holder := entries[lastId := number], holder[number := lastId];
      r := Opened(lastId);
    }

    /** release and releasedir: close the handle's descriptor and no other; a handle that is
        not live is ignored. */
    method ReleaseHandle(handle: u64)
      requires Valid()
      modifies this`entries, this`system
      ensures Valid() && entries == old(entries) - {handle}
      ensures system == if handle in old(entries) then old(system) - {old(entries)[handle]} else old(system)
    {
      hide Serials;
      if handle in entries {
        forall k | k in entries && k != handle ensures entries[k] != entries[handle] {
          if k < handle { Distinct(k, handle); } else { Distinct(handle, k); }
        }
        system := system - {entries[handle]};
        entries := entries - {handle};
      } else {
        assert entries - {handle} == entries;
      }
    }

    /** The descriptor of a live handle; -1 for the zero handle or one not in the table. */
    method FileFd(handle: u64) returns (fd: int)
      requires Valid()
      ensures fd == if handle in entries then entries[handle] else -1
    {
      if handle == 0 { return -1; }
      fd := if handle in entries then entries[handle] else -1;
    }

    /** read, write and fallocate: I/O goes to what the live handle was opened with, else to a
        descriptor of the inode opened for this call and closed at its end. */
    method UseFile(node: u64, handle: u64, known: bool, ok: bool, number: nat) returns (r: Outcome)
      requires Valid() && number !in system
      modifies this`system, this`serial
      ensures Valid() && system == old(system)
      ensures handle in entries ==> 0 < handle <= |issued| && r == Used(issued[handle as int - 1]) && serial == old(serial)
      ensures handle !in entries ==>
        && r == (if known && ok then Used(Description(node, old(serial))) else Refused)
        && serial == old(serial) + if known && ok then 1 else 0
    {
      var fd := FileFd(handle);
      if fd >= 0 { return Used(system[fd]); }
      if !known || !ok { return Refused; }
      system := system[number := Description(node, serial)];
      serial := serial + 1;
      r := Used(system[number]);
      system := system - {number};
      assert system == old(system);
    }

    /** readdir finds the stream a live handle was opened with; any other handle is EBADF. */
    method ListDir(handle: u64) returns (r: Outcome)
      requires Valid()
      ensures handle in entries ==> 0 < handle <= |issued| && r == Used(issued[handle as int - 1])
      ensures handle !in entries ==> r == BadHandle
    {
      if handle !in entries { return BadHandle; }
      r := Used(system[entries[handle]]);
    }

    method Perform(op: Op, number: nat) returns (r: Outcome)
      requires Valid() && lastId + 1 < TWO64 && number !in system
      modifies this
      ensures Valid() && |issued| <= |old(issued)| + 1
      ensures Did(old(issued), old(entries.Keys), old(serial), op, r, issued, entries.Keys, serial)
    {
      hide Valid;
      match op
      case Open(node, known, ok) =>
        KeysWith(entries, lastId + 1, number);
        r := OpenNode(node, known, ok, number);
      case Release(handle) =>
        KeysWith(entries, handle, number);
        ReleaseHandle(handle);
        r := Released;
      case Io(node, handle, known, ok) =>
        r := UseFile(node, handle, known, ok, number);
      case List(handle) =>
        r := ListDir(handle);
    }

    /** Any sequential history, with whatever free numbers the system gives: every outcome is
        the one the operations before it call for. */
    method History(ops: seq<Op>, free: (nat, set<nat>) -> nat) returns (rs: seq<Outcome>)
      requires Valid() && lastId == 0 && entries == map[] && |ops| + 1 < TWO64
      requires forall k: nat, s: set<nat> :: free(k, s) !in s
      modifies this
      ensures Valid() && |rs| == |ops| && Kept(ops, rs, issued)
      ensures forall h: u64 :: h in entries <==> Live(ops, rs, h)
    {
      hide Kept, Live, Did, Serials, Below;
      rs := [];
      NothingKept(serial);
      for k := 0 to |ops|
        invariant Valid() && |rs| == k && |issued| <= k
        invariant Kept(ops[..k], rs, issued) && Below(rs, serial)
        invariant forall h: u64 :: h in entries <==> Live(ops[..k], rs, h)
      {
        ghost var was, live, serial0 := issued, entries.Keys, serial;
        var r := Perform(ops[k], free(k, system.Keys));
        assert ops[..k + 1] == ops[..k] + [ops[k]];
        Step(ops[..k], rs, was, live, serial0, ops[k], r, issued, entries.Keys, serial);
        rs := rs + [r];
      }
      assert ops[..|ops|] == ops;
    }
  }

  // ---- What the outcomes of a history mean -------------------------------

  ghost predicate Serials(issued: seq<Description>, serial: nat) {
    && (forall i :: 0 <= i < |issued| ==> issued[i].serial < serial)
    && (forall i, j :: 0 <= i < j < |issued| ==> issued[i].serial < issued[j].serial)
  }

  lemma SerialsMore(issued: seq<Description>, node: u64, serial: nat)
    requires Serials(issued, serial)
    ensures Serials(issued + [Description(node, serial)], serial + 1)
  {
  }

  /** Handle `h` was given out and has not been released since. */
  ghost predicate Live(ops: seq<Op>, rs: seq<Outcome>, h: u64)
    requires |rs| == |ops|
  {
    exists i :: 0 <= i < |rs| && rs[i] == Opened(h) && Unreleased(ops, h, i)
  }

  ghost predicate Unreleased(ops: seq<Op>, h: u64, i: nat) {
    forall m :: i < m < |ops| ==> ops[m] != Release(h)
  }

  /** Handles are nonzero and never reissued, and each was opened on the inode asked for. */
  ghost predicate Handed(ops: seq<Op>, rs: seq<Outcome>, issued: seq<Description>)
    requires |rs| == |ops|
  {
    && (forall i :: 0 <= i < |rs| && rs[i].Opened? ==>
          0 < rs[i].handle <= |issued| && ops[i].Open? && issued[rs[i].handle as int - 1].node == ops[i].node)
    && (forall i, j :: 0 <= i < j < |rs| && rs[i].Opened? && rs[j].Opened? ==> rs[i].handle < rs[j].handle)
  }

  /** I/O or listing on a live handle uses the one description the handle was opened with. I/O
      on any other handle uses a description of the inode that no handle was ever opened with,
      or is refused if there is none; listing any other handle fails. */
  ghost predicate Fits(op: Op, r: Outcome, live: bool, issued: seq<Description>) {
    match op
    case Open(_, known, ok) => if known && ok then r.Opened? else r == Refused
    case Release(_) => r == Released
    case Io(node, h, known, ok) =>
      if live then 0 < h <= |issued| && r == Used(issued[h as int - 1])
      else if known && ok then r.Used? && r.what.node == node && r.what !in issued
      else r == Refused
    case List(h) => if live then 0 < h <= |issued| && r == Used(issued[h as int - 1]) else r == BadHandle
  }

  ghost predicate LiveBefore(ops: seq<Op>, rs: seq<Outcome>, j: nat)
    requires |rs| == |ops| && j < |ops|
  {
    (ops[j].Io? || ops[j].List?) && Live(ops[..j], rs[..j], ops[j].handle)
  }

  ghost predicate Kept(ops: seq<Op>, rs: seq<Outcome>, issued: seq<Description>)
    requires |rs| == |ops|
  {
    && Handed(ops, rs, issued)
    && forall j :: 0 <= j < |ops| ==> Fits(ops[j], rs[j], LiveBefore(ops, rs, j), issued)
  }

  /** The zero handle is never live, and neither is a handle once it has been released. */
  lemma DeadHandles(ops: seq<Op>, rs: seq<Outcome>, issued: seq<Description>, h: u64)
    requires |rs| == |ops| && Handed(ops, rs, issued)
    ensures !Live(ops, rs, 0)
    ensures (exists i, m :: 0 <= i < m < |ops| && rs[i] == Opened(h) && ops[m] == Release(h)) ==> !Live(ops, rs, h)
  {
  }

  /** Nothing used so far is as recent as the next description. */
  ghost predicate Below(rs: seq<Outcome>, serial: nat) {
    forall j :: 0 <= j < |rs| && rs[j].Used? ==> rs[j].what.serial < serial
  }

  lemma NothingKept(serial: nat)
    ensures Kept([], [], []) && Below([], serial) && forall h: u64 :: !Live([], [], h)
  {
  }

  /** What one operation does to the handles given out, those still live, and the serials. */
  ghost predicate Did(was: seq<Description>, live: set<u64>, serial0: nat, op: Op, r: Outcome,
                      now: seq<Description>, left: set<u64>, serial: nat)
  {
    && (r.Opened? ==>
          && op.Open? && r.handle == |was| + 1 && now == was + [Description(op.node, serial0)]
          && left == live + {r.handle} && serial == serial0 + 1)
    && (!r.Opened? ==> now == was && left == live - (if op.Release? then {op.handle} else {}) && serial0 <= serial)
    && (r.Used? && op.Io? && op.handle !in live ==> r.what == Description(op.node, serial0) && serial == serial0 + 1)
    && (op.Open? ==> if op.known && op.ok then r.Opened? else r == Refused)
    && (op.Release? ==> r == Released)
    && (op.Io? && op.handle !in live ==> if op.known && op.ok then r.Used? else r == Refused)
    && (op.List? && op.handle !in live ==> r == BadHandle)
    && ((op.Io? || op.List?) && op.handle in live ==> 0 < op.handle <= |now| && r == Used(now[op.handle as int - 1]))
  }

  lemma LiveSnoc(ops: seq<Op>, rs: seq<Outcome>, op: Op, r: Outcome, h: u64)
    requires |rs| == |ops| && (r.Opened? ==> op.Open?)
    ensures Live(ops + [op], rs + [r], h) <==> r == Opened(h) || (Live(ops, rs, h) && op != Release(h))
  {
    var ops1, rs1, k := ops + [op], rs + [r], |ops|;
    if r == Opened(h) {
      assert rs1[k] == Opened(h) && Unreleased(ops1, h, k);
    }
    if Live(ops, rs, h) && op != Release(h) {
      var i :| 0 <= i < |rs| && rs[i] == Opened(h) && Unreleased(ops, h, i);
      assert rs1[i] == Opened(h) && Unreleased(ops1, h, i);
    }
    if Live(ops1, rs1, h) && r != Opened(h) {
      var i :| 0 <= i < |rs1| && rs1[i] == Opened(h) && Unreleased(ops1, h, i);
      assert ops1[k] != Release(h);
      assert forall m :: i < m < k ==> ops1[m] == ops[m];
      assert rs[i] == Opened(h) && Unreleased(ops, h, i);
    }
  }

  lemma HandedStep(ops: seq<Op>, rs: seq<Outcome>, was: seq<Description>, op: Op, r: Outcome, now: seq<Description>)
    requires |rs| == |ops| && Handed(ops, rs, was) && was <= now
    requires r.Opened? ==> op.Open? && r.handle == |was| + 1 == |now| && now[|was|].node == op.node
    ensures Handed(ops + [op], rs + [r], now)
  {
  }

  /** An outcome that fitted still fits when more is issued later. */
  lemma FitsLater(op: Op, r: Outcome, live: bool, was: seq<Description>, now: seq<Description>, serial0: nat)
    requires Fits(op, r, live, was) && (r.Used? ==> r.what.serial < serial0)
    requires now == was || (|now| == |was| + 1 && now[..|was|] == was && now[|was|].serial == serial0)
    ensures Fits(op, r, live, now)
  {
    assert forall d :: d in now ==> d in was || d.serial == serial0;
  }

  lemma FitsNow(was: seq<Description>, live: set<u64>, serial0: nat, op: Op, r: Outcome,
                now: seq<Description>, left: set<u64>, serial: nat)
    requires Did(was, live, serial0, op, r, now, left, serial) && Serials(was, serial0)
    ensures Fits(op, r, (op.Io? || op.List?) && op.handle in live, now)
    ensures r.Used? ==> r.what.serial < serial
  {
  }

  lemma Step(ops: seq<Op>, rs: seq<Outcome>, was: seq<Description>, live: set<u64>, serial0: nat, op: Op, r: Outcome,
             now: seq<Description>, left: set<u64>, serial: nat)
    requires |rs| == |ops| && Kept(ops, rs, was) && Below(rs, serial0) && Serials(was, serial0)
    requires (forall h: u64 :: h in live <==> Live(ops, rs, h)) && Did(was, live, serial0, op, r, now, left, serial)
    ensures Kept(ops + [op], rs + [r], now) && Below(rs + [r], serial)
    ensures forall h: u64 :: h in left <==> Live(ops + [op], rs + [r], h)
  {
    hide Live, Handed, Fits, Serials;
    var ops1, rs1, k := ops + [op], rs + [r], |ops|;
    forall h: u64 ensures h in left <==> Live(ops1, rs1, h) {
      LiveSnoc(ops, rs, op, r, h);
    }
    HandedStep(ops, rs, was, op, r, now);
    FitsNow(was, live, serial0, op, r, now, left, serial);
    forall j | 0 <= j < |ops1| ensures Fits(ops1[j], rs1[j], LiveBefore(ops1, rs1, j), now) {
      assert ops1[..j] == ops[..j] && rs1[..j] == rs[..j];
      if j < k {
        FitsLater(ops[j], rs[j], LiveBefore(ops, rs, j), was, now, serial0);
      } else {
        assert ops[..k] == ops && rs[..k] == rs;
      }
    }
  }
}
