/**
  The sender's side of the request arguments, and that decoding undoes it:
  whatever a request was built from reaches the callback. Five handlers read
  part of the body from offset 0 instead of behind the extensions; for those,
  decoding is faithful exactly when there are none.
 */
module RequestCodec {
  import opened Bytes
  import opened Wire
  import opened Filesystem
  import opened Requests

  lemma Field32(pre: seq<byte>, v: u32, post: seq<byte>)
    ensures At32(pre + Put32(v) + post, |pre|) == v
  {
    Middle(pre, Put32(v), post);
    At32Put(pre + Put32(v) + post, |pre|, v);
  }

  lemma Field64(pre: seq<byte>, v: u64, post: seq<byte>)
    ensures At64(pre + Put64(v) + post, |pre|) == v
  {
    Middle(pre, Put64(v), post);
    At64Put(pre + Put64(v) + post, |pre|, v);
  }

  /** A terminated name behind `pre`. */
  lemma NameBehind(pre: seq<byte>, name: seq<byte>, rest: seq<byte>)
    requires NulFree(name)
    ensures var body, off := pre + (name + [0] + rest), |pre|;
            && StrNLen(body[off..]) == |name| && off + |name| < |body| && body[off..off + |name|] == name
  {
    hide StrNLen;
    var body, off := pre + (name + [0] + rest), |pre|;
    assert body[off..] == name + [0] + rest;
    StrNLenOfTerminated(name, rest);
  }

  // ---- Extension-aware requests ----------------------------------------

  function PutRename2(newDir: u64, flags: u32, pad: u32, oldName: seq<byte>, newName: seq<byte>): (s: seq<byte>) {
    Put64(newDir) + Put32(flags) + Put32(pad) + (oldName + [0] + (newName + [0]))
  }

  lemma Rename2RoundTrip(h: InHeader, ext: seq<byte>, newDir: u64, flags: u32, pad: u32,
                         oldName: seq<byte>, newName: seq<byte>, rest: seq<byte>)
    requires |ext| == h.Ext() && NulFree(oldName) && NulFree(newName)
    ensures DecodeRename2(h, ext + PutRename2(newDir, flags, pad, oldName, newName) + rest)
         == Ok(Unit(Rename(Ctx(h), h.nodeid, oldName, newDir, newName, flags)))
  {
    hide Put64, Put32, At64, At32, StrNLen;
    var names := oldName + [0] + (newName + [0] + rest);
    var body := ext + PutRename2(newDir, flags, pad, oldName, newName) + rest;
    Rename2Fields(ext, newDir, flags, pad, names);
    assert body == ext + (Put64(newDir) + Put32(flags) + Put32(pad) + names);
    assert body[h.Ext() + 16..] == names;
    TwoNames(oldName, newName, rest);
  }

  lemma Rename2Fields(ext: seq<byte>, newDir: u64, flags: u32, pad: u32, names: seq<byte>)
    ensures var body := ext + (Put64(newDir) + Put32(flags) + Put32(pad) + names);
            At64(body, |ext|) == newDir && At32(body, |ext| + 8) == flags
  {
    var body, a, b, c := ext + (Put64(newDir) + Put32(flags) + Put32(pad) + names), Put64(newDir), Put32(flags), Put32(pad);
    assert body == ext + a + (b + c + names);
    Field64(ext, newDir, b + c + names);
    assert body == (ext + a) + b + (c + names);
    Field32(ext + a, flags, c + names);
  }

  lemma TwoNames(oldName: seq<byte>, newName: seq<byte>, rest: seq<byte>)
    requires NulFree(oldName) && NulFree(newName)
    ensures var names := oldName + [0] + (newName + [0] + rest);
            && StrNLen(names) == |oldName| && names[..|oldName|] == oldName
            && var second := names[|oldName| + 1..];
               |second| > |newName| && StrNLen(second) == |newName| && second[..|newName|] == newName
  {
    var names := oldName + [0] + (newName + [0] + rest);
    StrNLenOfTerminated(oldName, newName + [0] + rest);
    var second := names[|oldName| + 1..];
    assert second == newName + [0] + rest;
    StrNLenOfTerminated(newName, rest);
  }

  function PutLink(oldNode: u64, name: seq<byte>): (s: seq<byte>) {
    Put64(oldNode) + (name + [0])
  }

  lemma LinkRoundTrip(h: InHeader, ext: seq<byte>, oldNode: u64, name: seq<byte>, rest: seq<byte>)
    requires |ext| == h.Ext() && NulFree(name)
    ensures DecodeLink(h, ext + PutLink(oldNode, name) + rest) == Ok(Unit(Link(Ctx(h), oldNode, h.nodeid, name)))
  {
    hide Put64, At64, StrNLen;
    assert ext + PutLink(oldNode, name) + rest == ext + Put64(oldNode) + (name + [0] + rest);
    Field64(ext, oldNode, name + [0] + rest);
    NameBehind(ext + Put64(oldNode), name, rest);
  }

  function PutGetxattr(size: u32, pad: u32, name: seq<byte>): (s: seq<byte>) {
    Put32(size) + Put32(pad) + (name + [0])
  }

  /** A zero size reaches the size query, any other size a span of at most the reply room. */
  lemma GetxattrRoundTrip(h: InHeader, ext: seq<byte>, size: u32, pad: u32, name: seq<byte>, rest: seq<byte>, cap: nat)
    requires |ext| == h.Ext() && NulFree(name)
    ensures DecodeGetxattr(h, ext + PutGetxattr(size, pad, name) + rest, cap)
         == if size == 0 then Ok(Count(GetxattrSize(Ctx(h), h.nodeid, name)))
            else Ok(Fill(Getxattr(Ctx(h), h.nodeid, name, Min(size, cap))))
  {
    hide Put32, At32, StrNLen;
    var body, names := ext + PutGetxattr(size, pad, name) + rest, name + [0] + rest;
    assert body == ext + Put32(size) + (Put32(pad) + names);
    Field32(ext, size, Put32(pad) + names);
    assert body == (ext + Put32(size) + Put32(pad)) + names;
    NameBehind(ext + Put32(size) + Put32(pad), name, rest);
  }

  function PutSetxattr(flags: u32, more: u32, pad: u32, name: seq<byte>, value: seq<byte>): (s: seq<byte>)
    requires |value| < TWO32
  {
    Put32(|value|) + Put32(flags) + Put32(more) + Put32(pad) + (name + [0] + value)
  }

  lemma SetxattrRoundTrip(h: InHeader, ext: seq<byte>, flags: u32, more: u32, pad: u32,
                          name: seq<byte>, value: seq<byte>, rest: seq<byte>)
    requires |ext| == h.Ext() && NulFree(name) && |value| < TWO32
    ensures DecodeSetxattr(h, ext + PutSetxattr(flags, more, pad, name, value) + rest)
         == Ok(Unit(Setxattr(Ctx(h), h.nodeid, name, value, flags)))
  {
    hide Put32, At32;
    var body, tail := ext + PutSetxattr(flags, more, pad, name, value) + rest, name + [0] + (value + rest);
    var fields := Put32(|value|) + Put32(flags) + Put32(more) + Put32(pad);
    assert body == ext + (fields + tail);
    SetxattrFields(ext, |value|, flags, Put32(more) + Put32(pad) + tail);
    assert body == ext + (Put32(|value|) + Put32(flags) + (Put32(more) + Put32(pad) + tail));
    assert body[h.Ext() + 16..] == tail;
    SetxattrDecoded(h, body, name, value, rest, flags);
  }

  lemma SetxattrFields(ext: seq<byte>, size: u32, flags: u32, rest: seq<byte>)
    ensures var body := ext + (Put32(size) + Put32(flags) + rest);
            At32(body, |ext|) == size && At32(body, |ext| + 4) == flags
  {
    var body, a, b := ext + (Put32(size) + Put32(flags) + rest), Put32(size), Put32(flags);
    assert body == ext + a + (b + rest);
    Field32(ext, size, b + rest);
    assert body == (ext + a) + b + rest;
    Field32(ext + a, flags, rest);
  }

  lemma SetxattrDecoded(h: InHeader, body: seq<byte>, name: seq<byte>, value: seq<byte>, rest: seq<byte>, flags: u32)
    requires NulFree(name) && |value| < TWO32
    requires HasArg(h, body, 16) && body[h.Ext() + 16..] == name + [0] + (value + rest)
    requires At32(body, h.Ext()) == |value| && At32(body, h.Ext() + 4) == flags
    ensures DecodeSetxattr(h, body) == Ok(Unit(Setxattr(Ctx(h), h.nodeid, name, value, flags)))
  {
    var off, tail := h.Ext() + 16, name + [0] + (value + rest);
    StrNLenOfTerminated(name, value + rest);
    assert tail[..|name|] == name && tail[|name| + 1..][..|value|] == value;
    assert body[off..off + |name|] == body[off..][..|name|];
    var after := off + |name| + 1;
    assert body[after..after + |value|] == body[off..][|name| + 1..][..|value|];
  }

  function PutWrite(fh: u64, offset: u64, flags: u32, rest: seq<byte>, data: seq<byte>): (s: seq<byte>)
    requires |data| < TWO32 && |rest| == 16
  {
    Put64(fh) + Put64(offset) + Put32(|data|) + Put32(flags) + rest + data
  }

  /** The head that READ, READDIR and WRITE share: handle, offset, size. */
  lemma IoFields(ext: seq<byte>, fh: u64, offset: u64, size: u32, rest: seq<byte>)
    ensures var body := ext + (Put64(fh) + Put64(offset) + Put32(size) + rest);
            At64(body, |ext|) == fh && At64(body, |ext| + 8) == offset && At32(body, |ext| + 16) == size
  {
    hide Put64, Put32, At64, At32;
    var a, b, c := Put64(fh), Put64(offset), Put32(size);
    var body := ext + (a + b + c + rest);
    assert body == ext + a + (b + c + rest);
    Field64(ext, fh, b + c + rest);
    assert body == (ext + a) + b + (c + rest);
    Field64(ext + a, offset, c + rest);
    assert body == (ext + a + b) + c + rest;
    Field32(ext + a + b, size, rest);
  }

  lemma WriteRoundTrip(h: InHeader, ext: seq<byte>, fh: u64, offset: u64, flags: u32,
                       more: seq<byte>, data: seq<byte>, rest: seq<byte>)
    requires |ext| == h.Ext() && |data| < TWO32 && |more| == 16
    ensures DecodeWrite(h, ext + PutWrite(fh, offset, flags, more, data) + rest)
         == Ok(Count(Write(Ctx(h), h.nodeid, fh, offset, data)))
  {
    hide Put64, Put32, At64, At32;
    var body, off := ext + PutWrite(fh, offset, flags, more, data) + rest, h.Ext() + 40;
    var a := Put32(flags) + more + data + rest;
    assert body == ext + (Put64(fh) + Put64(offset) + Put32(|data|) + a);
    IoFields(ext, fh, offset, |data|, a);
    assert body[off..off + |data|] == data;
  }

  // ---- Requests read from offset 0 -------------------------------------

  function PutName(ext: seq<byte>, name: seq<byte>): (s: seq<byte>) {
    ext + (name + [0])
  }

  /** Whatever follows the terminator is ignored. */
  lemma LeadingNameReads(name: seq<byte>, rest: seq<byte>)
    requires NulFree(name)
    ensures LeadingName(PutName([], name) + rest) == Ok(name)
  {
    var body := PutName([], name) + rest;
    assert body == name + [0] + rest;
    StrNLenOfTerminated(name, rest);
    assert body[..|name|] == name;
  }

  lemma LookupxRoundTrip(h: InHeader, name: seq<byte>, rest: seq<byte>)
    requires NulFree(name)
    ensures DecodeLookupx(h, PutName([], name) + rest) == Ok(Entry(Lookupx(Ctx(h), h.nodeid, name)))
  {
    hide LeadingName;
    LeadingNameReads(name, rest);
  }

  ghost predicate LookupxFaithful(units: u16) {
    forall h: InHeader, ext: seq<byte>, name: seq<byte> ::
      h.extlen == units && |ext| == h.Ext() && NulFree(name) ==>
      DecodeLookupx(h, PutName(ext, name)) == Ok(Entry(Lookupx(Ctx(h), h.nodeid, name)))
  }

  const PROBE: InHeader := InHeader(0, 0, 0, 0, 0, 0, 0, 0, 0)

  /** Behind extensions of zeros the name is taken to be empty. */
  lemma LeadingNameMisread(h: InHeader)
    requires h.extlen > 0
    ensures LeadingName(PutName(Zeros(h.Ext()), [97])) == Ok([])
  {
    assert PutName(Zeros(h.Ext()), [97])[0] == 0;
  }

  /** LOOKUPX names survive decoding exactly when requests carry no extensions. */
  lemma LookupxFaithfulIff(units: u16)
    ensures LookupxFaithful(units) <==> units == 0
  {
    if units == 0 {
      forall h: InHeader, ext: seq<byte>, name: seq<byte>
        | h.extlen == units && |ext| == h.Ext() && NulFree(name)
        ensures DecodeLookupx(h, PutName(ext, name)) == Ok(Entry(Lookupx(Ctx(h), h.nodeid, name)))
      {
        assert ext == [] && PutName(ext, name) + [] == PutName(ext, name);
        LookupxRoundTrip(h, name, []);
      }
    } else {
      var h := PROBE.(extlen := units);
      LeadingNameMisread(h);
      assert DecodeLookupx(h, PutName(Zeros(h.Ext()), [97])) != Ok(Entry(Lookupx(Ctx(h), h.nodeid, [97])));
    }
  }

  function Removal(h: InHeader, name: seq<byte>, rmdir: bool): (c: Call) {
    Unit(if rmdir then Rmdir(Ctx(h), h.nodeid, name) else Unlink(Ctx(h), h.nodeid, name))
  }

  lemma UnlinkRoundTrip(h: InHeader, name: seq<byte>, rest: seq<byte>, rmdir: bool)
    requires NulFree(name)
    ensures DecodeUnlink(h, PutName([], name) + rest, rmdir) == Ok(Removal(h, name, rmdir))
  {
    hide LeadingName;
    LeadingNameReads(name, rest);
  }

  ghost predicate UnlinkFaithful(units: u16, rmdir: bool) {
    forall h: InHeader, ext: seq<byte>, name: seq<byte> ::
      h.extlen == units && |ext| == h.Ext() && NulFree(name) ==>
      DecodeUnlink(h, PutName(ext, name), rmdir) == Ok(Removal(h, name, rmdir))
  }

  /** With any extensions at all there is a request that removes another name than was sent. */
  lemma UnlinkMisread(h: InHeader, rmdir: bool)
    requires h.extlen > 0
    ensures DecodeUnlink(h, PutName(Zeros(h.Ext()), [97]), rmdir) == Ok(Removal(h, [], rmdir)) != Ok(Removal(h, [97], rmdir))
  {
    LeadingNameMisread(h);
  }

  /** UNLINK and RMDIR names survive decoding exactly when requests carry no extensions. */
  lemma UnlinkFaithfulIff(units: u16, rmdir: bool)
    ensures UnlinkFaithful(units, rmdir) <==> units == 0
  {
    if units == 0 {
      forall h: InHeader, ext: seq<byte>, name: seq<byte>
        | h.extlen == units && |ext| == h.Ext() && NulFree(name)
        ensures DecodeUnlink(h, PutName(ext, name), rmdir) == Ok(Removal(h, name, rmdir))
      {
        assert ext == [] && PutName(ext, name) + [] == PutName(ext, name);
        UnlinkRoundTrip(h, name, [], rmdir);
      }
    } else {
      var h := PROBE.(extlen := units);
      UnlinkMisread(h, rmdir);
      assert |Zeros(h.Ext())| == h.Ext() && NulFree([97]);
    }
  }

  function PutSetstatx(ext: seq<byte>, fh: u64, rest: seq<byte>, stat: seq<byte>): (s: seq<byte>)
    requires |rest| == 8 && |stat| == STATX_SIZE
  {
    ext + (Put64(fh) + rest + stat)
  }

  lemma SetstatxRoundTrip(h: InHeader, fh: u64, more: seq<byte>, stat: seq<byte>, rest: seq<byte>)
    requires h.extlen == 0 && |more| == 8 && |stat| == STATX_SIZE
    ensures DecodeSetstatx(h, PutSetstatx([], fh, more, stat) + rest) == Ok(Attr(Setstatx(Ctx(h), h.nodeid, fh, stat)))
  {
    hide Put64, At64;
    var body := PutSetstatx([], fh, more, stat) + rest;
    assert body == [] + Put64(fh) + (more + stat + rest);
    Field64([], fh, more + stat + rest);
    assert body[SETSTATX_HEAD..SETSTATX_HEAD + STATX_SIZE] == stat;
  }

  ghost predicate SetstatxFaithful(units: u16) {
    forall h: InHeader, ext: seq<byte>, fh: u64, rest: seq<byte>, stat: seq<byte>
      {:trigger PutSetstatx(ext, fh, rest, stat), h.Ext()} ::
      h.extlen == units && |ext| == h.Ext() && |rest| == 8 && |stat| == STATX_SIZE ==>
      DecodeSetstatx(h, PutSetstatx(ext, fh, rest, stat)) == Ok(Attr(Setstatx(Ctx(h), h.nodeid, fh, stat)))
  }

  /** With any extensions at all there is a request whose attributes are read from the wrong place. */
  lemma SetstatxMisread(h: InHeader)
    requires h.extlen > 0
    ensures var stat := seq(STATX_SIZE, i => 1 as byte);
            DecodeSetstatx(h, PutSetstatx(Zeros(h.Ext()), 0, Zeros(8), stat)) != Ok(Attr(Setstatx(Ctx(h), h.nodeid, 0, stat)))
  {
    hide At64;
    var stat := seq(STATX_SIZE, i => 1 as byte);
    var body := PutSetstatx(Zeros(h.Ext()), 0, Zeros(8), stat);
    assert Put64(0) == Zeros(8);
    assert body[SETSTATX_HEAD] == 0;
    assert body[SETSTATX_HEAD..SETSTATX_HEAD + STATX_SIZE][0] == 0 && stat[0] == 1;
  }

  /** SETSTATX attributes survive decoding exactly when requests carry no extensions. */
  lemma SetstatxFaithfulIff(units: u16)
    ensures SetstatxFaithful(units) <==> units == 0
  {
    hide Put64, DecodeSetstatx;
    if units == 0 {
      forall h: InHeader, ext: seq<byte>, fh: u64, rest: seq<byte>, stat: seq<byte>
        | h.extlen == units && |ext| == h.Ext() && |rest| == 8 && |stat| == STATX_SIZE
        ensures DecodeSetstatx(h, PutSetstatx(ext, fh, rest, stat)) == Ok(Attr(Setstatx(Ctx(h), h.nodeid, fh, stat)))
      {
        assert ext == [] && PutSetstatx(ext, fh, rest, stat) + [] == PutSetstatx(ext, fh, rest, stat);
        SetstatxRoundTrip(h, fh, rest, stat, []);
      }
    } else {
      var h := PROBE.(extlen := units);
      SetstatxMisread(h);
      assert h.Ext() == |Zeros(h.Ext())|;
    }
  }

  /** The symlink body follows the name only when the mode says symlink. */
  function PutMkobjx(ext: seq<byte>, spare: seq<byte>, args: MkobjxIn): (s: seq<byte>)
    requires |args.name| + 1 < TWO32 && |args.stat| == STATX_SIZE && |spare| == 56
  {
    ext + (Put32(|args.name| + 1) + Put32(args.flags) + spare + args.stat + (args.name + [0])
           + if IsLink(args.stat) then args.linkTarget + [0] else [])
  }

  predicate MkobjxArgs(args: MkobjxIn) {
    && |args.name| + 1 < TWO32 && |args.stat| == STATX_SIZE
    && if IsLink(args.stat) then NulFree(args.linkTarget) else args.linkTarget == []
  }

  lemma MkobjxRoundTrip(h: InHeader, spare: seq<byte>, args: MkobjxIn)
    requires h.extlen == 0 && |spare| == 56 && MkobjxArgs(args)
    ensures DecodeMkobjx(h, PutMkobjx([], spare, args)) == Ok(Entry(Mkobjx(Ctx(h), h.nodeid, args)))
  {
    hide Put32, At32, DecodeMkobjx, IsLink;
    var link, tail := args.linkTarget, if IsLink(args.stat) then [0] else [];
    var size := |args.name| + 1;
    MkobjxReads(size, args.flags, spare, args.stat, args.name + [0] + (link + tail));
    var body := Put32(size) + Put32(args.flags) + spare + args.stat + (args.name + [0] + (link + tail));
    assert body == PutMkobjx([], spare, args);
    MkobjxDecoded(h, body, args, [0], tail);
  }

  /** What stands at the fixed offsets of a printed MKOBJX. */
  lemma MkobjxReads(size: u32, flags: u32, spare: seq<byte>, stat: seq<byte>, names: seq<byte>)
    requires |spare| == 56 && |stat| == STATX_SIZE
    ensures var body := Put32(size) + Put32(flags) + spare + stat + names;
            && At32(body, 0) == size && At32(body, 4) == flags
            && body[MKOBJX_HEAD..MKOBJX_NAME] == stat && body[MKOBJX_NAME..] == names
  {
    hide Put32, At32;
    var a, b := Put32(size), Put32(flags);
    var body := a + b + spare + stat + names;
    assert body == [] + a + (b + spare + stat + names);
    Field32([], size, b + spare + stat + names);
    assert body == a + b + (spare + stat + names);
    Field32(a, flags, spare + stat + names);
  }

  /** MKOBJX is read by its sizes: the name is all but the last of `namesize` bytes, whatever
      that one is, and a symlink's body runs to a NUL or to the end. */
  lemma MkobjxDecoded(h: InHeader, body: seq<byte>, args: MkobjxIn, end: seq<byte>, tail: seq<byte>)
    requires h.extlen == 0 && |args.stat| == STATX_SIZE && |end| <= 1 && (end == [] ==> args.name == [])
    requires if IsLink(args.stat) then NulFree(args.linkTarget) && (tail == [] || tail[0] == 0) else args.linkTarget == []
    requires MKOBJX_NAME <= |body| && body[MKOBJX_NAME..] == args.name + end + (args.linkTarget + tail)
    requires At32(body, 0) == |args.name| + |end| && At32(body, 4) == args.flags
    requires body[MKOBJX_HEAD..MKOBJX_NAME] == args.stat
    ensures DecodeMkobjx(h, body) == Ok(Entry(Mkobjx(Ctx(h), h.nodeid, args)))
  {
    hide At32, IsLink, StrNLen, LinkBody;
    MkobjxNames(body, MKOBJX_NAME, args.name, end, args.linkTarget + tail);
    if IsLink(args.stat) {
      LinkBodyReads(body, MKOBJX_NAME + |args.name| + |end|, args.linkTarget, tail);
    }
  }

  lemma MkobjxNames(body: seq<byte>, off: nat, name: seq<byte>, end: seq<byte>, more: seq<byte>)
    requires off <= |body| && body[off..] == name + end + more
    ensures |body| == off + |name| + |end| + |more|
    ensures body[off..off + |name|] == name && body[off + |name| + |end|..] == more
  {
    var tail := body[off..];
    assert body[off..off + |name|] == tail[..|name|];
    assert body[off + |name| + |end|..] == tail[|name| + |end|..];
  }

  lemma LinkBodyReads(body: seq<byte>, after: nat, target: seq<byte>, tail: seq<byte>)
    requires after <= |body| && body[after..] == target + tail && NulFree(target) && (tail == [] || tail[0] == 0)
    ensures LinkBody(body, after) == target
  {
    hide StrNLen;
    StrNLenUpTo(target, tail);
    if after < |body| {
      assert body[after..after + |target|] == body[after..][..|target|] == target;
    }
  }

  ghost predicate MkobjxFaithful(units: u16) {
    forall h: InHeader, ext: seq<byte>, spare: seq<byte>, args: MkobjxIn {:trigger PutMkobjx(ext, spare, args), h.Ext()} ::
      h.extlen == units && |ext| == h.Ext() && |spare| == 56 && MkobjxArgs(args) ==>
      DecodeMkobjx(h, PutMkobjx(ext, spare, args)) == Ok(Entry(Mkobjx(Ctx(h), h.nodeid, args)))
  }

  /** The name is taken from 320 bytes into the body, extensions or not. */
  lemma MkobjxNameAt320(h: InHeader, body: seq<byte>, args: MkobjxIn)
    requires DecodeMkobjx(h, body) == Ok(Entry(Mkobjx(Ctx(h), h.nodeid, args))) && args.name != []
    ensures MKOBJX_NAME < |body| && args.name[0] == body[MKOBJX_NAME]
  {
    hide At32, IsLink, StrNLen;
  }

  /** Behind extensions of zeros stands no `a` where the name is taken from. */
  lemma MkobjxByteAt320(ext: seq<byte>, fixed: seq<byte>)
    requires |fixed| == MKOBJX_NAME && 0 < |ext| && (forall i :: 0 <= i < |ext| ==> ext[i] == 0)
    requires forall i :: 0 <= i < |fixed| ==> fixed[i] != 97
    ensures (ext + fixed + [97, 0])[MKOBJX_NAME] != 97
  {
  }

  lemma MkobjxMisread(h: InHeader)
    requires h.extlen > 0
    ensures var args := MkobjxIn(0, [97], [], Zeros(STATX_SIZE));
            MkobjxArgs(args)
            && DecodeMkobjx(h, PutMkobjx(Zeros(h.Ext()), Zeros(56), args)) != Ok(Entry(Mkobjx(Ctx(h), h.nodeid, args)))
  {
    hide DecodeMkobjx;
    var args := MkobjxIn(0, [97], [], Zeros(STATX_SIZE));
    var ext := Zeros(h.Ext());
    var body := PutMkobjx(ext, Zeros(56), args);
    var fixed := Put32(2) + Put32(0) + Zeros(56) + Zeros(STATX_SIZE);
    assert Put32(2) == [2, 0, 0, 0] && Put32(0) == [0, 0, 0, 0];
    assert body == ext + fixed + [97, 0];
    MkobjxByteAt320(ext, fixed);
    if DecodeMkobjx(h, body) == Ok(Entry(Mkobjx(Ctx(h), h.nodeid, args))) {
      MkobjxNameAt320(h, body, args);
    }
  }

  /** MKOBJX arguments survive decoding exactly when requests carry no extensions. */
  lemma MkobjxFaithfulIff(units: u16)
    ensures MkobjxFaithful(units) <==> units == 0
  {
    if units == 0 {
      forall h: InHeader, ext: seq<byte>, spare: seq<byte>, args: MkobjxIn
        | h.extlen == units && |ext| == h.Ext() && |spare| == 56 && MkobjxArgs(args)
        ensures DecodeMkobjx(h, PutMkobjx(ext, spare, args)) == Ok(Entry(Mkobjx(Ctx(h), h.nodeid, args)))
      {
        assert ext == [];
        MkobjxRoundTrip(h, spare, args);
      }
    } else {
      var h := PROBE.(extlen := units);
      MkobjxMisread(h);
      assert h.Ext() == |Zeros(h.Ext())|;
    }
  }

  function PutItems(items: seq<(u64, u64)>): (s: seq<byte>)
    ensures |s| == 16 * |items|
  {
    if items == [] then [] else PutItems(items[..|items| - 1]) + PutItem(items[|items| - 1])
  }

  function PutItem(item: (u64, u64)): (s: seq<byte>)
    ensures |s| == 16
  {
    Put64(item.0) + Put64(item.1)
  }

  function PutBatchForget(ext: seq<byte>, dummy: u32, items: seq<(u64, u64)>): (s: seq<byte>)
    requires |items| < TWO32
  {
    ext + (Put32(|items|) + Put32(dummy) + PutItems(items))
  }

  lemma LastItem(body: seq<byte>, head: seq<byte>, item: (u64, u64), post: seq<byte>)
    requires body == head + PutItem(item) + post
    ensures At64(body, |head|) == item.0 && At64(body, |head| + 8) == item.1
  {
    var a, b := Put64(item.0), Put64(item.1);
    assert body == head + a + (b + post);
    Field64(head, item.0, b + post);
    assert body == (head + a) + b + post;
    Field64(head + a, item.1, post);
  }

  lemma Regroup(pre: seq<byte>, a: seq<byte>, b: seq<byte>, post: seq<byte>)
    ensures pre + (a + b) + post == pre + a + (b + post)
    ensures pre + (a + b) + post == (pre + a) + b + post
  {
  }

  lemma {:induction false} ItemAt(pre: seq<byte>, items: seq<(u64, u64)>, post: seq<byte>, i: nat)
    requires i < |items|
    ensures var body := pre + PutItems(items) + post;
            At64(body, |pre| + 16 * i) == items[i].0 && At64(body, |pre| + 16 * i + 8) == items[i].1
    decreases |items|
  {
    hide PutItem, At64;
    var n := |items| - 1;
    var a, b := PutItems(items[..n]), PutItem(items[n]);
    Regroup(pre, a, b, post);
    if i < n {
      ItemAt(pre, items[..n], b + post, i);
    } else {
      LastItem(pre + PutItems(items) + post, pre + a, items[n], post);
    }
  }

  /** The items of a batch, read from a body that holds at least them. */
  lemma ItemsRoundTrip(pre: seq<byte>, items: seq<(u64, u64)>, post: seq<byte>)
    requires |pre| == 8
    ensures ForgetItems(pre + PutItems(items) + post, |items|) == items
  {
    var body := pre + PutItems(items) + post;
    var got := ForgetItems(body, |items|);
    forall i | 0 <= i < |items|
      ensures got[i] == items[i]
    {
      ItemAt(pre, items, post, i);
    }
  }

  lemma BatchForgetRoundTrip(h: InHeader, dummy: u32, items: seq<(u64, u64)>, rest: seq<byte>)
    requires h.extlen == 0 && |items| < TWO32
    ensures DecodeBatchForget(h, PutBatchForget([], dummy, items) + rest) == Ok(Drop(ForgetMulti(items)))
  {
    hide Put32, At32;
    var body := PutBatchForget([], dummy, items) + rest;
    assert body == [] + Put32(|items|) + (Put32(dummy) + PutItems(items) + rest);
    Field32([], |items|, Put32(dummy) + PutItems(items) + rest);
    ItemsRoundTrip(Put32(|items|) + Put32(dummy), items, rest);
    assert body == Put32(|items|) + Put32(dummy) + PutItems(items) + rest;
  }

  ghost predicate BatchForgetFaithful(units: u16) {
    forall h: InHeader, ext: seq<byte>, dummy: u32, items: seq<(u64, u64)> {:trigger PutBatchForget(ext, dummy, items), h.Ext()} ::
      h.extlen == units && |ext| == h.Ext() && |items| < TWO32 ==>
      DecodeBatchForget(h, PutBatchForget(ext, dummy, items)) == Ok(Drop(ForgetMulti(items)))
  }

  lemma BatchForgetMisread(h: InHeader)
    requires h.extlen > 0
    ensures DecodeBatchForget(h, PutBatchForget(Zeros(h.Ext()), 0, [(97, 1)])) != Ok(Drop(ForgetMulti([(97, 1)])))
  {
    hide At32, At64;
    var ext, items := Zeros(h.Ext()), [(97 as u64, 1 as u64)];
    var body := PutBatchForget(ext, 0, items);
    assert PutItems(items) == PutItems([]) + PutItem(items[0]);
    assert body == ext + Put32(1) + (Put32(0) + PutItems(items));
    Field32(ext, 1, Put32(0) + PutItems(items));
    assert Put32(1) == [1, 0, 0, 0];
    assert body[8] != 97;
    FirstByte(body, 8);
    assert ForgetItems(body, 1)[0] == ForgetOne(body, 0);
  }

  /** Batched forgets reach the daemon intact exactly when requests carry no extensions. */
  lemma BatchForgetFaithfulIff(units: u16)
    ensures BatchForgetFaithful(units) <==> units == 0
  {
    if units == 0 {
      forall h: InHeader, ext: seq<byte>, dummy: u32, items: seq<(u64, u64)>
        | h.extlen == units && |ext| == h.Ext() && |items| < TWO32
        ensures DecodeBatchForget(h, PutBatchForget(ext, dummy, items)) == Ok(Drop(ForgetMulti(items)))
      {
        assert ext == [] && PutBatchForget(ext, dummy, items) + [] == PutBatchForget(ext, dummy, items);
        BatchForgetRoundTrip(h, dummy, items, []);
      }
    } else {
      var h := PROBE.(extlen := units);
      BatchForgetMisread(h);
      assert h.Ext() == |Zeros(h.Ext())|;
    }
  }
}
