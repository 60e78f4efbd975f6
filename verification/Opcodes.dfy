/**
  `dispatch`, opcode by opcode, from the bytes of a request to the callback it reaches and
  the bytes of the reply. Nothing here is said through the decoders or the reply images: a
  request is what a sender prints, and a reply is what its fields read as.
 */
module Opcodes {
  import opened Bytes
  import opened Wire
  import opened Filesystem
  import opened Requests
  import opened RequestCodec
  import opened Replies
  import opened Dispatcher
  import Dirents

  // ---- What a reply reads as ---------------------------------------------

  /** An error is passed on; success is an empty reply. */
  predicate UnitReply(reply: Reply, rv: Result<()>) {
    reply == if rv.Err? then Failed(rv.errno) else Replied([])
  }

  /** Bytes are passed on if they fit, and are EIO if they do not. */
  predicate BytesReply(reply: Reply, rv: Result<seq<byte>>, cap: nat) {
    reply == if rv.Err? then Failed(rv.errno) else if |rv.value| > cap then Failed(EIO) else Replied(rv.value)
  }

  /** struct fuse_entryx_out; `negative` is its flag bit 0. */
  predicate EntryReply(reply: Reply, rv: Result<EntryOut>, negative: bool, cap: nat) {
    if rv.Err? then reply == Failed(rv.errno)
    else if cap < 32 then reply == Failed(EIO)
    else
      && reply.Replied? && |reply.payload| == 32
      && At64(reply.payload, 0) == rv.value.nodeid && At64(reply.payload, 8) == rv.value.validSec
      && At32(reply.payload, 16) == rv.value.validNsec && At32(reply.payload, 20) == (if negative then 1 else 0)
      && At64(reply.payload, 24) == 0
  }

  /** struct fuse_open_out; a directory's flags always have FOPEN_CACHE_DIR, bit 3. */
  predicate OpenReply(reply: Reply, rv: Result<OpenOut>, dir: bool, cap: nat) {
    if rv.Err? then reply == Failed(rv.errno)
    else if cap < 16 then reply == Failed(EIO)
    else
      && reply.Replied? && |reply.payload| == 16
      && At64(reply.payload, 0) == rv.value.fh && At32(reply.payload, 12) == 0
      && var flags := At32(reply.payload, 8);
         if dir then flags / 8 % 2 == 1 && (flags == rv.value.flags || flags == rv.value.flags + 8) else flags == rv.value.flags
  }

  /** struct fuse_write_out and fuse_getxattr_out: a count, cut to 32 bits. */
  predicate CountReply(reply: Reply, rv: Result<nat>, cap: nat) {
    if rv.Err? then reply == Failed(rv.errno)
    else if cap < 8 then reply == Failed(EIO)
    else
      && reply.Replied? && |reply.payload| == 8
      && At32(reply.payload, 0) == rv.value % TWO32 && At32(reply.payload, 4) == 0
  }

  /** The bytes produced, cut to the span of `want` bytes. */
  predicate FillReply(reply: Reply, rv: Result<seq<byte>>, want: nat) {
    if rv.Err? then reply == Failed(rv.errno)
    else reply == Replied(if |rv.value| <= want then rv.value else rv.value[..want])
  }

  // ---- From a callback to its reply --------------------------------------

  lemma ToUnit<S>(fs: Filesystem<S>, s: S, h: InHeader, body: seq<byte>, cap: nat, c: UnitCall)
    requires InBounds(h, body) && Decode(h, body, cap) == Ok(Unit(c))
    ensures var (t, rv) := fs.unit(s, c);
            var (t', reply) := Dispatch(fs, s, h, body, cap);
            t' == t && UnitReply(reply, rv)
  {
    hide Decode;
    var rv := fs.unit(s, c).1;
  }

  lemma EntryImageReads(e: EntryOut, flags: u32)
    ensures var p := EntryImage(e, flags);
            && At64(p, 0) == e.nodeid && At64(p, 8) == e.validSec && At32(p, 16) == e.validNsec
            && At32(p, 20) == flags && At64(p, 24) == 0
  {
    hide Put64, Put32, At64, At32;
    var p, a, b, c, d, z := EntryImage(e, flags), Put64(e.nodeid), Put64(e.validSec), Put32(e.validNsec), Put32(flags), Put64(0);
    assert p == [] + a + (b + c + d + z) && p == a + b + (c + d + z) && p == (a + b) + c + (d + z);
    assert p == (a + b + c) + d + z && p == (a + b + c + d) + z + [];
    Field64([], e.nodeid, b + c + d + z);
    Field64(a, e.validSec, c + d + z);
    Field32(a + b, e.validNsec, d + z);
    Field32(a + b + c, flags, z);
    Field64(a + b + c + d, 0, []);
  }

  lemma ToEntry<S>(fs: Filesystem<S>, s: S, h: InHeader, body: seq<byte>, cap: nat, c: EntryCall)
    requires InBounds(h, body) && Decode(h, body, cap) == Ok(Entry(c))
    ensures var (t, rv) := fs.entry(s, c);
            var (t', reply) := Dispatch(fs, s, h, body, cap);
            t' == t && EntryReply(reply, rv, rv.Ok? && rv.value.negative && !c.Mkobjx?, cap)
  {
    hide Decode, EntryImage, At64, At32;
    var rv := fs.entry(s, c).1;
    if rv.Ok? {
      EntryImageReads(rv.value, EntryFlags(c, rv.value));
    }
  }

  lemma OpenImageReads(fh: u64, flags: u32)
    ensures var p := OpenImage(fh, flags); At64(p, 0) == fh && At32(p, 8) == flags && At32(p, 12) == 0
  {
    hide Put64, Put32, At64, At32;
    var p, a, b, z := OpenImage(fh, flags), Put64(fh), Put32(flags), Put32(0);
    assert p == [] + a + (b + z) && p == a + b + z && p == (a + b) + z + [];
    Field64([], fh, b + z);
    Field32(a, flags, z);
    Field32(a + b, 0, []);
  }

  lemma ToOpen<S>(fs: Filesystem<S>, s: S, h: InHeader, body: seq<byte>, cap: nat, c: OpenCall)
    requires InBounds(h, body) && Decode(h, body, cap) == Ok(OpenAny(c))
    ensures var (t, rv) := fs.open(s, c);
            var (t', reply) := Dispatch(fs, s, h, body, cap);
            t' == t && OpenReply(reply, rv, c.Opendir?, cap)
  {
    hide Decode, OpenImage, At64, At32;
    var rv := fs.open(s, c).1;
    if rv.Ok? {
      if c.Opendir? && rv.value.flags / 8 % 2 == 0 {
        CacheDirBit(rv.value.flags);
      }
      OpenImageReads(rv.value.fh, OpenFlags(c, rv.value.flags));
    }
  }

  lemma CacheDirBit(flags: u32)
    requires flags / 8 % 2 == 0
    ensures (flags + 8) / 8 % 2 == 1 && flags + 8 < TWO32
  {
  }

  lemma CountImageReads(n: nat)
    ensures var p := CountImage(n); At32(p, 0) == n % TWO32 && At32(p, 4) == 0
  {
    hide Put32, At32;
    var p, a, z := CountImage(n), Put32(n % TWO32), Put32(0);
    assert p == [] + a + z && p == a + z + [];
    Field32([], n % TWO32, z);
    Field32(a, 0, []);
  }

  lemma ToCount<S>(fs: Filesystem<S>, s: S, h: InHeader, body: seq<byte>, cap: nat, c: CountCall)
    requires InBounds(h, body) && Decode(h, body, cap) == Ok(Count(c))
    ensures var (t, rv) := fs.count(s, c);
            var (t', reply) := Dispatch(fs, s, h, body, cap);
            t' == t && CountReply(reply, rv, cap)
  {
    hide Decode, CountImage, At32;
    var rv := fs.count(s, c).1;
    if rv.Ok? {
      CountImageReads(rv.value);
    }
  }

  lemma ToFill<S>(fs: Filesystem<S>, s: S, h: InHeader, body: seq<byte>, cap: nat, c: FillCall)
    requires InBounds(h, body) && Decode(h, body, cap) == Ok(Fill(c))
    ensures var (t, rv, _) := fs.fill(s, c);
            var (t', reply) := Dispatch(fs, s, h, body, cap);
            t' == t && FillReply(reply, rv, c.want)
  {
    hide Decode, Serve;
    FillServed(fs, s, c, cap);
    var rv := fs.fill(s, c).1;
    if rv.Ok? {
      assert rv.value[..|rv.value|] == rv.value;
    }
  }

  lemma ToAttr<S>(fs: Filesystem<S>, s: S, h: InHeader, body: seq<byte>, cap: nat, c: AttrCall)
    requires InBounds(h, body) && Decode(h, body, cap) == Ok(Attr(c))
    ensures var (t, rv) := fs.attr(s, c);
            var (t', reply) := Dispatch(fs, s, h, body, cap);
            t' == t && BytesReply(reply, rv, cap)
  {
    hide Decode;
    var rv := fs.attr(s, c).1;
  }

  // ---- Which decoder an opcode reaches -----------------------------------

  lemma Switch(h: InHeader, body: seq<byte>, cap: nat)
    requires InBounds(h, body)
    ensures var op, d := h.opcode, Decode(h, body, cap);
            && (op == INIT ==> d == DecodeInit(h, body))
            && (op == LOOKUP_ROOT ==> d == Ok(Entry(LookupRoot(Ctx(h)))))
            && (op == LOOKUPX ==> d == DecodeLookupx(h, body))
            && (op == FORGET ==> d == DecodeForget(h, body))
            && (op == BATCH_FORGET ==> d == DecodeBatchForget(h, body))
            && (op == STATX ==> d == DecodeStatx(h, body))
            && (op == SETSTATX ==> d == DecodeSetstatx(h, body))
            && (op == MKOBJX ==> d == DecodeMkobjx(h, body))
            && (op == UNLINK ==> d == DecodeUnlink(h, body, false))
            && (op == RMDIR ==> d == DecodeUnlink(h, body, true))
            && (op == RENAME2 ==> d == DecodeRename2(h, body))
            && (op == LINK ==> d == DecodeLink(h, body))
            && (op == READ ==> d == DecodeRead(h, body, cap, false))
            && (op == WRITE ==> d == DecodeWrite(h, body))
            && (op == READLINK ==> d == Ok(Readlink(Ctx(h), h.nodeid)))
            && (op == STATFS ==> d == Ok(Statfs(Ctx(h), h.nodeid)))
            && (op == FALLOCATE ==> d == DecodeFallocate(h, body))
            && (op == OPEN ==> d == DecodeOpen(h, body))
            && (op == RELEASE ==> d == DecodeRelease(h, body, false))
            && (op == OPENDIR ==> d == Ok(OpenAny(Opendir(Ctx(h), h.nodeid))))
            && (op == RELEASEDIR ==> d == DecodeRelease(h, body, true))
            && (op == READDIR ==> d == DecodeRead(h, body, cap, true))
            && (op == GETXATTR ==> d == DecodeGetxattr(h, body, cap))
            && (op == SETXATTR ==> d == DecodeSetxattr(h, body))
            && (op == LISTXATTR ==> d == DecodeListxattr(h, body, cap))
            && (op == REMOVEXATTR ==> d == DecodeRemovexattr(h, body))
  {
    hide DecodeInit, DecodeLookupx, DecodeForget, DecodeBatchForget, DecodeStatx, DecodeSetstatx, DecodeMkobjx, DecodeUnlink,
      DecodeRename2, DecodeLink, DecodeRead, DecodeWrite, DecodeFallocate, DecodeOpen, DecodeRelease, DecodeGetxattr,
      DecodeSetxattr, DecodeListxattr, DecodeRemovexattr;
  }

  // ---- Entries -------------------------------------------------------------

  lemma LookupRootAnswered<S>(fs: Filesystem<S>, s: S, h: InHeader, body: seq<byte>, cap: nat)
    requires h.opcode == LOOKUP_ROOT
    ensures var x := Context(h.uid, h.gid, h.pid, h.nodeid, h.unique);
            var (t, rv) := fs.entry(s, LookupRoot(x));
            var (t', reply) := Dispatch(fs, s, h, body, cap);
            t' == t && EntryReply(reply, rv, rv.Ok? && rv.value.negative, cap)
  {
    hide Decode;
    Switch(h, body, cap);
    ToEntry(fs, s, h, body, cap, LookupRoot(Ctx(h)));
  }

  lemma LookupxAnswered<S>(fs: Filesystem<S>, s: S, h: InHeader, name: seq<byte>, rest: seq<byte>, cap: nat)
    requires h.opcode == LOOKUPX && NulFree(name)
    ensures var x := Context(h.uid, h.gid, h.pid, h.nodeid, h.unique);
            var body := name + [0] + rest;
            var (t, rv) := fs.entry(s, Lookupx(x, h.nodeid, name));
            var (t', reply) := Dispatch(fs, s, h, body, cap);
            t' == t && EntryReply(reply, rv, rv.Ok? && rv.value.negative, cap)
  {
    hide Decode, DecodeLookupx;
    var body := name + [0] + rest;
    assert body == PutName([], name) + rest;
    Switch(h, body, cap);
    LookupxRoundTrip(h, name, rest);
    ToEntry(fs, s, h, body, cap, Lookupx(Ctx(h), h.nodeid, name));
  }

  /** The name is all but the last of `namesize` bytes, and a symlink's body runs to a NUL or to
      the end. A created object is never reported as negative. */
  lemma MkobjxAnswered<S>(fs: Filesystem<S>, s: S, h: InHeader, spare: seq<byte>, args: MkobjxIn, end: seq<byte>,
                          tail: seq<byte>, cap: nat)
    requires h.opcode == MKOBJX && h.extlen == 0 && |spare| == 56 && |args.stat| == STATX_SIZE
    requires |args.name| + 1 < TWO32 && |end| <= 1 && (end == [] ==> args.name == [])
    requires if IsLink(args.stat) then NulFree(args.linkTarget) && (tail == [] || tail[0] == 0) else args.linkTarget == []
    ensures var x := Context(h.uid, h.gid, h.pid, h.nodeid, h.unique);
            var body := Put32(|args.name| + |end|) + Put32(args.flags) + spare + args.stat
                        + (args.name + end + (args.linkTarget + tail));
            var (t, rv) := fs.entry(s, Mkobjx(x, h.nodeid, args));
            var (t', reply) := Dispatch(fs, s, h, body, cap);
            t' == t && EntryReply(reply, rv, false, cap)
  {
    hide Decode, DecodeMkobjx, Put32, At32, IsLink;
    var names := args.name + end + (args.linkTarget + tail);
    var body := Put32(|args.name| + |end|) + Put32(args.flags) + spare + args.stat + names;
    MkobjxReads(|args.name| + |end|, args.flags, spare, args.stat, names);
    MkobjxDecoded(h, body, args, end, tail);
    Switch(h, body, cap);
    ToEntry(fs, s, h, body, cap, Mkobjx(Ctx(h), h.nodeid, args));
  }

  // ---- Names ---------------------------------------------------------------

  lemma UnlinkAnswered<S>(fs: Filesystem<S>, s: S, h: InHeader, name: seq<byte>, rest: seq<byte>, cap: nat)
    requires h.opcode == UNLINK && NulFree(name)
    ensures var x := Context(h.uid, h.gid, h.pid, h.nodeid, h.unique);
            var body := name + [0] + rest;
            var (t, rv) := fs.unit(s, Unlink(x, h.nodeid, name));
            var (t', reply) := Dispatch(fs, s, h, body, cap);
            t' == t && UnitReply(reply, rv)
  {
    hide Decode, DecodeUnlink;
    var body := name + [0] + rest;
    assert body == PutName([], name) + rest;
    Switch(h, body, cap);
    UnlinkRoundTrip(h, name, rest, false);
    ToUnit(fs, s, h, body, cap, Unlink(Ctx(h), h.nodeid, name));
  }

  lemma RmdirAnswered<S>(fs: Filesystem<S>, s: S, h: InHeader, name: seq<byte>, rest: seq<byte>, cap: nat)
    requires h.opcode == RMDIR && NulFree(name)
    ensures var x := Context(h.uid, h.gid, h.pid, h.nodeid, h.unique);
            var body := name + [0] + rest;
            var (t, rv) := fs.unit(s, Rmdir(x, h.nodeid, name));
            var (t', reply) := Dispatch(fs, s, h, body, cap);
            t' == t && UnitReply(reply, rv)
  {
    hide Decode, DecodeUnlink;
    var body := name + [0] + rest;
    assert body == PutName([], name) + rest;
    Switch(h, body, cap);
    UnlinkRoundTrip(h, name, rest, true);
    ToUnit(fs, s, h, body, cap, Rmdir(Ctx(h), h.nodeid, name));
  }

  lemma Rename2Answered<S>(fs: Filesystem<S>, s: S, h: InHeader, ext: seq<byte>, newDir: u64, flags: u32, pad: u32,
                           oldName: seq<byte>, newName: seq<byte>, rest: seq<byte>, cap: nat)
    requires h.opcode == RENAME2 && |ext| == h.Ext() && NulFree(oldName) && NulFree(newName)
    ensures var x := Context(h.uid, h.gid, h.pid, h.nodeid, h.unique);
            var body := ext + PutRename2(newDir, flags, pad, oldName, newName) + rest;
            var (t, rv) := fs.unit(s, Rename(x, h.nodeid, oldName, newDir, newName, flags));
            var (t', reply) := Dispatch(fs, s, h, body, cap);
            t' == t && UnitReply(reply, rv)
  {
    hide Decode, DecodeRename2, PutRename2;
    var body := ext + PutRename2(newDir, flags, pad, oldName, newName) + rest;
    Switch(h, body, cap);
    Rename2RoundTrip(h, ext, newDir, flags, pad, oldName, newName, rest);
    ToUnit(fs, s, h, body, cap, Rename(Ctx(h), h.nodeid, oldName, newDir, newName, flags));
  }

  lemma LinkAnswered<S>(fs: Filesystem<S>, s: S, h: InHeader, ext: seq<byte>, oldNode: u64, name: seq<byte>,
                        rest: seq<byte>, cap: nat)
    requires h.opcode == LINK && |ext| == h.Ext() && NulFree(name)
    ensures var x := Context(h.uid, h.gid, h.pid, h.nodeid, h.unique);
            var body := ext + PutLink(oldNode, name) + rest;
            var (t, rv) := fs.unit(s, Link(x, oldNode, h.nodeid, name));
            var (t', reply) := Dispatch(fs, s, h, body, cap);
            t' == t && UnitReply(reply, rv)
  {
    hide Decode, DecodeLink, PutLink;
    var body := ext + PutLink(oldNode, name) + rest;
    Switch(h, body, cap);
    LinkRoundTrip(h, ext, oldNode, name, rest);
    ToUnit(fs, s, h, body, cap, Link(Ctx(h), oldNode, h.nodeid, name));
  }

  lemma SetxattrAnswered<S>(fs: Filesystem<S>, s: S, h: InHeader, ext: seq<byte>, flags: u32, more: u32, pad: u32,
                            name: seq<byte>, value: seq<byte>, rest: seq<byte>, cap: nat)
    requires h.opcode == SETXATTR && |ext| == h.Ext() && NulFree(name) && |value| < TWO32
    ensures var x := Context(h.uid, h.gid, h.pid, h.nodeid, h.unique);
            var body := ext + PutSetxattr(flags, more, pad, name, value) + rest;
            var (t, rv) := fs.unit(s, Setxattr(x, h.nodeid, name, value, flags));
            var (t', reply) := Dispatch(fs, s, h, body, cap);
            t' == t && UnitReply(reply, rv)
  {
    hide Decode, DecodeSetxattr, PutSetxattr;
    var body := ext + PutSetxattr(flags, more, pad, name, value) + rest;
    Switch(h, body, cap);
    SetxattrRoundTrip(h, ext, flags, more, pad, name, value, rest);
    ToUnit(fs, s, h, body, cap, Setxattr(Ctx(h), h.nodeid, name, value, flags));
  }

  lemma RemovexattrAnswered<S>(fs: Filesystem<S>, s: S, h: InHeader, ext: seq<byte>, name: seq<byte>, rest: seq<byte>, cap: nat)
    requires h.opcode == REMOVEXATTR && |ext| == h.Ext() && NulFree(name)
    ensures var x := Context(h.uid, h.gid, h.pid, h.nodeid, h.unique);
            var body := ext + (name + [0] + rest);
            var (t, rv) := fs.unit(s, Removexattr(x, h.nodeid, name));
            InBounds(h, body)
            && var (t', reply) := Dispatch(fs, s, h, body, cap);
               t' == t && UnitReply(reply, rv)
  {
    hide Decode, LeadingName;
    var body := ext + (name + [0] + rest);
    assert body[h.Ext()..] == PutName([], name) + rest;
    Switch(h, body, cap);
    LeadingNameReads(name, rest);
    ToUnit(fs, s, h, body, cap, Removexattr(Ctx(h), h.nodeid, name));
  }

  /** A zero size asks only for the attribute's length; any other gives a span cut to the room. */
  lemma GetxattrAnswered<S>(fs: Filesystem<S>, s: S, h: InHeader, ext: seq<byte>, size: u32, pad: u32, name: seq<byte>,
                            rest: seq<byte>, cap: nat)
    requires h.opcode == GETXATTR && |ext| == h.Ext() && NulFree(name)
    ensures var x := Context(h.uid, h.gid, h.pid, h.nodeid, h.unique);
            var (t', reply) := Dispatch(fs, s, h, ext + PutGetxattr(size, pad, name) + rest, cap);
            if size == 0 then var (t, rv) := fs.count(s, GetxattrSize(x, h.nodeid, name)); t' == t && CountReply(reply, rv, cap)
            else
              var want := Min(size, cap);
              var (t, rv, _) := fs.fill(s, Getxattr(x, h.nodeid, name, want));
              t' == t && FillReply(reply, rv, want)
  {
    hide Decode, DecodeGetxattr, PutGetxattr;
    var body := ext + PutGetxattr(size, pad, name) + rest;
    Switch(h, body, cap);
    GetxattrRoundTrip(h, ext, size, pad, name, rest, cap);
    if size == 0 {
      ToCount(fs, s, h, body, cap, GetxattrSize(Ctx(h), h.nodeid, name));
    } else {
      ToFill(fs, s, h, body, cap, Getxattr(Ctx(h), h.nodeid, name, Min(size, cap)));
    }
  }

  lemma ListxattrAnswered<S>(fs: Filesystem<S>, s: S, h: InHeader, ext: seq<byte>, size: u32, rest: seq<byte>, cap: nat)
    requires h.opcode == LISTXATTR && |ext| == h.Ext() && 4 <= |rest|
    ensures var x := Context(h.uid, h.gid, h.pid, h.nodeid, h.unique);
            var (t', reply) := Dispatch(fs, s, h, ext + Put32(size) + rest, cap);
            if size == 0 then var (t, rv) := fs.count(s, ListxattrSize(x, h.nodeid)); t' == t && CountReply(reply, rv, cap)
            else
              var want := Min(size, cap);
              var (t, rv, _) := fs.fill(s, Listxattr(x, h.nodeid, want));
              t' == t && FillReply(reply, rv, want)
  {
    hide Decode, At32, Put32;
    var body := ext + Put32(size) + rest;
    Switch(h, body, cap);
    Field32(ext, size, rest);
    if size == 0 {
      ToCount(fs, s, h, body, cap, ListxattrSize(Ctx(h), h.nodeid));
    } else {
      ToFill(fs, s, h, body, cap, Listxattr(Ctx(h), h.nodeid, Min(size, cap)));
    }
  }

  // ---- Files and directories -----------------------------------------------

  lemma OpenAnswered<S>(fs: Filesystem<S>, s: S, h: InHeader, ext: seq<byte>, flags: u32, rest: seq<byte>, cap: nat)
    requires h.opcode == OPEN && |ext| == h.Ext() && 4 <= |rest|
    ensures var x := Context(h.uid, h.gid, h.pid, h.nodeid, h.unique);
            var body := ext + Put32(flags) + rest;
            var (t, rv) := fs.open(s, Open(x, h.nodeid, flags));
            var (t', reply) := Dispatch(fs, s, h, body, cap);
            t' == t && OpenReply(reply, rv, false, cap)
  {
    hide Decode, At32, Put32;
    var body := ext + Put32(flags) + rest;
    Switch(h, body, cap);
    Field32(ext, flags, rest);
    ToOpen(fs, s, h, body, cap, Open(Ctx(h), h.nodeid, flags));
  }

  lemma OpendirAnswered<S>(fs: Filesystem<S>, s: S, h: InHeader, body: seq<byte>, cap: nat)
    requires h.opcode == OPENDIR
    ensures var x := Context(h.uid, h.gid, h.pid, h.nodeid, h.unique);
            var (t, rv) := fs.open(s, Opendir(x, h.nodeid));
            var (t', reply) := Dispatch(fs, s, h, body, cap);
            t' == t && OpenReply(reply, rv, true, cap)
  {
    hide Decode;
    Switch(h, body, cap);
    ToOpen(fs, s, h, body, cap, Opendir(Ctx(h), h.nodeid));
  }

  lemma ReleaseAnswered<S>(fs: Filesystem<S>, s: S, h: InHeader, ext: seq<byte>, fh: u64, flags: u32, more: u32,
                           rest: seq<byte>, cap: nat)
    requires h.opcode == RELEASE && |ext| == h.Ext() && 8 <= |rest|
    ensures var x := Context(h.uid, h.gid, h.pid, h.nodeid, h.unique);
            var body := ext + (Put64(fh) + Put32(flags) + Put32(more) + rest);
            var (t, rv) := fs.unit(s, Release(x, h.nodeid, fh, flags));
            var (t', reply) := Dispatch(fs, s, h, body, cap);
            t' == t && UnitReply(reply, rv)
  {
    hide Decode, At64, At32, Put64, Put32;
    var body := ext + (Put64(fh) + Put32(flags) + Put32(more) + rest);
    Switch(h, body, cap);
    Rename2Fields(ext, fh, flags, more, rest);
    ToUnit(fs, s, h, body, cap, Release(Ctx(h), h.nodeid, fh, flags));
  }

  lemma ReleasedirAnswered<S>(fs: Filesystem<S>, s: S, h: InHeader, ext: seq<byte>, fh: u64, flags: u32, more: u32,
                           rest: seq<byte>, cap: nat)
    requires h.opcode == RELEASEDIR && |ext| == h.Ext() && 8 <= |rest|
    ensures var x := Context(h.uid, h.gid, h.pid, h.nodeid, h.unique);
            var body := ext + (Put64(fh) + Put32(flags) + Put32(more) + rest);
            var (t, rv) := fs.unit(s, Releasedir(x, h.nodeid, fh));
            var (t', reply) := Dispatch(fs, s, h, body, cap);
            t' == t && UnitReply(reply, rv)
  {
    hide Decode, At64, At32, Put64, Put32;
    var body := ext + (Put64(fh) + Put32(flags) + Put32(more) + rest);
    Switch(h, body, cap);
    Rename2Fields(ext, fh, flags, more, rest);
    ToUnit(fs, s, h, body, cap, Releasedir(Ctx(h), h.nodeid, fh));
  }

  lemma ReadAnswered<S>(fs: Filesystem<S>, s: S, h: InHeader, ext: seq<byte>, fh: u64, offset: u64, size: u32,
                        rest: seq<byte>, cap: nat)
    requires h.opcode == READ && |ext| == h.Ext() && 20 <= |rest|
    ensures var x := Context(h.uid, h.gid, h.pid, h.nodeid, h.unique);
            var body := ext + (Put64(fh) + Put64(offset) + Put32(size) + rest);
            var (t, rv, _) := fs.fill(s, Read(x, h.nodeid, fh, offset, Min(size, cap)));
            var (t', reply) := Dispatch(fs, s, h, body, cap);
            t' == t && FillReply(reply, rv, Min(size, cap))
  {
    hide Decode, At64, At32, Put64, Put32;
    var body := ext + (Put64(fh) + Put64(offset) + Put32(size) + rest);
    Switch(h, body, cap);
    IoFields(ext, fh, offset, size, rest);
    ToFill(fs, s, h, body, cap, Read(Ctx(h), h.nodeid, fh, offset, Min(size, cap)));
  }

  lemma WriteAnswered<S>(fs: Filesystem<S>, s: S, h: InHeader, ext: seq<byte>, fh: u64, offset: u64, flags: u32,
                         more: seq<byte>, data: seq<byte>, rest: seq<byte>, cap: nat)
    requires h.opcode == WRITE && |ext| == h.Ext() && |data| < TWO32 && |more| == 16
    ensures var x := Context(h.uid, h.gid, h.pid, h.nodeid, h.unique);
            var body := ext + PutWrite(fh, offset, flags, more, data) + rest;
            var (t, rv) := fs.count(s, Write(x, h.nodeid, fh, offset, data));
            var (t', reply) := Dispatch(fs, s, h, body, cap);
            t' == t && CountReply(reply, rv, cap)
  {
    hide Decode, DecodeWrite, PutWrite;
    var body := ext + PutWrite(fh, offset, flags, more, data) + rest;
    Switch(h, body, cap);
    WriteRoundTrip(h, ext, fh, offset, flags, more, data, rest);
    ToCount(fs, s, h, body, cap, Write(Ctx(h), h.nodeid, fh, offset, data));
  }

  lemma FallocateFields(ext: seq<byte>, fh: u64, offset: u64, length: u64, mode: u32, rest: seq<byte>)
    ensures var body := ext + (Put64(fh) + Put64(offset) + Put64(length) + Put32(mode) + rest);
            && At64(body, |ext|) == fh && At64(body, |ext| + 8) == offset && At64(body, |ext| + 16) == length
            && At32(body, |ext| + 24) == mode
  {
    hide Put64, Put32, At64, At32;
    var a, b, c, d := Put64(fh), Put64(offset), Put64(length), Put32(mode);
    var body := ext + (a + b + c + d + rest);
    assert body == ext + a + (b + c + d + rest) && body == (ext + a) + b + (c + d + rest);
    assert body == (ext + a + b) + c + (d + rest) && body == (ext + a + b + c) + d + rest;
    Field64(ext, fh, b + c + d + rest);
    Field64(ext + a, offset, c + d + rest);
    Field64(ext + a + b, length, d + rest);
    Field32(ext + a + b + c, mode, rest);
  }

  lemma FallocateAnswered<S>(fs: Filesystem<S>, s: S, h: InHeader, ext: seq<byte>, fh: u64, offset: u64, length: u64,
                             mode: u32, rest: seq<byte>, cap: nat)
    requires h.opcode == FALLOCATE && |ext| == h.Ext() && 4 <= |rest|
    ensures var x := Context(h.uid, h.gid, h.pid, h.nodeid, h.unique);
            var body := ext + (Put64(fh) + Put64(offset) + Put64(length) + Put32(mode) + rest);
            var (t, rv) := fs.unit(s, Fallocate(x, h.nodeid, fh, mode, offset, length));
            var (t', reply) := Dispatch(fs, s, h, body, cap);
            t' == t && UnitReply(reply, rv)
  {
    hide Decode, At64, At32, Put64, Put32;
    var body := ext + (Put64(fh) + Put64(offset) + Put64(length) + Put32(mode) + rest);
    Switch(h, body, cap);
    FallocateFields(ext, fh, offset, length, mode, rest);
    ToUnit(fs, s, h, body, cap, Fallocate(Ctx(h), h.nodeid, fh, mode, offset, length));
  }

  /** READDIR is answered with records that walk back as the entries the writer took, in order. */
  lemma ReaddirAnswered<S>(fs: Filesystem<S>, s: S, h: InHeader, ext: seq<byte>, fh: u64, offset: u64, size: u32,
                           rest: seq<byte>, cap: nat)
    requires h.opcode == READDIR && |ext| == h.Ext() && 20 <= |rest|
    ensures var x := Context(h.uid, h.gid, h.pid, h.nodeid, h.unique);
            var room := Min(size, cap);
            var (t, rv, _) := fs.readdir(s, x, h.nodeid, fh, offset, room);
            var (t', reply) := Dispatch(fs, s, h, ext + (Put64(fh) + Put64(offset) + Put32(size) + rest), cap);
            && t' == t
            && if rv.Err? then reply == Failed(rv.errno)
               else reply.Replied? && |reply.payload| <= room && Dirents.Walk(reply.payload) == Dirents.Accepted(rv.value, room)
  {
    hide Decode, At64, At32, Put64, Put32, Dirents.Walk, Dirents.Accepted, Dirents.PutAll;
    var body := ext + (Put64(fh) + Put64(offset) + Put32(size) + rest);
    Switch(h, body, cap);
    IoFields(ext, fh, offset, size, rest);
    var rv := fs.readdir(s, Ctx(h), h.nodeid, fh, offset, Min(size, cap)).1;
    if rv.Ok? {
      Dirents.DirentRoundTrip(rv.value, Min(size, cap));
    }
  }

  // ---- Attributes, links, forgets, the rest ----------------------------------

  lemma StatxAnswered<S>(fs: Filesystem<S>, s: S, h: InHeader, body: seq<byte>, cap: nat)
    requires h.opcode == STATX && h.Ext() + 24 <= |body|
    ensures var x := Context(h.uid, h.gid, h.pid, h.nodeid, h.unique);
            var (t, rv) := fs.attr(s, Statx(x, h.nodeid));
            var (t', reply) := Dispatch(fs, s, h, body, cap);
            t' == t && BytesReply(reply, rv, cap)
  {
    hide Decode;
    Switch(h, body, cap);
    ToAttr(fs, s, h, body, cap, Statx(Ctx(h), h.nodeid));
  }

  lemma SetstatxAnswered<S>(fs: Filesystem<S>, s: S, h: InHeader, fh: u64, more: seq<byte>, stat: seq<byte>,
                            rest: seq<byte>, cap: nat)
    requires h.opcode == SETSTATX && h.extlen == 0 && |more| == 8 && |stat| == STATX_SIZE
    ensures var x := Context(h.uid, h.gid, h.pid, h.nodeid, h.unique);
            var body := PutSetstatx([], fh, more, stat) + rest;
            var (t, rv) := fs.attr(s, Setstatx(x, h.nodeid, fh, stat));
            var (t', reply) := Dispatch(fs, s, h, body, cap);
            t' == t && BytesReply(reply, rv, cap)
  {
    hide Decode, DecodeSetstatx, PutSetstatx;
    var body := PutSetstatx([], fh, more, stat) + rest;
    Switch(h, body, cap);
    SetstatxRoundTrip(h, fh, more, stat, rest);
    ToAttr(fs, s, h, body, cap, Setstatx(Ctx(h), h.nodeid, fh, stat));
  }

  lemma ReadlinkAnswered<S>(fs: Filesystem<S>, s: S, h: InHeader, body: seq<byte>, cap: nat)
    requires h.opcode == READLINK
    ensures var x := Context(h.uid, h.gid, h.pid, h.nodeid, h.unique);
            var (t, rv) := fs.readlink(s, x, h.nodeid);
            var (t', reply) := Dispatch(fs, s, h, body, cap);
            t' == t && BytesReply(reply, rv, cap)
  {
    hide Decode;
    Switch(h, body, cap);
    var rv := fs.readlink(s, Ctx(h), h.nodeid).1;
  }

  lemma StatfsAnswered<S>(fs: Filesystem<S>, s: S, h: InHeader, body: seq<byte>, cap: nat)
    requires h.opcode == STATFS
    ensures var x := Context(h.uid, h.gid, h.pid, h.nodeid, h.unique);
            var (t, rv) := fs.statfs(s, x, h.nodeid);
            var (t', reply) := Dispatch(fs, s, h, body, cap);
            t' == t && BytesReply(reply, rv, cap)
  {
    hide Decode;
    Switch(h, body, cap);
    var rv := fs.statfs(s, Ctx(h), h.nodeid).1;
  }

  lemma ForgetAnswered<S>(fs: Filesystem<S>, s: S, h: InHeader, ext: seq<byte>, nlookup: u64, rest: seq<byte>, cap: nat)
    requires h.opcode == FORGET && |ext| == h.Ext()
    ensures Dispatch(fs, s, h, ext + Put64(nlookup) + rest, cap) == (fs.forget(s, Forget(h.nodeid, nlookup)), Replied([]))
  {
    hide Decode, At64, Put64;
    Switch(h, ext + Put64(nlookup) + rest, cap);
    Field64(ext, nlookup, rest);
  }

  lemma BatchForgetAnswered<S>(fs: Filesystem<S>, s: S, h: InHeader, dummy: u32, items: seq<(u64, u64)>, rest: seq<byte>,
                               cap: nat)
    requires h.opcode == BATCH_FORGET && h.extlen == 0 && |items| < TWO32
    ensures Dispatch(fs, s, h, PutBatchForget([], dummy, items) + rest, cap) == (fs.forget(s, ForgetMulti(items)), Replied([]))
  {
    hide Decode, DecodeBatchForget, PutBatchForget;
    Switch(h, PutBatchForget([], dummy, items) + rest, cap);
    BatchForgetRoundTrip(h, dummy, items, rest);
  }

  /** A kernel without FUSE_OVER_IO_URING, bit 9 of flags2, is refused. */
  lemma InitAnswered<S>(fs: Filesystem<S>, s: S, h: InHeader, ext: seq<byte>, args: seq<byte>, rest: seq<byte>, cap: nat)
    requires h.opcode == INIT && |ext| == h.Ext() && |args| == 64
    ensures var (t', reply) := Dispatch(fs, s, h, ext + args + rest, cap);
            if At32(args, 16) / 512 % 2 == 0 then t' == s && reply == Failed(EOPNOTSUPP)
            else var (t, rv) := fs.init(s, args); t' == t && BytesReply(reply, rv, cap)
  {
    hide Decode;
    var body := ext + args + rest;
    Switch(h, body, cap);
    assert body[h.Ext()..h.Ext() + 64] == args;
    assert forall i :: 0 <= i < 64 ==> body[h.Ext() + i] == args[i];
    var rv := fs.init(s, args).1;
  }

  lemma UnknownAnswered<S>(fs: Filesystem<S>, s: S, h: InHeader, body: seq<byte>, cap: nat)
    requires h.opcode !in KNOWN
    ensures Dispatch(fs, s, h, body, cap) == (s, Failed(ENOSYS))
  {
  }

  /** The opcodes of the switch, by number; COMPOUND, 60, is not among them. */
  const KNOWN: set<u32> :=
    {2, 5, 10, 11, 13, 14, 15, 16, 17, 18, 21, 22, 23, 24, 26, 27, 28, 29, 42, 43, 45, 52, 54, 55, 56, 58}

  // ---- Refusals ------------------------------------------------------------

  /** At least two NULs. */
  predicate TwoStrings(s: seq<byte>) {
    exists i, j :: 0 <= i < j < |s| && s[i] == 0 && s[j] == 0
  }

  /** The body is too short for its struct, or for the sizes in it, or lacks a terminator. */
  predicate Unreadable(h: InHeader, body: seq<byte>)
    requires InBounds(h, body)
  {
    var op, e := h.opcode, h.Ext();
    if op == LOOKUPX || op == UNLINK || op == RMDIR then NulFree(body)
    else if op == REMOVEXATTR then NulFree(body[e..])
    else if op == LINK || op == GETXATTR then |body| < e + 8 || NulFree(body[e + 8..])
    else if op == RENAME2 then |body| < e + 16 || !TwoStrings(body[e + 16..])
    else if op == SETXATTR then |body| < e + 16 || ValueMissing(body[e + 16..], At32(body, e))
    else if op == WRITE then |body| < e + 40 || |body| - (e + 40) < At32(body, e + 16)
    else if op == MKOBJX then |body| < e + 320 || |body| < 320 + At32(body, e)
    else if op == INIT then |body| < e + 64
    else if op == SETSTATX then |body| < e + 272
    else if op == READ || op == READDIR then |body| < e + 40
    else if op == FALLOCATE then |body| < e + 32
    else if op == STATX || op == RELEASE || op == RELEASEDIR then |body| < e + 24
    else if op == OPEN || op == LISTXATTR || op == FORGET || op == BATCH_FORGET then |body| < e + 8
    else false
  }

  /** No name, or fewer than `size` bytes behind it. */
  predicate ValueMissing(s: seq<byte>, size: nat) {
    forall i :: 0 <= i < |s| && s[i] == 0 && NulFree(s[..i]) ==> |s| - (i + 1) < size
  }

  lemma NoTerminator(s: seq<byte>)
    ensures StrNLen(s) == |s| <==> NulFree(s)
  {
    hide StrNLen;
    var n := StrNLen(s);
    assert n < |s| ==> s[n] == 0;
  }

  lemma TwoTerminators(s: seq<byte>)
    ensures TwoStrings(s) <==> StrNLen(s) < |s| && StrNLen(s[StrNLen(s) + 1..]) < |s| - (StrNLen(s) + 1)
  {
    hide StrNLen, TwoStrings;
    var n := StrNLen(s);
    if n < |s| {
      NoTerminator(s[n + 1..]);
    }
    SecondBehindFirst(s, n);
  }

  /** A second NUL lies behind the first one. */
  lemma SecondBehindFirst(s: seq<byte>, n: nat)
    requires n <= |s| && NulFree(s[..n]) && (n < |s| ==> s[n] == 0)
    ensures TwoStrings(s) <==> n < |s| && !NulFree(s[n + 1..])
  {
    assert forall i :: 0 <= i < n ==> s[i] == s[..n][i];
    if n < |s| && !NulFree(s[n + 1..]) {
      var j :| 0 <= j < |s| - n - 1 && s[n + 1..][j] == 0;
      assert s[n] == 0 && s[n + 1 + j] == 0;
    }
    if TwoStrings(s) {
      var i, j :| 0 <= i < j < |s| && s[i] == 0 && s[j] == 0;
      assert s[n + 1..][j - n - 1] == 0;
    }
  }

  lemma ValueBehind(s: seq<byte>, size: nat)
    ensures ValueMissing(s, size) <==> StrNLen(s) == |s| || |s| - (StrNLen(s) + 1) < size
  {
    hide StrNLen;
    var n := StrNLen(s);
    if n < |s| {
      assert s[n] == 0 && NulFree(s[..n]);
    }
    forall i | 0 <= i < |s| && s[i] == 0 && NulFree(s[..i]) ensures i <= n {
      assert forall k :: 0 <= k < i ==> s[k] == s[..i][k];
    }
  }

  lemma NamesReadIff(h: InHeader, body: seq<byte>, cap: nat)
    requires InBounds(h, body)
    ensures DecodeLookupx(h, body) == Err(EINVAL) <==> NulFree(body)
    ensures DecodeUnlink(h, body, false) == Err(EINVAL) <==> NulFree(body)
    ensures DecodeUnlink(h, body, true) == Err(EINVAL) <==> NulFree(body)
    ensures h.Ext() <= |body| ==> (DecodeRemovexattr(h, body) == Err(EINVAL) <==> NulFree(body[h.Ext()..]))
    ensures DecodeLink(h, body) == Err(EINVAL) <==> |body| < h.Ext() + 8 || NulFree(body[h.Ext() + 8..])
    ensures DecodeGetxattr(h, body, cap) == Err(EINVAL) <==> |body| < h.Ext() + 8 || NulFree(body[h.Ext() + 8..])
  {
    hide StrNLen, NulFree, At32, At64;
    NoTerminator(body);
    if h.Ext() <= |body| {
      NoTerminator(body[h.Ext()..]);
    }
    if h.Ext() + 8 <= |body| {
      NoTerminator(body[h.Ext() + 8..]);
    }
  }

  lemma ValuesReadIff(h: InHeader, body: seq<byte>)
    requires InBounds(h, body)
    ensures DecodeRename2(h, body) == Err(EINVAL) <==> |body| < h.Ext() + 16 || !TwoStrings(body[h.Ext() + 16..])
    ensures DecodeSetxattr(h, body) == Err(EINVAL)
       <==> |body| < h.Ext() + 16 || ValueMissing(body[h.Ext() + 16..], At32(body, h.Ext()))
  {
    hide StrNLen, TwoStrings, ValueMissing, At32, At64;
    if h.Ext() + 16 <= |body| {
      TwoTerminators(body[h.Ext() + 16..]);
      ValueBehind(body[h.Ext() + 16..], At32(body, h.Ext()));
    }
  }

  /** A request is refused before any callback exactly when its body cannot be read. */
  lemma RefusedIff<S>(fs: Filesystem<S>, s: S, h: InHeader, body: seq<byte>, cap: nat)
    requires InBounds(h, body)
    ensures Decode(h, body, cap) == Err(EINVAL) <==> Unreadable(h, body)
    ensures Unreadable(h, body) ==> Dispatch(fs, s, h, body, cap) == (s, Failed(EINVAL))
  {
    hide Decode, DecodeLookupx, DecodeUnlink, DecodeRemovexattr, DecodeLink, DecodeGetxattr, DecodeRename2, DecodeSetxattr;
    hide At32, At64, NulFree, TwoStrings, ValueMissing, ForgetItems, LinkBody, IsLink;
    Switch(h, body, cap);
    NamesReadIff(h, body, cap);
    ValuesReadIff(h, body);
    if h.opcode !in KNOWN {
      NeverRead(h, body, cap);
    }
  }

  lemma NeverRead(h: InHeader, body: seq<byte>, cap: nat)
    requires h.opcode !in KNOWN
    ensures Decode(h, body, cap) == Err(ENOSYS)
  {
  }
}
