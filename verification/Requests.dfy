/**
  From request bytes to callback arguments: the argument decoding of the
  per-opcode handlers in src/handlers.cpp, with the extension handling each of
  them has.
 */
module Requests {
  import opened Bytes
  import opened Wire
  import opened Filesystem

  const STATX_SIZE: nat := 256
  const MKOBJX_HEAD: nat := 64
  const MKOBJX_NAME: nat := 320
  const SETSTATX_HEAD: nat := 16
  const MODE_OFFSET: nat := 28

  function Ctx(h: InHeader): (c: Context) {
    Context(h.uid, h.gid, h.pid, h.nodeid, h.unique)
  }

  /** in_arg: a fixed argument struct of `size` bytes is present behind the extensions. */
  predicate HasArg(h: InHeader, body: seq<byte>, size: nat) {
    h.Ext() + size <= |body|
  }

  function Invalid(): (r: Result<Call>) { Err(EINVAL) }

  function DecodeInit(h: InHeader, body: seq<byte>): (r: Result<Call>) {
    if !HasArg(h, body, 64) then Invalid()
    // FUSE_OVER_IO_URING is bit 41, that is bit 9 of flags2.
    else if At32(body, h.Ext() + 16) / 512 % 2 == 0 then Err(EOPNOTSUPP)
    else Ok(Init(body[h.Ext()..h.Ext() + 64]))
  }

  /** The name of LOOKUPX, UNLINK and RMDIR, read from the head of the body. */
  function LeadingName(body: seq<byte>): (r: Result<seq<byte>>) {
    var n := StrNLen(body);
    if n == |body| then Err(EINVAL) else Ok(body[..n])
  }

  function DecodeLookupx(h: InHeader, body: seq<byte>): (r: Result<Call>) {
    var name := LeadingName(body);
    if name.Err? then Invalid() else Ok(Entry(Lookupx(Ctx(h), h.nodeid, name.value)))
  }

  function DecodeUnlink(h: InHeader, body: seq<byte>, rmdir: bool): (r: Result<Call>) {
    var name := LeadingName(body);
    if name.Err? then Invalid()
    else if rmdir then Ok(Unit(Rmdir(Ctx(h), h.nodeid, name.value)))
    else Ok(Unit(Unlink(Ctx(h), h.nodeid, name.value)))
  }

  function DecodeForget(h: InHeader, body: seq<byte>): (r: Result<Call>) {
    if !HasArg(h, body, 8) then Invalid() else Ok(Drop(Forget(h.nodeid, At64(body, h.Ext()))))
  }

  /** The `i`th fuse_forget_one of a batch. */
  function ForgetOne(body: seq<byte>, i: nat): (item: (u64, u64))
    requires 8 + 16 * i + 16 <= |body|
  {
    (At64(body, 8 + 16 * i), At64(body, 8 + 16 * i + 8))
  }

  /** The first `count` items of a batch. */
  function ForgetItems(body: seq<byte>, count: nat): (items: seq<(u64, u64)>)
    requires 8 + 16 * count <= |body|
    ensures |items| == count
    ensures forall i :: 0 <= i < count ==> items[i] == ForgetOne(body, i)
  {
    if count == 0 then [] else ForgetItems(body, count - 1) + [ForgetOne(body, count - 1)]
  }

  /** A truncated batch is answered without calling the daemon. */
  function DecodeBatchForget(h: InHeader, body: seq<byte>): (r: Result<Call>) {
    if !HasArg(h, body, 8) then Invalid()
    else
      var count := At32(body, h.Ext());
      if |body| < 8 + 16 * count then Ok(Nothing)
      else Ok(Drop(ForgetMulti(ForgetItems(body, count))))
  }

  function DecodeStatx(h: InHeader, body: seq<byte>): (r: Result<Call>) {
    if !HasArg(h, body, 24) then Invalid() else Ok(Attr(Statx(Ctx(h), h.nodeid)))
  }

  function DecodeSetstatx(h: InHeader, body: seq<byte>): (r: Result<Call>) {
    if !HasArg(h, body, SETSTATX_HEAD + STATX_SIZE) then Invalid()
    else Ok(Attr(Setstatx(Ctx(h), h.nodeid, At64(body, h.Ext()), body[SETSTATX_HEAD..SETSTATX_HEAD + STATX_SIZE])))
  }

  /** (mode & S_IFMT) == S_IFLNK. */
  predicate IsLink(stat: seq<byte>)
    requires |stat| == STATX_SIZE
  {
    At16(stat, MODE_OFFSET) / 0x1000 == 0xa
  }

  /** The symlink body behind the name: up to its NUL, or all of it. */
  function LinkBody(body: seq<byte>, after: nat): (s: seq<byte>) {
    if after < |body| then body[after..after + StrNLen(body[after..])] else []
  }

  function DecodeMkobjx(h: InHeader, body: seq<byte>): (r: Result<Call>) {
    if !HasArg(h, body, MKOBJX_NAME) then Invalid()
    else
      var namesize, flags := At32(body, h.Ext()), At32(body, h.Ext() + 4);
      var stat := body[MKOBJX_HEAD..MKOBJX_NAME];
      if |body| < MKOBJX_NAME + namesize then Invalid()
      else
        var name := body[MKOBJX_NAME..MKOBJX_NAME + if namesize == 0 then 0 else namesize - 1];
        var link := if IsLink(stat) then LinkBody(body, MKOBJX_NAME + namesize) else [];
        Ok(Entry(Mkobjx(Ctx(h), h.nodeid, MkobjxIn(flags, name, link, stat))))
  }

  function DecodeRename2(h: InHeader, body: seq<byte>): (r: Result<Call>) {
    var off := h.Ext() + 16;
    if |body| < off + 2 then Invalid()
    else
      var names := body[off..];
      var n := StrNLen(names);
      if n == |names| then Invalid()
      else
        var second := names[n + 1..];
        var m := StrNLen(second);
        if m == |second| then Invalid()
        else Ok(Unit(Rename(Ctx(h), h.nodeid, names[..n], At64(body, h.Ext()), second[..m], At32(body, h.Ext() + 8))))
  }

  function DecodeLink(h: InHeader, body: seq<byte>): (r: Result<Call>) {
    var off := h.Ext() + 8;
    if |body| < off + 1 then Invalid()
    else
      var n := StrNLen(body[off..]);
      if n == |body| - off then Invalid()
      else Ok(Unit(Link(Ctx(h), At64(body, h.Ext()), h.nodeid, body[off..off + n])))
  }

  function DecodeOpen(h: InHeader, body: seq<byte>): (r: Result<Call>) {
    if !HasArg(h, body, 8) then Invalid() else Ok(OpenAny(Open(Ctx(h), h.nodeid, At32(body, h.Ext()))))
  }

  function DecodeRelease(h: InHeader, body: seq<byte>, dir: bool): (r: Result<Call>) {
    if !HasArg(h, body, 24) then Invalid()
    else if dir then Ok(Unit(Releasedir(Ctx(h), h.nodeid, At64(body, h.Ext()))))
    else Ok(Unit(Release(Ctx(h), h.nodeid, At64(body, h.Ext()), At32(body, h.Ext() + 8))))
  }

  /** READ and READDIR share fuse_read_in; the span is cut to the reply room. */
  function DecodeRead(h: InHeader, body: seq<byte>, cap: nat, dir: bool): (r: Result<Call>) {
    if !HasArg(h, body, 40) then Invalid()
    else
      var fh, offset := At64(body, h.Ext()), At64(body, h.Ext() + 8);
      var want := Min(At32(body, h.Ext() + 16), cap);
      if dir then Ok(Readdir(Ctx(h), h.nodeid, fh, offset, want))
      else Ok(Fill(Read(Ctx(h), h.nodeid, fh, offset, want)))
  }

  function DecodeWrite(h: InHeader, body: seq<byte>): (r: Result<Call>) {
    var off := h.Ext() + 40;
    if |body| < off then Invalid()
    else
      var size := At32(body, h.Ext() + 16);
      if |body| - off < size then Invalid()
      else Ok(Count(Write(Ctx(h), h.nodeid, At64(body, h.Ext()), At64(body, h.Ext() + 8), body[off..off + size])))
  }

  function DecodeFallocate(h: InHeader, body: seq<byte>): (r: Result<Call>) {
    if !HasArg(h, body, 32) then Invalid()
    else
      var e := h.Ext();
      Ok(Unit(Fallocate(Ctx(h), h.nodeid, At64(body, e), At32(body, e + 24), At64(body, e + 8), At64(body, e + 16))))
  }

  /** A zero size asks only for the attribute's length. */
  function DecodeGetxattr(h: InHeader, body: seq<byte>, cap: nat): (r: Result<Call>) {
    var off := h.Ext() + 8;
    if |body| < off + 1 then Invalid()
    else
      var n := StrNLen(body[off..]);
      if n == |body| - off then Invalid()
      else
        var name, size := body[off..off + n], At32(body, h.Ext());
        if size == 0 then Ok(Count(GetxattrSize(Ctx(h), h.nodeid, name)))
        else Ok(Fill(Getxattr(Ctx(h), h.nodeid, name, Min(size, cap))))
  }

  function DecodeSetxattr(h: InHeader, body: seq<byte>): (r: Result<Call>) {
    var off := h.Ext() + 16;
    if |body| < off + 1 then Invalid()
    else
      var n := StrNLen(body[off..]);
      if n == |body| - off then Invalid()
      else
        var after, size := off + n + 1, At32(body, h.Ext());
        if |body| < after + size then Invalid()
        else Ok(Unit(Setxattr(Ctx(h), h.nodeid, body[off..off + n], body[after..after + size], At32(body, h.Ext() + 4))))
  }

  function DecodeListxattr(h: InHeader, body: seq<byte>, cap: nat): (r: Result<Call>) {
    if !HasArg(h, body, 8) then Invalid()
    else
      var size := At32(body, h.Ext());
      if size == 0 then Ok(Count(ListxattrSize(Ctx(h), h.nodeid)))
      else Ok(Fill(Listxattr(Ctx(h), h.nodeid, Min(size, cap))))
  }

  /** The handler computes `body_len - ext` unchecked. */
  predicate InBounds(h: InHeader, body: seq<byte>) {
    h.opcode == REMOVEXATTR ==> h.Ext() <= |body|
  }

  function DecodeRemovexattr(h: InHeader, body: seq<byte>): (r: Result<Call>)
    requires h.Ext() <= |body|
  {
    var name := LeadingName(body[h.Ext()..]);
    if name.Err? then Invalid() else Ok(Unit(Removexattr(Ctx(h), h.nodeid, name.value)))
  }

  /** The switch of `dispatch`, for every opcode but COMPOUND: which callback a
      request reaches, with which arguments, or the error it is refused with. */
  function Decode(h: InHeader, body: seq<byte>, cap: nat): (r: Result<Call>)
    requires InBounds(h, body)
  {
    var op := h.opcode;
    if op == INIT then DecodeInit(h, body)
    else if op == LOOKUP_ROOT then Ok(Entry(LookupRoot(Ctx(h))))
    else if op == LOOKUPX then DecodeLookupx(h, body)
    else if op == FORGET then DecodeForget(h, body)
    else if op == BATCH_FORGET then DecodeBatchForget(h, body)
    else if op == STATX then DecodeStatx(h, body)
    else if op == SETSTATX then DecodeSetstatx(h, body)
    else if op == MKOBJX then DecodeMkobjx(h, body)
    else if op == UNLINK then DecodeUnlink(h, body, false)
    else if op == RMDIR then DecodeUnlink(h, body, true)
    else if op == RENAME2 then DecodeRename2(h, body)
    else if op == LINK then DecodeLink(h, body)
    else if op == READ then DecodeRead(h, body, cap, false)
    else if op == WRITE then DecodeWrite(h, body)
    else if op == READLINK then Ok(Readlink(Ctx(h), h.nodeid))
    else if op == STATFS then Ok(Statfs(Ctx(h), h.nodeid))
    else if op == FALLOCATE then DecodeFallocate(h, body)
    else if op == OPEN then DecodeOpen(h, body)
    else if op == RELEASE then DecodeRelease(h, body, false)
    else if op == OPENDIR then Ok(OpenAny(Opendir(Ctx(h), h.nodeid)))
    else if op == RELEASEDIR then DecodeRelease(h, body, true)
    else if op == READDIR then DecodeRead(h, body, cap, true)
    else if op == GETXATTR then DecodeGetxattr(h, body, cap)
    else if op == SETXATTR then DecodeSetxattr(h, body)
    else if op == LISTXATTR then DecodeListxattr(h, body, cap)
    else if op == REMOVEXATTR then DecodeRemovexattr(h, body)
    else Err(ENOSYS)
  }
}
