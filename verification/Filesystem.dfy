/**
  The daemon behind the dispatcher: fex::Filesystem as an arbitrary stateful
  oracle. A callback receives the decoded arguments and the daemon's state and
  gives an answer and a next state; nothing else is known of it, except that an
  error is never error code 0.
 */
module Filesystem {
  import opened Bytes
  import Dirents

  type Errno = e: int | 0 < e < 0x8000_0000 witness 1

  datatype Result<+T> = Ok(value: T) | Err(errno: Errno)

  datatype Context = Context(uid: u32, gid: u32, pid: u32, nodeid: u64, unique: u64)

  datatype EntryOut = EntryOut(nodeid: u64, validSec: u64, validNsec: u32, negative: bool)
  datatype OpenOut = OpenOut(fh: u64, flags: u32)

  // Reply structs whose fields are copied one by one are kept as their images.
  type StatxImage = s: seq<byte> | |s| == 288 witness Zeros(288)
  type StatfsImage = s: seq<byte> | |s| == 80 witness Zeros(80)
  type InitImage = s: seq<byte> | |s| == 64 witness Zeros(64)

  /** MKOBJX arguments; `stat` is the 256-byte image of the requested attributes. */
  datatype MkobjxIn = MkobjxIn(flags: u32, name: seq<byte>, linkTarget: seq<byte>, stat: seq<byte>)

  // Callbacks, grouped by the type they return.
  datatype EntryCall =
    | LookupRoot(ctx: Context)
    | Lookupx(ctx: Context, parent: u64, name: seq<byte>)
    | Mkobjx(ctx: Context, parent: u64, args: MkobjxIn)
  datatype AttrCall =
    | Statx(ctx: Context, nodeid: u64)
    | Setstatx(ctx: Context, nodeid: u64, fh: u64, stat: seq<byte>)
  datatype OpenCall =
    | Open(ctx: Context, nodeid: u64, flags: u32)
    | Opendir(ctx: Context, nodeid: u64)
  datatype UnitCall =
    | Unlink(ctx: Context, parent: u64, name: seq<byte>)
    | Rmdir(ctx: Context, parent: u64, name: seq<byte>)
    | Rename(ctx: Context, oldDir: u64, oldName: seq<byte>, newDir: u64, newName: seq<byte>, flags: u32)
    | Link(ctx: Context, oldNode: u64, newParent: u64, name: seq<byte>)
    | Release(ctx: Context, nodeid: u64, fh: u64, flags: u32)
    | Releasedir(ctx: Context, nodeid: u64, fh: u64)
    | Fallocate(ctx: Context, nodeid: u64, fh: u64, mode: u32, offset: u64, length: u64)
    | Setxattr(ctx: Context, nodeid: u64, name: seq<byte>, value: seq<byte>, flags: u32)
    | Removexattr(ctx: Context, nodeid: u64, name: seq<byte>)
  datatype CountCall =
    | Write(ctx: Context, nodeid: u64, fh: u64, offset: u64, data: seq<byte>)
    | GetxattrSize(ctx: Context, nodeid: u64, name: seq<byte>)
    | ListxattrSize(ctx: Context, nodeid: u64)
  /** Callbacks that fill a span of `want` bytes. */
  datatype FillCall =
    | Read(ctx: Context, nodeid: u64, fh: u64, offset: u64, want: nat)
    | Getxattr(ctx: Context, nodeid: u64, name: seq<byte>, want: nat)
    | Listxattr(ctx: Context, nodeid: u64, want: nat)
  datatype ForgetCall =
    | Forget(nodeid: u64, nlookup: u64)
    | ForgetMulti(items: seq<(u64, u64)>)

  datatype Call =
    | Nothing
    | Init(args: seq<byte>)
    | Entry(entry: EntryCall)
    | Attr(attr: AttrCall)
    | OpenAny(open: OpenCall)
    | Unit(op: UnitCall)
    | Count(count: CountCall)
    | Fill(fill: FillCall)
    | Readlink(rctx: Context, rnode: u64)
    | Statfs(sctx: Context, snode: u64)
    | Readdir(dctx: Context, dnode: u64, fh: u64, offset: u64, room: nat)
    | Drop(forget: ForgetCall)

  /**
    A fill callback answers with the data it produced (the count it returns is the
    data's length; a count beyond the span is cut to the span) and the bytes it may
    have scribbled into the span after that, or on failure from the span's start.
    A readdir callback is its list of `add` attempts: each attempt's outcome is
    determined by the span and the earlier attempts, so a list loses nothing.
   */
  datatype Filesystem<!S> = Filesystem(
    init: (S, seq<byte>) -> (S, Result<InitImage>),
    entry: (S, EntryCall) -> (S, Result<EntryOut>),
    attr: (S, AttrCall) -> (S, Result<StatxImage>),
    open: (S, OpenCall) -> (S, Result<OpenOut>),
    unit: (S, UnitCall) -> (S, Result<()>),
    count: (S, CountCall) -> (S, Result<nat>),
    fill: (S, FillCall) -> (S, Result<seq<byte>>, seq<byte>),
    readlink: (S, Context, u64) -> (S, Result<seq<byte>>),
    statfs: (S, Context, u64) -> (S, Result<StatfsImage>),
    readdir: (S, Context, u64, u64, u64, nat) -> (S, Result<seq<Dirents.Dirent>>, seq<Dirents.Dirent>),
    forget: (S, ForgetCall) -> S)
}
