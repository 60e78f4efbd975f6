# A verified model of libfex

libfex is the userspace side of fusex, a dialect of the FUSE kernel protocol (version 7.46)
spoken over io_uring. This project models its core in Dafny and proves what the code is for:

- **Requests and dispatch** (`Bytes`, `Wire`, `Filesystem`, `Requests`, `RequestCodec`, `Replies`,
  `Dispatcher`, `Opcodes`). The daemon, `fex::Filesystem`, is an arbitrary stateful oracle: a record of
  functions from state and arguments to state and answer. `Dispatch` is decode, call, reply; the
  handlers that fill a `Replier` in place are methods proved equal to it. `Opcodes` says what that
  comes to for each opcode: from the bytes a sender prints to the callback reached, and to the
  fields the reply's bytes read as.
- **Compounds** (`Compounds`, `CompoundReplies`, `Positions`). `Compound` parses the body into
  subrequests, folds dispatch over them with produced nodeids threaded along, and prints the
  frames. The pointer loop of `handle_compound` is proved to refine it, the reply is proved to
  read back, acceptance is characterised exactly, and a subrequest is shown not to depend on where
  in the compound it stands.
- **Lookup counts** (`Inodes`, `LookupCounts`, `FdLifetimes`, `Passthrough`, `Lookups`,
  `Conversations`). The inode table is a class over a map of shared inode objects. The reference
  count it keeps with the kernel is a step relation with requests, replies and forgets reordered in
  flight. Descriptor ownership is a second step relation, with callbacks interleaving. `Passthrough`
  makes the example daemon an instance of the oracle. `Lookups` compares what a compound counts with
  what the bytes of its reply tell, and `Conversations` shows every request and compound on that
  daemon to be a run of the protocol.
- **Rings** (`Transport`, `Rings`, `Workers`). One entry's buffer, split by the kernel and put back
  together; the invariant of `depth` slots moving between queue, kernel, completions and worker;
  and the worker loop against any kernel schedule, with every pass it makes accounted for. `Stand` is an independent judge of a slot's
  history of deliveries, replies and answers.
- **Directories and handles** (`Dirents`, `DirListing`, `Handles`). The record encoder and the
  kernel's walk as its decoder, resumption over opaque cookies, and the file and directory handle
  tables over a descriptor table whose numbers are reused.
- **Sessions** (`Sessions`). `Session::run` with its scope guard on every exit path, checked by a
  monitor written independently of it.

Methods are the code's loops and updates; functions are what they are proved against; lemmas say
what those functions mean. All statements are for all inputs, daemons, schedules or runs.

Some promises are false of the code, or hold only under a condition. For each the model follows the
code, gives an input that fails, and proves when the promise holds:

- `include/fex/filesystem.hpp:184-186` says the dispatcher zero-fills the tail of a short read. The
  reply is cut to the bytes read instead (`src/handlers.cpp:526-527`): `ShortRead`, `ShortReadIff`.
- LOOKUPX, UNLINK, RMDIR, SETSTATX, MKOBJX and BATCH_FORGET read at least part of the body from
  offset 0 instead of behind the extensions: the `Misread` and `FaithfulIff` lemmas of `RequestCodec`.
- A compound may count lookups that its reply does not tell: `RefusedLookup`, `StarvedLookup`,
  `CompoundLookups`.

## Model

| member | source | states |
|---|---|---|
| `Wire.InAtPut` | include/fex/fuse_uapi.h:1092-1102 | A request header printed anywhere in a buffer reads back field by field. |
| `Wire.PutInAt` | include/fex/fuse_uapi.h:1092-1102 | Printing the header read from any 40 bytes gives those bytes back, so reading loses nothing. |
| `Wire.OutAtPut` | include/fex/fuse_uapi.h:1104-1108 | A reply header with its signed error reads back as printed. |
| `RequestCodec.Rename2RoundTrip` | src/handlers.cpp:424-452 | For NUL-free names and any extension prefix, the two names, target directory and flags reach the callback as encoded. |
| `RequestCodec.LinkRoundTrip` | src/handlers.cpp:454-478 | LINK bodies behind any extensions reach the callback as encoded. |
| `RequestCodec.GetxattrRoundTrip` | src/handlers.cpp:644-678 | A zero size reaches the size query, any other a span cut to the reply room, with the encoded name, behind any extensions. |
| `RequestCodec.SetxattrRoundTrip` | src/handlers.cpp:680-706 | Name, value bytes and flags reach the callback as encoded, behind any extensions. |
| `RequestCodec.WriteRoundTrip` | src/handlers.cpp:530-554 | Handle, offset and exactly the data bytes reach the callback, behind any extensions. |
| `RequestCodec.LookupxFaithfulIff` | src/handlers.cpp:221-246 | LOOKUPX names survive decoding if and only if requests carry no extensions. |
| `RequestCodec.UnlinkRoundTrip` | src/handlers.cpp:406-422 | With no extensions the name reaches unlink or rmdir as encoded. |
| `RequestCodec.UnlinkMisread` | src/handlers.cpp:411-413 | With any extensions at all there is a request that removes another name than was sent. |
| `RequestCodec.UnlinkFaithfulIff` | src/handlers.cpp:406-422 | UNLINK and RMDIR names survive decoding if and only if requests carry no extensions. |
| `RequestCodec.SetstatxRoundTrip` | src/handlers.cpp:314-341 | With no extensions the handle and the attributes reach the callback as encoded. |
| `RequestCodec.SetstatxMisread` | src/handlers.cpp:323-328 | With any extensions at all there is a request whose attributes are read from the wrong place. |
| `RequestCodec.SetstatxFaithfulIff` | src/handlers.cpp:314-341 | SETSTATX arguments survive decoding if and only if requests carry no extensions. |
| `RequestCodec.MkobjxRoundTrip` | src/handlers.cpp:343-404 | With no extensions, flags, name, attributes and symlink body reach the callback as encoded. |
| `RequestCodec.MkobjxMisread` | src/handlers.cpp:356-379 | With any extensions at all there is a request whose name is read from the wrong place. |
| `RequestCodec.MkobjxFaithfulIff` | src/handlers.cpp:343-404 | MKOBJX arguments survive decoding if and only if requests carry no extensions. |
| `RequestCodec.BatchForgetRoundTrip` | src/handlers.cpp:263-295 | With no extensions every nodeid and count of a batch reaches the daemon, in order. |
| `RequestCodec.BatchForgetFaithfulIff` | src/handlers.cpp:263-295 | Batches survive decoding if and only if requests carry no extensions. |
| `Replies.Replier.ReplyPayload` | src/session_impl.hpp:65-79 | The slot holds the payload, or EIO with length 0 if it does not fit; no byte outside the slot changes. |
| `Replies.Replier.ReplyError` | src/session_impl.hpp:55-58 | The slot holds the error, with length 0. |
| `Dispatcher.ServeFill` | src/handlers.cpp:509-528 | Whatever the callback scribbles into its span, the reply is the data it reports, cut to the span, and nothing outside the slot changes. |
| `Dispatcher.ShortReadIff` | src/handlers.cpp:509-528 | A READ that succeeds is answered with the daemon's data zero-filled to the span if and only if the daemon filled the span; otherwise with the data alone, and shorter. |
| `Dispatcher.ShortRead` | src/handlers.cpp:520-527 | Asked for eight bytes, a daemon with one byte left has one byte sent. |
| `Dispatcher.ServeReaddir` | src/handlers.cpp:624-642 | The reply is the packing of exactly the entries the writer accepted; on an error the partial listing is dropped. |
| `Dispatcher.HandleBatchForget` | src/handlers.cpp:263-295 | The repacking loop hands the daemon the decoded items; a truncated batch is answered without calling it. |
| `Dispatcher.DispatchPlain` | src/handlers.cpp:852-892 | For every opcode but COMPOUND the imperative dispatcher has the effect and reply of the specification, inside the slot. |
| `Opcodes.LookupRootAnswered` | src/handlers.cpp:205-219 | LOOKUP_ROOT reaches lookup_root; the reply reads as the entry, its negative bit included; EIO without room, errors passed on. |
| `Opcodes.LookupxAnswered` | src/handlers.cpp:221-246 | A terminated name reaches lookupx on the header's nodeid, whatever follows it; the reply reads as the entry. |
| `Opcodes.MkobjxAnswered` | src/handlers.cpp:343-404 | Flags, name, attributes and symlink body reach mkobjx as the sizes say, terminated or not; the entry is never negative. |
| `Opcodes.UnlinkAnswered` | src/handlers.cpp:406-422 | UNLINK reaches unlink with the name; an error is passed on, success is empty. |
| `Opcodes.RmdirAnswered` | src/handlers.cpp:406-422 | RMDIR reaches rmdir with the name; an error is passed on, success is empty. |
| `Opcodes.Rename2Answered` | src/handlers.cpp:424-452 | RENAME2 reaches rename with both names and directories the right way round, and the flags. |
| `Opcodes.LinkAnswered` | src/handlers.cpp:454-478 | LINK reaches link with the old nodeid from the body and the new parent from the header. |
| `Opcodes.SetxattrAnswered` | src/handlers.cpp:680-706 | SETXATTR reaches setxattr with name, value and flags. |
| `Opcodes.GetxattrAnswered` | src/handlers.cpp:644-678 | A zero size is answered with the attribute's length, any other with its bytes cut to the span. |
| `Opcodes.ListxattrAnswered` | src/handlers.cpp:708-729 | The same for the list of attributes. |
| `Opcodes.RemovexattrAnswered` | src/handlers.cpp:731-745 | REMOVEXATTR reaches removexattr with the name behind the extensions. |
| `Opcodes.OpenAnswered` | src/handlers.cpp:480-494 | OPEN reaches open with its flags; the reply reads as handle and flags. |
| `Opcodes.OpendirAnswered` | src/handlers.cpp:597-609 | OPENDIR reaches opendir; the reply's flags have FOPEN_CACHE_DIR set and are otherwise the daemon's. |
| `Opcodes.ReleaseAnswered` | src/handlers.cpp:496-507 | RELEASE reaches release with handle and flags. |
| `Opcodes.ReleasedirAnswered` | src/handlers.cpp:611-622 | RELEASEDIR reaches releasedir with the handle. |
| `Opcodes.ReadAnswered` | src/handlers.cpp:509-528 | READ reaches read with handle, offset and a span cut to the room; the reply is the data, cut to the span. |
| `Opcodes.WriteAnswered` | src/handlers.cpp:530-554 | WRITE reaches write with handle, offset and data; the reply reads as the count. |
| `Opcodes.FallocateAnswered` | src/handlers.cpp:583-595 | FALLOCATE reaches fallocate with handle, mode, offset and length. |
| `Opcodes.ReaddirAnswered` | src/handlers.cpp:624-642 | READDIR's reply walks back as the entries the writer took, in order; errors are passed on. |
| `Opcodes.StatxAnswered` | src/handlers.cpp:297-312 | STATX reaches statx; the attributes are sent if they fit. |
| `Opcodes.SetstatxAnswered` | src/handlers.cpp:314-341 | SETSTATX reaches setstatx with handle and attributes. |
| `Opcodes.ReadlinkAnswered` | src/handlers.cpp:556-563 | READLINK's target is sent if it fits. |
| `Opcodes.StatfsAnswered` | src/handlers.cpp:565-581 | STATFS reaches statfs; its struct is sent if it fits. |
| `Opcodes.ForgetAnswered` | src/handlers.cpp:248-261 | FORGET reaches forget with the header's nodeid and the body's count. |
| `Opcodes.BatchForgetAnswered` | src/handlers.cpp:263-295 | BATCH_FORGET reaches forget_multi with all items in order. |
| `Opcodes.InitAnswered` | src/handlers.cpp:132-152 | INIT reaches init, unless the kernel lacks FUSE_OVER_IO_URING, which is EOPNOTSUPP. |
| `Opcodes.UnknownAnswered` | src/handlers.cpp:887-890 | Every other opcode is ENOSYS and touches nothing. |
| `Opcodes.RefusedIff` | src/handlers.cpp:221-745 | A request is EINVAL before any callback if and only if its body is too short for its struct or sizes, or lacks a terminator. |
| `Compounds.ParsePut` | src/handlers.cpp:777-795 | Parsing a printed list of well-formed subrequests gives the list back, completely. |
| `Compounds.PutParse` | src/handlers.cpp:777-795 | A body that parses completely is the print of its subrequests, so parsing rejects exactly what no sender prints. |
| `Compounds.RunSub` | src/handlers.cpp:797-841 | One subrequest's frame, produced nodeid and effect are those of dispatching it in the room left, and only that room is written. |
| `Compounds.Turn` | src/handlers.cpp:778-841 | One turn of the loop leaves the final result unchanged while moving one frame from what is to come to what is printed. |
| `Compounds.HandleCompound` | src/handlers.cpp:755-846 | The in-place loop terminates on every body and equals parse, fold, print, writing only inside its slot. |
| `Compounds.DispatchRequest` | src/handlers.cpp:852-892 | Every opcode, request and daemon answer ends in an error with length 0 or a payload within the room; nothing outside the slot is written; `unique` stays. |
| `CompoundReplies.WalkPut` | src/handlers.cpp:833-840 | A reader stepping by each frame's `len` recovers the printed frames and ends exactly at the end. |
| `CompoundReplies.BeforeGrows` | src/handlers.cpp:778-841 | Later subrequests leave the frames of earlier ones as they are, and a run that stopped stays stopped. |
| `CompoundReplies.FrameIsDispatch` | src/handlers.cpp:797-840 | Each frame is its subrequest dispatched from the state the earlier ones left, with the nodeid threaded from them, in the room they left, under its own unique. |
| `CompoundReplies.FrameOnNode` | src/handlers.cpp:797-831 | Each frame written out: a subrequest runs on the nodeid at the head of the reply of the earlier one its `dep` names, on 0 if that one was no successful entry, else on its own; from the state and into the room the earlier ones left; a nested compound is refused. |
| `CompoundReplies.CompoundReplyRoundTrip` | src/handlers.cpp:808-845 | Walking an accepted reply consumes all its bytes and gives one frame per subrequest, in order, under that subrequest's unique. |
| `CompoundReplies.FoldAcceptsIff` | src/handlers.cpp:778-793 | A run gets through if and only if each subrequest finds room for a header behind the earlier replies. |
| `CompoundReplies.ParsesIffPrinted` | src/handlers.cpp:777-795 | A body parses completely if and only if some list of well-formed subrequests prints it. |
| `CompoundReplies.CompoundAcceptedIff` | src/handlers.cpp:755-793 | A compound is accepted if and only if its body is printable and every subrequest finds room; every other one is EINVAL. |
| `Positions.DecodeClips` | src/handlers.cpp:520-527 | The reply room affects decoding only by cutting the spans of READ, READDIR, GETXATTR and LISTXATTR. |
| `Positions.RoomIndependence` | src/handlers.cpp:509-528 | Any two rooms that cover a request's own reply bound give the same effect and reply. |
| `Positions.BoundIsTight` | src/handlers.cpp:509-528 | A successful reply takes exactly its bound, or at most that for a span. |
| `Positions.PositionIndependence` | src/handlers.cpp:797-816 | With room for its own bound, a subrequest replies and acts as it would alone with the threaded nodeid from the same daemon state. |
| `Inodes.InodeTable.constructor` | examples/passthrough.cpp:132-138 | The table starts with the root alone, counted once. |
| `Inodes.InodeTable.Insert` | examples/passthrough.cpp:150-160 | One more lookup is counted; a first lookup adopts the descriptor, a later one keeps the original inode object. |
| `Inodes.InodeTable.Forget` | examples/passthrough.cpp:165-171 | The counts become those of a saturating subtraction; the root is ignored. |
| `Inodes.InodeTable.ForgetMany` | examples/passthrough.cpp:174-194 | The batch under one lock equals forgetting item by item, with inode objects kept apart. |
| `Inodes.ForgetSubtracts` | examples/passthrough.cpp:174-194 | A batch subtracts each nodeid's total, saturating at removal, and leaves the root's count alone. |
| `Inodes.ForgetDependsOnTotals` | examples/passthrough.cpp:174-194 | Batches with equal totals per nodeid leave equal tables: items may be merged, split or reordered. |
| `Inodes.ForgetPermuted` | include/fex/filesystem.hpp:87-93 | The order of a batch's items is irrelevant. |
| `LookupCounts.StepKeeps` | examples/passthrough.cpp:150-194 | Each step of kernel, queues and daemon keeps every nodeid's count balanced against what is held, under way or lost. |
| `LookupCounts.LookupConservation` | examples/passthrough.cpp:150-194 | In every run a nodeid's count is what the kernel holds, plus undelivered lookups, plus undelivered forgets, plus losses; whatever the kernel holds or will forget is in the table. |
| `LookupCounts.ExactWithoutLosses` | src/handlers.cpp:248-295 | The count errs only upward, is exact if and only if that nodeid has no surplus, and is exact in every run that drops no reply and no forget. |
| `LookupCounts.LookupArrives` | examples/passthrough.cpp:150-160 | A lookup can be made, answered and delivered, and the kernel then holds it. |
| `LookupCounts.ForgetArrives` | examples/passthrough.cpp:165-194 | A held lookup can be forgotten, and the daemon then drops the inode. |
| `LookupCounts.RootStays` | examples/passthrough.cpp:165-183 | No run ever drops the root. |
| `LookupCounts.QuietTable` | examples/passthrough.cpp:165-194 | When nothing is held or under way the table keeps exactly the root and the nodeids with losses. |
| `FdLifetimes.StepKeeps` | examples/passthrough.cpp:100-194 | Every interleaved get, open, insert, release, abandon and forget keeps references counted, descriptors owned once, and the table filed. |
| `FdLifetimes.StepTallies` | examples/passthrough.cpp:150-194 | The lookup counts of that machine are those of the inode table's specification. |
| `FdLifetimes.DescriptorLifetime` | examples/passthrough.cpp:100-144 | At every point of every run a descriptor is open exactly while an inode held by the table or a callback owns it, or a callback does; each is closed at most once; an inode a callback holds always has its descriptor open. |
| `FdLifetimes.StepHolds` | examples/passthrough.cpp:140-160 | What callbacks hold after each step: a get takes a reference to the filed object, a release gives one up, an open gives a descriptor that an insert or abandon takes. |
| `FdLifetimes.StepOpensAndCloses` | examples/passthrough.cpp:100-121 | A step opens a new descriptor if and only if it is an open, and closes one if and only if it takes away that descriptor's last owner. |
| `FdLifetimes.FirstInsertFiles` | examples/passthrough.cpp:150-160 | A first insert files the callback's descriptor under its inode, still open. |
| `FdLifetimes.HeldUntilReleased` | examples/passthrough.cpp:140-144 | In every run what a callback got stays held, its descriptor the same and open, until that callback releases it, whatever is forgotten meanwhile. |
| `FdLifetimes.RelookupClosesDuplicate` | examples/passthrough.cpp:150-160 | Looking up a known inode closes the new descriptor and keeps the original one open in the table. |
| `Passthrough.EntryAnswer` | examples/passthrough.cpp:245-288 | Lookups and creations are ESTALE if and only if the parent is missing; otherwise the backing's finding, counted and reported, negative entries included. |
| `Passthrough.AttrAnswer` | examples/passthrough.cpp:305-371 | STATX is ESTALE if and only if its nodeid is missing, else the backing's answer; SETSTATX of a missing nodeid never succeeds. |
| `Passthrough.UnitAnswer` | examples/passthrough.cpp:455-518 | Removals, renames, links and attribute changes are ESTALE if and only if a nodeid they resolve is missing, else the backing's answer. |
| `Passthrough.OtherAnswers` | examples/passthrough.cpp:518-617 | The same for opens, size queries, attribute reads, readlink and statfs; READ and WRITE are the backing's. |
| `Passthrough.PlainAnswers` | examples/passthrough.cpp:289-303 | INIT and READDIR are the backing's to answer; forgets touch the table alone. |
| `Passthrough.RequestEffect` | examples/passthrough.cpp:255-452 | A request counts exactly the inode it looked up or made, whatever becomes of its reply, or drops exactly the lookups it names; no other request touches the table. |
| `Passthrough.RequestProduces` | src/handlers.cpp:818-831 | A lookup hands on the inode it counted, given room for the entry; one that failed, found nothing or lost its reply hands on 0. |
| `Lookups.TallyIsCount` | src/handlers.cpp:778-841 | After any prefix of a compound each count is the tally of its lookups and of its forgets, saturating, in order. |
| `Lookups.TallyAddsUp` | examples/passthrough.cpp:165-194 | Forgets inside a compound that ask for no more than was counted at the start never saturate, so lookups and forgets add up exactly; in general the count is at least that. |
| `Lookups.FramesTell` | src/handlers.cpp:797-841 | The frames of a run tell of at most the lookups it made, and of all of them if and only if none lacked room for its entry. |
| `Lookups.CompoundLookups` | src/handlers.cpp:755-846 | At the level of bytes, accepted or refused, forgets included: the count after a compound; and its reply tells of all the lookups made if and only if, accepted, no lookup lacked room for its entry, or, refused, there was none. |
| `Lookups.RefusedLookup` | src/handlers.cpp:779-793 | One LOOKUPX followed by a truncated header: the lookup is counted, the compound is EINVAL, the kernel is told nothing. |
| `Lookups.StarvedLookup` | src/session_impl.hpp:70-74 | One LOOKUPX with room for a header only: the lookup is counted, the compound is accepted, its frame is an error. |
| `Conversations.MovesRun` | examples/passthrough.cpp:150-194 | The protocol can follow any list of lookups and forgets the daemon makes, with every message accounted for. |
| `Conversations.RequestIsRun` | src/handlers.cpp:852-892 | Dispatching any plain request is a legal run of the protocol, whose reply carries exactly what the reply tells, and whose losses are exactly what it does not. |
| `Conversations.CompoundIsRun` | src/handlers.cpp:755-846 | The same for any compound, accepted or refused, with the forgets it never ran among the losses. |
| `Passthrough.NeverZero` | examples/passthrough.cpp:255-452 | No compound puts nodeid 0 into the table. |
| `Passthrough.DeadChain` | src/handlers.cpp:797-831 | Below a producer that handed on nothing, every LOOKUPX, MKOBJX and STATX of the chain fails, hands on nothing, and leaves the daemon as it was. |
| `Dirents.DirentWriter.Add` | src/reply.cpp:10-37 | An entry is taken if and only if its padded record fits; then exactly the record is appended; otherwise nothing changes. |
| `Dirents.DirentWriter.AddAll` | include/fex/reply.hpp:22-44 | Any run of `add` calls leaves the records of the accepted entries, and nothing outside the span changes. |
| `Dirents.WalkPutAll` | include/fex/fuse_uapi.h:1119-1125 | The kernel's walk of packed records gives the entries back, in order. |
| `Dirents.PaddingIsZero` | src/reply.cpp:31-33 | The bytes between a name and the next record are zero. |
| `Dirents.DirentRoundTrip` | src/reply.cpp:15-36 | After any attempts on a buffer below 4 GiB the walk gives exactly the accepted entries; the bytes end 8-aligned within the buffer. |
| `DirListing.ReadDir` | examples/passthrough.cpp:661-692 | One call packs the page from the given cookie, reports the stream's error if it meets one, and otherwise leaves the stream at the first entry not packed; what was written walks back as the directory's entries from there, name, inode number, kind and resuming offset each. |
| `DirListing.AttemptsAccepted` | examples/passthrough.cpp:674-691 | The daemon's calls on its writer, seen through the writer, leave that page. |
| `DirListing.PageIsPrefix` | examples/passthrough.cpp:674-691 | A page is the next entries of the directory, in order. |
| `DirListing.PageIsFull` | examples/passthrough.cpp:674-691 | A page ends only at an error, at the end, or where the next record does not fit into the room left. |
| `DirListing.EmptyPage` | examples/passthrough.cpp:674-691 | A page is empty if and only if the directory is at its end or the next entry does not fit. |
| `DirListing.LastOffset` | examples/passthrough.cpp:680-690 | The last entry's offset resumes exactly behind it, so every nonempty reply makes progress. |
| `DirListing.ListingComplete` | examples/passthrough.cpp:661-692 | Restarting from the last offset until an empty reply terminates and lists the next entries, each once, in order and with its own name, inode number and kind; all the rest of them if and only if no call's buffer is too small for the entry it starts at. |
| `DirListing.ListingOfAll` | examples/passthrough.cpp:661-692 | With buffers each large enough for the largest record the listing has as many entries as the directory, the same ones, in order. |
| `Transport.SplitRoundTrip` | src/uring_worker.cpp:146-181 | Putting a request back together from op_in and payload gives the arguments, header and commit id the kernel split. |
| `Transport.UndercountedBody` | src/uring_worker.cpp:160-164 | A header that counts less than the payload has no first argument, so the body is the payload. |
| `Transport.Reassemble` | src/uring_worker.cpp:176-181 | The scratch area holds exactly the request's arguments; the entry's buffer is not written. |
| `Transport.HandleRefuses` | src/uring_worker.cpp:160-174 | A request whose first argument cannot have fitted op_in is EIO and touches nothing. |
| `Transport.HandleDispatches` | src/uring_worker.cpp:166-188 | A request whose first argument fits op_in is dispatched into the whole payload area. |
| `Transport.PutReply` | src/uring_worker.cpp:190-200 | The overlaid header and size read back as written; the commit id and the payload are not disturbed. |
| `Transport.HandleOne` | src/uring_worker.cpp:141-201 | The entry ends holding the framed reply of dispatching its request, under that request's unique, with `len` 16 plus the reported size; a first argument over 128 bytes is EIO. |
| `Rings.AnswersMatch` | src/uring_worker.cpp:141-201 | Every answer of a good history carries the frame left for the slot's latest delivery: same commit id and unique, nothing else of the slot in between, `len` 16 plus the reported size. |
| `Rings.AnsweredBetween` | src/uring_worker.cpp:256-277 | Between two deliveries to a slot lies an answer to the first, under the first one's commit id and unique. |
| `Rings.HandIsAlone` | src/uring_worker.cpp:105-139 | A slot the worker is handling is in no queue. |
| `Rings.ArrivedSound` | src/uring_worker.cpp:125-132 | Whatever the kernel does with an armed entry keeps each slot in one place and its history good. |
| `Rings.ConsumedSound` | src/uring_worker.cpp:271-272 | A commit taken by the kernel answers the request the slot owes, as the buffer then reads. |
| `Rings.RoomToQueue` | src/uring_worker.cpp:105-139 | A worker holding a slot always finds one of the `depth` + 1 queue entries free. |
| `Workers.OnePlaceEach` | src/uring_worker.cpp:203-278 | Each slot, and the stop poll, is in exactly one of queue, kernel, completions and worker. |
| `Workers.RingWorker.Start` | src/uring_worker.cpp:115-138 | The stop poll and one REGISTER per slot are queued in order, never lacking an entry, even if the submit is partial or fails. |
| `Workers.RingWorker.Submit` | src/uring_worker.cpp:134-136 | Taking any number of entries from the front keeps the order of all entries and the invariant. |
| `Workers.RingWorker.HandleSlot` | src/uring_worker.cpp:259 | The slot's buffer ends holding the daemon's reply to its request, the other slots' buffers stay, and the commit id is the request's. |
| `Workers.RingWorker.AnswerSlot` | src/uring_worker.cpp:256-272 | The request in the slot is dispatched, its reply left there, and exactly its commit queued under its commit id. |
| `Workers.RingWorker.TakeCompletion` | src/uring_worker.cpp:215-277 | One completion: when the loop goes on, which error is kept, which single entry is queued, and the slot's reply, in every case; the unknown-index and queue-full branches are unreachable. |
| `Workers.RingWorker.KernelTurn` | src/uring_worker.cpp:125-132 | Each arrival completes one armed entry, with one completion behind those there were; nothing of the worker's changes. |
| `Workers.RingWorker.Pass` | src/uring_worker.cpp:206-277 | One pass keeps the invariant whatever the kernel and the other workers do meanwhile. A ready wait with a completion takes exactly the oldest, as `TakeCompletion` says; an interrupted wait goes on; a broken one ends with its error. |
| `Workers.ReachedInOrder` | src/uring_worker.cpp:206-217 | In every run completions are taken in the order they came, one per ready pass. |
| `Workers.CompletionsTaken` | src/uring_worker.cpp:203-279 | In every run each completion is dealt with after as many ready passes as stand before it: the stop poll ends the loop, a request is dispatched, its reply left in its slot and its commit queued under its commit id. |
| `Workers.AnswersTruthful` | src/uring_worker.cpp:188-200 | In a good history whose replies are the daemon's, every answer is what the daemon replied to the request it answers. |
| `Workers.RingWorker.Run` | src/uring_worker.cpp:203-279 | Over any schedule every slot stays in one place, no slot's history goes wrong, every answer the kernel takes carries what the daemon replied to that slot's latest request, under its commit id and unique, and the passes made follow on each other as `Pass` says, ending only where one ends the loop. |
| `Handles.HandleTable.OpenNode` | examples/passthrough.cpp:597-617 | A new handle is nonzero, never issued before, and holds the descriptor just opened; the same for directories. |
| `Handles.HandleTable.ReleaseHandle` | examples/passthrough.cpp:619-627 | Closes the handle's descriptor and no other live handle's; an unknown handle is ignored. |
| `Handles.HandleTable.UseFile` | examples/passthrough.cpp:764-791 | I/O goes to the description a live handle was opened with, else to one of the inode opened for this call; afterwards the descriptors are as before. |
| `Handles.HandleTable.ListDir` | examples/passthrough.cpp:661-673 | Listing finds the stream a live directory handle was opened with; any other handle is EBADF. |
| `Handles.HandleTable.History` | examples/passthrough.cpp:597-659 | Over any sequential history, though numbers are reused: handles are nonzero and never reissued; until released a handle uses the one description it was opened with; I/O on any other handle uses one of the inode that no handle ever had, or is refused; listing it fails. |
| `Handles.DeadHandles` | examples/passthrough.cpp:619-659 | The zero handle is never live, and no handle is live again once released. |
| `Sessions.UnbrokenOrder` | src/session.cpp:109-265 | What the monitor accepts: every queue launched before the superblock is created, every launched queue joined and torn down before the device is closed or the mount dropped, no mount dropped that was not installed; the superblock created once, before the mount is moved into place. |
| `Sessions.FirstErrorIsLeast` | src/session.cpp:188-215 | The error reported for the queues is that of the first queue with one. |
| `Sessions.Session.StartAll` | src/session.cpp:187-202 | Queues start in order up to the first that fails, which is torn down at once. |
| `Sessions.Session.CreateAndFinish` | src/mount.cpp:110-149 | The mount is installed if and only if all three calls succeed; the first failure is the error. |
| `Sessions.Session.Conduct` | src/session.cpp:142-263 | On every exit path no rule of the monitor is broken and every ring is gone before the guard acts. |
| `Sessions.Session.Run` | src/session.cpp:109-265 | On every exit path: no mount is left; the log ends with closing the device and then unmounting exactly when the mount was installed; the superblock is created exactly when every queue started; the workers are told to stop exactly when a ring failed to start, the mount failed or INIT was never served; destroy() is called exactly when the session served; the first failure in call order is returned. |

## Left out

- INIT negotiation: kept as an oracle on the 64-byte request; only its presence and FUSE_OVER_IO_URING checks are modelled.
- Field-by-field copies (`pack_statx`, `unpack_statx`, statfs, `split_duration`): kept as byte images of the right size; would only add easy members.
- Byte order: the wire structs are little-endian, as on the machines the code is built for.
- The backing system calls of the passthrough daemon, liburing and the mount calls: oracles or outcomes; their meaning is outside the repository.
- Data races on one directory stream, and use of a borrowed file descriptor while it is released: the code holds no lock across them; those tables are modelled sequentially.
- Ending: nothing is claimed about `stop()` always ending `run()`; a stop before the eventfd exists writes nothing.
- Debug tracing, daemonization, signal handling, option parsing, exceptions and allocation failure.
- Requests.InBounds: REMOVEXATTR is modelled for bodies at least as long as their extensions, because the handler subtracts the two without a check.
- Transport.HandleOne: assumes the kernel reports at most the entry's payload size, and buffers below 4 GiB; under that assumption the second half of the size check never decides.
- Workers.RingWorker.HandleSlot: the slots' buffers are values that are copied into an array for the call; buffers never alias, as separate mappings.
- Workers.RingWorker.Run: the submission queue has exactly `depth` + 1 entries, the fewest the ring can have; other workers act on the daemon between passes, not inside a request.
- Compounds.HandleCompound: reply rooms below 4 GiB, because the frame length is cast to 32 bits.
- Dispatcher.ServeFill: a callback's reported count is the number of bytes it wrote, as `include/fex/filesystem.hpp:184-186` demands of it; one that reports more would have the slot's earlier bytes sent, which the model does not say.
- LookupCounts.LookupConservation: runs short of 2^64 steps, so that the counter does not wrap.
- Lookups.CompoundLookups: counts short of 2^64 and reply rooms below 4 GiB; the backing filesystem has no inode 0.
- Conversations.CompoundIsRun: the dispatch is one block of protocol steps; other requests interleave only between dispatches.
- Handles.HandleTable.OpenNode: histories short of 2^64 opens, so that the handle counter does not wrap; each table is modelled with the descriptors it holds, the others being numbers the system does not give.
- Sessions.Session.Run: one run of a session that has no mount installed; the outcome of every call, and whether a stop was seen, are parameters.
