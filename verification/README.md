# A verified model of a Ceph client

The repository is a Ceph file system client for Windows: the client proper (`client/`), and the library it
is built on (`common/`, `include/`). This project models the parts of it that hold state with invariants that
no single function shows, and proves what they promise for all inputs, all runs and all reachable states.

| part | files | what is modelled |
|---|---|---|
| capabilities | `CapProtocol`, `CapWriteback`, `CapClient` | the client's side of the capability protocol: grants, revocations, imports, exports, releases, flushes and acknowledgments |
| snapshot realms | `SnapRealms`, `RealmTable` | the realm forest, its reference counts, cached snapshot contexts, snap traces and splits |
| dentries and inodes | `DentryGraph`, `DentryCache` | the graph of cached dentries and inodes kept alive by reference counts |
| requests | `MetaRequests` | the life of a metadata request between its caller, the dispatcher and the sessions |
| buffers | `Crc`, `Ropes`, `RopeWrites`, `RawMemory`, `BufferList` | the shared, segmented `bufferlist`, its cursor and its cached checksums |
| queues | `SubQueue`, `PrioritizedQueue`, `AsyncReserver`, `Throttle` | priorities with token buckets, reservations, and waiting in line |
| text and tables | `ConfText`, `ConfParser`, `ConfFile`, `Base64`, `BloomFilter`, `Readahead` | configuration files, base64, the folding Bloom filter, readahead |

`Options`, `NatSets` and `Division` hold what several of them share. Code that computes is a function; an object that the
client changes in place is a class whose methods are tied to functions on values, and the main results are
lemmas about those functions and the runs they make. Protocols are state machines: `Step`, `Enabled`, `Apply`
and `Run` of a module say what may happen, and the theorems are about every run.

`dafny verify dfyconfig.toml` checks everything.

## Model

| member | source | states |
|---|---|---|
| `CapProtocol.IssuedIsImplemented` | client/Client.cc:3354-3436 | In every state that any run of grants, revocations, imports, exports, releases, trims and session closes reaches, each cap implements all it was issued. |
| `CapProtocol.StepKeepsInUse` | client/Client.cc:2810-3019 | No check, flush, trim, release, grant or revocation takes the last cap that implements a bit in use. |
| `CapProtocol.InUseStaysImplemented` | client/Client.cc:4339-4448 | Over any run of those steps a bit that stays in use and that some cap implements at the start is implemented by some cap at the end. |
| `CapProtocol.ExportKeepsInUseIff` | client/Client.cc:4118-4160 | After an export a bit in use is still implemented if and only if another cap implements it, or a peer takes the cap over and the bit was not being revoked. |
| `CapProtocol.ImportKeepsInUseIff` | client/Client.cc:4088-4116 | After an import a bit in use is still implemented if and only if the peer's cap stays, or another cap implements the bit, or the imported one is issued it. |
| `CapProtocol.ExportLosesBit` | client/Client.cc:4118-4160 | A run from a new inode, a revocation of cached data still in use and an export, after which no cap implements it. |
| `CapProtocol.ImportLosesBit` | client/Client.cc:4088-4116 | A run and an import after which no cap implements the cached data in use. |
| `CapProtocol.StepKeepsCapsOk` | client/Client.cc:4339-4448 | Each step keeps what is issued within what is implemented. |
| `CapWriteback.NoDirtyBitIsLost` | client/Client.cc:4182-4218 | In every state of every run in which no acknowledgment is 65536 flushes late, a modification that no acknowledged flush carried is still marked dirty or being flushed. |
| `CapWriteback.StepKeepsWb` | client/Client.cc:3620-3681 | Each step keeps the invariant behind that: a bit being flushed and not dirty again is covered by its last flush, sent after its last modification. |
| `CapWriteback.FreshInodeOk` | client/Inode.h:315-330 | The invariant holds of an inode with nothing modified, so the runs below start from one. |
| `CapWriteback.AckForgetsIff` | client/Client.cc:4182-4218 | An acknowledgment makes the client forget a modification if and only if its tid agrees in 16 bits with the bit's last flush and the flush it names did not carry the modification. |
| `CapWriteback.WrappedAckLosesBit` | client/Client.cc:2810-2913 | A run from an unmodified inode, with all the flushes in between, after which the acknowledgment of the first flush makes the client forget a modification. |
| `CapClients.CapClient.AddInode` | client/Client.cc:788-815 | An inode enters the table without caps and clean, unless it is there. |
| `CapClients.CapClient.SetUse` | client/Inode.cc:104-140 | Changing references and open files leaves caps, writeback and the books alone. |
| `CapClients.CapClient.SetSizes` | client/Client.cc:2752-2760 | Changing sizes does so too. |
| `CapClients.CapClient.TrimInodeCap` | client/Client.cc:3560-3568 | Drops a cap exactly when it is not authoritative, not the only one, and nothing in use depends on it. |
| `CapClients.CapClient.EncodeInodeRelease` | client/Client.cc:1652-1689 | Gives back the bits that are neither dirty nor in use, unless the cap is needed; tells whether any were. |
| `CapClients.CapClient.MarkCapsDirty` | client/Client.cc:3620-3627 | The first dirty bit takes the one reference that dirty metadata holds. |
| `CapClients.CapClient.MarkCapsFlushing` | client/Client.cc:3629-3651 | Dirty bits start being flushed; the count of inodes being flushed follows. |
| `CapClients.CapClient.CheckAllCaps` | client/Client.cc:2916-3019 | The loop over all caps has the effect of `CheckCaps`; references and counts stay right. |
| `CapClients.CapClient.HandleCapFlushAck` | client/Client.cc:4182-4218 | Exactly the cleaned bits stop being flushed; with the last one the reference and the count go. |
| `CapClients.CapClient.RemoveSessionCaps` | client/Client.cc:3486-3511 | Closes the session for every inode that has a cap from it and touches no other. |
| `CapClients.CapClient.HandleCapGrant` | client/Client.cc:4339-4448 | The handler, its search for clashing revocations and its checks have the effect of `HandleGrant`. |
| `CapClients.CapClient.HandleCapImport` | client/Client.cc:4088-4116 | The handler has the effect of `HandleImport`. |
| `CapClients.CapClient.HandleCapExport` | client/Client.cc:4118-4160 | The handler has the effect of `HandleExport`. |
| `SnapRealms.CollectDescending` | client/Client.cc:3758-3762 | Reads a set of snaps out in strictly descending order. |
| `SnapRealms.ContextMeaning` | client/Client.cc:3734-3763 | What a context is, with no recursion: its snaps are exactly those of the realm and its ancestors that no `parentSince` on the way down filters out, and its sequence number is the largest on the way up. |
| `SnapRealms.ContextFrame` | client/Client.cc:3734-3763 | The context depends on nothing but the snapshot fields of the realm and its ancestors. |
| `RealmTables.RealmTable.GetSnapRealm` | client/Client.cc:3784-3792 | Takes one reference, creating the realm if need be. |
| `RealmTables.RealmTable.PutSnapRealm` | client/Client.cc:3806-3818 | Drops one; a cascade of releases upwards frees no realm that lists an inode or has a child left. |
| `RealmTables.RealmTable.AdjustRealmParent` | client/Client.cc:3820-3835 | Moves a realm; counts, children and parents agree afterwards, and only caches of the moved subtree can be out of date. |
| `RealmTables.RealmTable.GetSnapContext` | client/ClientSnapRealm.h:43-47 | A filled or freshly built cache slot holds the uncached context of a realm that is not out of date. |
| `RealmTables.RealmTable.BuildSnapContext` | client/Client.cc:3734-3763 | Builds that context from the parent's and stores it. |
| `RealmTables.RealmTable.InvalidateSnaprealmAndChildren` | client/Client.cc:3765-3782 | The breadth-first walk empties exactly the slots of the subtree. |
| `RealmTables.RealmTable.FlushSubtree` | client/Client.cc:3858-3878 | Every inode with caps in the subtree is queued with the context its realm has before the update. |
| `RealmTables.RealmTable.ApplyInfo` | client/Client.cc:3845-3902 | One record: the realm becomes what the record makes of it, caches are right again if the record repairs them, and cap snaps are queued under the old contexts. |
| `RealmTables.RealmTable.UpdateSnapTrace` | client/Client.cc:3838-3906 | A whole trace: every filled cache slot is right, every realm is what the records make of it or of a fresh realm, and every record has queued its cap snaps. |
| `RealmTables.RealmTable.OpenInodeRealm` | client/Client.cc:3381-3386 | The first cap of an inode lists it with its realm and counts it. |
| `RealmTables.RealmTable.CloseInodeRealm` | client/Client.cc:3472-3477 | The last cap takes it off again, which may free realms. |
| `RealmTables.RealmTable.HandleSplit` | client/Client.cc:3908-3983 | Exactly the listed inodes of older realms move, each queued with the context its realm had; afterwards caches are right if the record changes the realm or no listed child was elsewhere. |
| `RealmTables.SplitAloneLeavesStaleCache` | client/Client.cc:3957-3968 | A table in order and a split that brings no news, after which counts and lists are right and a cached context is wrong. |
| `RealmTables.RepeatedInodeFreesRealm` | client/Client.cc:3935-3954 | A table in order in which taking an inode twice frees a realm under its child. |
| `DentryGraph.EveryRun` | client/Client.cc:2533-2678 | In every state of every run of link, unlink, open, close and pins: each count is the number of its holders, dentries and inodes point at each other, a directory has one parent, and nothing held is deleted. |
| `DentryGraph.LinkNames` | client/Client.cc:2592-2638 | After a link the name leads to the inode, which lists the dentry; a directory lists no other. |
| `DentryGraph.UnpinDentryOk` | client/Dentry.h:32-45 | Dropping a pin deletes a dentry only with its last holder. |
| `DentryGraph.OpenDirOk` | client/Inode.cc:267-278 | Opening a directory pins it and the dentry that names it. |
| `DentryCaches.DentryCache.CreateInode` | client/Client.cc:797-798 | A new inode enters with no references. |
| `DentryCaches.DentryCache.Hold` | client/Client.cc:2613-2615 | Takes a reference from outside. |
| `DentryCaches.DentryCache.Release` | client/Client.cc:2533-2570 | Gives references back; the last one deletes the inode. |
| `DentryCaches.DentryCache.HoldDentry` | client/Dentry.h:32-37 | Takes a reference to a dentry. |
| `DentryCaches.DentryCache.ReleaseDentry` | client/Dentry.h:38-45 | Gives it back; the last one deletes the dentry. |
| `DentryCaches.DentryCache.Open` | client/Inode.cc:267-278 | Opening a directory has the effect of `OpenDir` and keeps the invariant. |
| `DentryCaches.DentryCache.Close` | client/Client.cc:2572-2585 | Closing it has the effect of `CloseDir`. |
| `DentryCaches.DentryCache.LowLevelGet` | client/Client.cc:8294-8305 | The first low-level reference pins the inode and, for a directory, its dentry. |
| `DentryCaches.DentryCache.LowLevelPut` | client/Client.cc:8307-8321 | The last one unpins them. |
| `DentryCaches.DentryCache.LinkDentry` | client/Client.cc:2592-2638 | Links, moving a directory away from its old name, with the effect of `Link`. |
| `DentryCaches.DentryCache.UnlinkDentry` | client/Client.cc:2640-2678 | Unlinks with the effect of `Unlink`, closing a directory that becomes empty unless it is to be kept. |
| `MetaRequests.EveryRun` | client/Client.cc:1502-1637 | In every state of every run, sessions closing at any time included, a request's count is its caller plus its place in the table, the caller is handed one reply at most, unsafe lists hold exactly the unsafe requests, no reply is attached where the code asserts none, and the caller a message is to wake is waiting if and only if there was no unsafe reply. |
| `MetaRequests.StepOk` | client/Client.cc:2041-2137 | Each step of caller, dispatcher, session and admin socket keeps that, sends and kicks overlapping a pending reply included. |
| `MetaRequests.FreedExactlyOnce` | client/Client.cc:1639-1650 | A request is freed by the step that takes its last holder and by no other; afterwards it is in no table, and no dispatcher comes to wait for it that did not before. |
| `MetaRequests.DispatcherOnFreed` | client/Client.cc:2105-2125 | In every run the dispatcher waits on a freed request if and only if the reply it handed over was unsafe, the session was closed since, and the caller has returned. |
| `MetaRequests.FreedUnderDispatcher` | client/Client.cc:1908-1918 | A run in which the admin socket closes the session under the waiting dispatcher and the request is freed. |
| `MetaRequests.FreedOnList` | client/Client.cc:1633-1637 | In every run a return frees a request that is still on a session's list, which the destructor of the list item asserts against, if and only if it was kicked out and sent after that. |
| `MetaRequests.ReturnsOnList` | client/Client.cc:1570-1590 | A run in which it does. |
| `MetaRequests.ForwardFindsNobody` | client/Client.cc:2003-2039 | A run after which a forward finds no caller to wake. |
| `MetaRequests.SessionListsAfterKick` | client/Client.cc:2449-2472 | After a session's requests are kicked its unsafe list is empty if and only if no request on it was sent elsewhere since, and its request list if and only if none was forwarded away and not sent again, or sent after leaving the table. |
| `MetaRequests.ForwardedStays` | client/Client.cc:2003-2039 | A run after which the request list is not empty. |
| `MetaRequests.StrayedStays` | client/Client.cc:2449-2472 | A run after which the unsafe list is not empty. |
| `MetaRequests.RequestTable.MakeRequest` | client/Client.cc:1502-1530 | A request enters the table, counted twice. |
| `MetaRequests.RequestTable.SendRequest` | client/Client.cc:1921-1964 | It goes on the list of the session it is sent over. |
| `MetaRequests.RequestTable.HandleForward` | client/Client.cc:2003-2039 | It is to be sent elsewhere. |
| `MetaRequests.RequestTable.TakeTheReply` | client/Client.cc:1609-1618 | The caller takes the reply that the dispatcher is waiting for it to take. |
| `MetaRequests.RequestTable.ReturnFromRequest` | client/Client.cc:1633-1637 | The caller's reference goes. |
| `MetaRequests.RequestTable.HandleClientReply` | client/Client.cc:2041-2112 | A reply is attached, a second unsafe one dropped, a safe one after an unsafe one retires the request. |
| `MetaRequests.RequestTable.ResumeDispatch` | client/Client.cc:2112-2137 | After the caller took a safe reply the request leaves the table. |
| `MetaRequests.RequestTable.KickRequestsClosed` | client/Client.cc:2449-2472 | The loop kicks every request of the session once and leaves the lists as `SessionListsAfterKick` says. |
| `Crc.CrcConcat` | common/sctp_crc32.c:517-577 | The checksum of a concatenation is that of the second part seeded with that of the first. |
| `Crc.Reseed` | common/buffer.cc:1602-1611 | A checksum for one seed gives that for any other by adding the checksum of as many zeros. |
| `Crc.ByteByTable` | common/sctp_crc32.c:537-538 | One table lookup is eight steps of the shift register. |
| `Crc.RoundIsCrc` | common/sctp_crc32.c:546-571 | The round over eight tables, four bytes of which are read as a word, is the bitwise checksum of its eight bytes. |
| `Crc.TableLinear` | common/sctp_crc32.c:98-510 | Every entry of every table is the sum of those for the bits of its index. |
| `Crc.TableNext` | common/sctp_crc32.c:98-510 | Each table is the register step of the one before. |
| `Crc.TableEntries0` | common/sctp_crc32.c:98-132 | The entries of the first table for single bits, as they are written out. |
| `Crc.TableEntries7` | common/sctp_crc32.c:476-510 | Those of the last one, by way of the six between, all as they are written out. |
| `Crc.UpdateCrc` | common/sctp_crc32.c:517-577 | Bytes up to a word boundary, rounds of eight and the rest compute the bitwise checksum, for every alignment. |
| `Ropes.AdvanceForward` | common/buffer.cc:634-653 | Moves a cursor by its bytes across segments; fails exactly past the end. |
| `Ropes.AdvanceBack` | common/buffer.cc:654-670 | Moves it back; fails exactly before the beginning. |
| `Ropes.StaleEnd` | common/buffer.cc:634-670 | A cursor left at the end of a list that has grown since is at the new end. |
| `Ropes.Seek` | common/buffer.cc:672-678 | Finds an offset from the start. |
| `Ropes.CopyOut` | common/buffer.cc:705-721 | Copies exactly the bytes of the list at the cursor. |
| `Ropes.Slice` | common/buffer.cc:1265-1301 | The pointers collected show exactly the wanted part. |
| `Ropes.SameContents` | common/buffer.cc:837-880 | Comparing piece by piece decides equality of the bytes, however the two lists are cut. |
| `RopeWrites.WriteIsOverwrite` | common/buffer.cc:785-803 | Writing through segments that do not overlap overwrites the bytes of the list. |
| `RopeWrites.WritesRightExactly` | common/buffer.cc:785-803 | Every write is right if and only if no two segments of the list overlap. |
| `RopeWrites.OverlapShows` | common/buffer.cc:785-803 | Through overlapping segments some write of one byte shows twice. |
| `RopeWrites.ZeroEndExact` | common/buffer.cc:931-950 | `zero` stops where it should exactly for the ranges that do not lie strictly inside one segment. |
| `RawMemory.GrewFlat` | common/buffer.cc:1129-1150 | Appending into space that raws share changes no other list. |
| `RawMemory.CachedCrc` | common/buffer.cc:174-191 | A checksum in a raw's cache is that of its bytes from the seed it was stored with. |
| `BufferLists.OthersKeep` | common/buffer.cc:1129-1150 | When one list appends, another keeps its bytes, its segments and its own append buffer. |
| `BufferLists.BufferList.Append` | common/buffer.cc:1129-1150 | The contents grow by the data, whatever the append buffer holds; no other list changes. |
| `BufferLists.BufferList.AppendPtr` | common/buffer.cc:1158-1174 | Appends a part of a pointer, merging it with the last segment where they meet. |
| `BufferLists.BufferList.AppendList` | common/buffer.cc:1176-1183 | Shares all of another list. |
| `BufferLists.BufferList.ClaimAppend` | common/buffer.cc:1051-1060 | Moves another list's bytes behind and leaves it empty. |
| `BufferLists.BufferList.ClaimPrepend` | common/buffer.cc:1062-1071 | Moves them in front; the cached cursor stays on its byte and keeps its offset, so a usable one is so afterwards if and only if it was at the end or nothing was moved. |
| `BufferLists.PrependMisreads` | common/buffer.cc:1062-1080 | A copy at the cursor's offset after that reads the bytes that were at the offset before. |
| `BufferLists.CopyAfterPrepend` | common/buffer.cc:1062-1080 | Calls after which `copy` returns other bytes than are there. |
| `BufferLists.BufferList.PushFront` | include/buffer.h:390-395 | Puts a segment in front, with the same effect on the cursor. |
| `BufferLists.BufferList.SubstrOf` | common/buffer.cc:1265-1301 | Becomes exactly the wanted part of another list, or fails and stays. |
| `BufferLists.BufferList.Splice` | common/buffer.cc:1304-1366 | Takes exactly the range out and hands it over; the rest joins. |
| `BufferLists.BufferList.Get` | common/buffer.cc:1207-1222 | The byte at an index, or failure past the end. |
| `BufferLists.BufferList.Copy` | common/buffer.cc:1073-1080 | Copies the bytes at the offset through a usable cursor, and those where the cursor is through one that only claims the offset. |
| `BufferLists.BufferList.CopyIn` | common/buffer.cc:1098-1106 | Overwrites the same bytes in place. |
| `BufferLists.BufferList.Zero` | common/buffer.cc:931-950 | The raws are those of `Zeroed`, whose effect on the bytes the next two rows give. |
| `BufferLists.ZeroIsRight` | common/buffer.cc:931-950 | The range and nothing else is zeroed, unless it lies strictly inside one segment, when the byte after it is zeroed too. |
| `BufferLists.ZeroTooFar` | common/buffer.cc:603-608 | Zeroing the second of four bytes wipes out the last three. |
| `BufferLists.BufferList.SegmentChecksum` | common/buffer.cc:1594-1620 | A checksum found, converted from another seed, or computed and stored is that of the segment. |
| `BufferLists.BufferList.Checksum` | common/buffer.cc:1587-1623 | The checksum of the list is the bitwise one of its bytes, whatever the caches hold. |
| `BufferLists.BufferList.ContentsEqual` | common/buffer.cc:837-880 | Decides equality of contents. |
| `BufferLists.BufferList.Rebuild` | common/buffer.cc:967-989 | One new segment, the same bytes; the cursor survives exactly at the end; an empty list gets an empty segment. |
| `BufferLists.DanglingAfterRebuild` | common/buffer.cc:967-989 | Calls after which the cursor claims an offset and its segment is gone. |
| `BufferLists.BufferList.RebuildAligned` | common/buffer.cc:996-1036 | The same bytes in segments that are aligned, all but the last with a length that is a multiple; the cursor stays on its byte if and only if its segment is good and a multiple of bytes lies before it, and dangles otherwise. |
| `SubQueues.PushWaiting` | common/PrioritizedQueue.h:116-127 | An entry joins its class's line at the end or front and no other. |
| `SubQueues.PopWaiting` | common/PrioritizedQueue.h:133-144 | The front entry leaves its class's line and no other changes. |
| `SubQueues.ServedInTurn` | common/PrioritizedQueue.h:128-144 | Round robin: without new classes every class is served within as many pops as there are classes. |
| `SubQueues.RemoveByFilter` | common/PrioritizedQueue.h:153-168 | Takes out exactly the matching entries, in order, and keeps the round-robin place. |
| `SubQueues.KeepWaiting` | common/PrioritizedQueue.h:153-168 | Each class keeps the entries that do not match, in order. |
| `SubQueues.WithoutClassWaiting` | common/PrioritizedQueue.h:169-188 | Removing a class empties its line and no other. |
| `PrioritizedQueues.Fifo` | common/PrioritizedQueue.h:312-373 | Over any history each class at each priority is first in, first out. |
| `PrioritizedQueues.Conserved` | common/PrioritizedQueue.h:304-373 | Every event adds or takes exactly its own item. |
| `PrioritizedQueues.BoundedWait` | common/PrioritizedQueue.h:334-373 | The front entry of the lowest shared priority that costs less than a bucket holds is served within cost - tokens + 2 dequeues, whatever arrives above it; at priority zero, if enough others wait. |
| `PrioritizedQueues.ServedIff` | common/PrioritizedQueue.h:334-373 | The lowest shared priority is certain to be served if and only if its front entry costs less than a bucket holds and, at priority zero, less than its tokens plus the entries waiting above it less one. |
| `PrioritizedQueues.FullCostStarves` | common/PrioritizedQueue.h:346-360 | For every n, a run of n dequeues in which an entry that costs a full bucket is not served. |
| `PrioritizedQueues.ZeroStarves` | common/PrioritizedQueue.h:218-232 | For every n, a run of n dequeues in which priority zero is not served, from any queue in which the others do not bring it enough tokens. |
| `PrioritizedQueues.StarvedAtZero` | common/PrioritizedQueue.h:218-232 | An item can arrive at priority 5 and leave, and the queue is as it was. |
| `PrioritizedQueues.Choose` | common/PrioritizedQueue.h:346-367 | The loop finds the lowest priority that can pay, or else the highest. |
| `PrioritizedQueues.PrioritizedQueue.Enqueue` | common/PrioritizedQueue.h:304-327 | Clamps the cost and adds at the end or front; the total of priorities stays right. |
| `PrioritizedQueues.PrioritizedQueue.Dequeue` | common/PrioritizedQueue.h:334-373 | Serves strict items first, else the chosen subqueue; tokens are paid and shared out. |
| `PrioritizedQueues.PrioritizedQueue.Length` | common/PrioritizedQueue.h:235-250 | The number of items held. |
| `PrioritizedQueues.PrioritizedQueue.RemoveByFilter` | common/PrioritizedQueue.h:253-277 | Removes the matching items everywhere, keeps every order and loses none. |
| `PrioritizedQueues.PrioritizedQueue.RemoveByClass` | common/PrioritizedQueue.h:279-302 | Removes one class everywhere, keeps every order and loses none. |
| `AsyncReservers.DoQueues` | common/AsyncReserver.h:44-61 | Grants as many as there are slots, in order of priority and then arrival, from the minimum priority up. |
| `AsyncReservers.GrantOk` | common/AsyncReserver.h:52-58 | A grant moves one request, its index entry and its callback together. |
| `AsyncReservers.OrderHead` | common/AsyncReserver.h:44-61 | The next grant goes to the head of the highest queue that is not empty. |
| `AsyncReservers.AsyncReserver.SetMax` | common/AsyncReserver.h:71-75 | No slot stays free while a request above the minimum waits. |
| `AsyncReservers.AsyncReserver.SetMinPriority` | common/AsyncReserver.h:77-81 | The same for a changed minimum. |
| `AsyncReservers.AsyncReserver.RequestReservation` | common/AsyncReserver.h:118-129 | The request joins its line; every callback is waiting, finished once or deleted once. |
| `AsyncReservers.AsyncReserver.CancelReservation` | common/AsyncReserver.h:138-151 | The item neither waits nor holds a slot; the callback of one that waited is deleted; the slot is granted again. |
| `Throttles.InOrder` | common/Throttle.cc:90-123 | In every run waiters are admitted in the order in which they joined, and in no state is a signal lost. |
| `Throttles.NoOvertaking` | common/Throttle.cc:159-213 | While someone waits nobody else is admitted. |
| `Throttles.HeadLeaves` | common/Throttle.cc:90-123 | The first in line has been signalled when there is room, and leaves when it runs. |
| `Throttles.StepWithinIff` | common/Throttle.cc:125-236 | A step keeps within the limit if and only if it asks for no more than the limit in force, takes unasked only what fits, and sets no limit below what is out or asked for. |
| `Throttles.NeverOverMax` | common/Throttle.cc:125-236 | A run keeps within the limit in every state if and only if every step of it does so. |
| `Throttles.WithinMaxExact` | common/Throttle.cc:90-123 | Being within the limit, those in line included, is exactly what keeps the count there while nobody asks for more. |
| `Throttles.OverMax` | common/Throttle.cc:140-213 | A request above the limit, waited for or tried, a take and a lowered limit each lead above it. |
| `Throttles.Throttle.Get` | common/Throttle.cc:159-183 | Admission or joining the line, with the effect of `Arrive`. |
| `Throttles.Throttle.WakeUp` | common/Throttle.cc:98-121 | One turn of the wait loop: the first goes on if there is room and signals the next. |
| `Throttles.Throttle.TryGet` | common/Throttle.cc:188-213 | Takes at once or fails. |
| `Throttles.Throttle.TakeNow` | common/Throttle.cc:140-157 | Takes unasked. |
| `Throttles.Throttle.PutBack` | common/Throttle.cc:215-236 | Gives back and signals the first in line. |
| `Readaheads.NeverPastLimit` | common/Readahead.cc:59-111 | With limits that never shrink and reads that end within them, no extent of a run passes its limit. |
| `Readaheads.WithinIff` | common/Readahead.cc:100-108 | An extent stays within its limit if and only if the position is not past it. |
| `Readaheads.ShrunkLimit` | common/Readahead.cc:100-108 | Two reads from the start, the second with a lower limit, after which the length wraps around. |
| `Readaheads.AheadIff` | common/Readahead.cc:59-111 | An extent starts where the reads have not been if and only if they started a stream, nothing was read ahead yet, or they ended no later than what was. |
| `Readaheads.ReadsBehind` | common/Readahead.cc:59-111 | Two reads after which the extent is one that the second has covered. |
| `Readaheads.Contiguous` | common/Readahead.cc:46-111 | Within one sequential stream the extents of a run follow each other without gap or overlap. |
| `Readaheads.SnapLengthBounds` | common/Readahead.cc:80-98 | Aligning changes a length by less than half, and then the extent ends aligned. |
| `Readaheads.Readahead.ComputeReadahead` | common/Readahead.cc:59-111 | The computation has the effect of `Compute`. |
| `Readaheads.Readahead.UpdateFor` | common/Readahead.cc:28-36 | Observing all extents of a read in turn and then computing has the effect of `Update`, of which the runs above are made. |
| `BloomFilters.HashAp` | common/bloom_filter.hpp:496-530 | Four bytes at a time, then two, then one computes the bytewise hash. |
| `BloomFilters.HashWordIsHash` | common/bloom_filter.hpp:487-494 | The form for a word is that of its four bytes. |
| `BloomFilters.FoldedHas` | common/bloom_filter.hpp:561-595 | A key that is found is found after folding the table, for every chain of sizes. |
| `BloomFilters.CompressibleBloomFilter.Insert` | common/bloom_filter.hpp:173-185 | The key is found from then on, and so are all others. |
| `BloomFilters.CompressibleBloomFilter.Contains` | common/bloom_filter.hpp:240-255 | No inserted key is reported missing. |
| `BloomFilters.CompressibleBloomFilter.Compress` | common/bloom_filter.hpp:561-595 | Folding in place keeps all keys. |
| `ConfText.TrimWhitespace` | common/ConfUtils.cc:198-248 | The loop trims and squeezes as `Trim` says. |
| `ConfText.NormalizeIdempotent` | common/ConfUtils.cc:257-264 | Normalizing twice is normalizing once, and the names that stay are exactly the normal ones. |
| `ConfParser.StopsAtNul` | common/ConfUtils.cc:394-593 | The machine stops at the NUL and reads no character a third time. |
| `ConfParser.ProcessLine` | common/ConfUtils.cc:394-593 | The loop computes `ParseLine` and never reads past the NUL. |
| `ConfParser.SectionReadsBackIff` | common/ConfUtils.cc:266-279 | A printed header is read as that section if and only if the name is trimmed, single-spaced and free of syntax characters. |
| `ConfParser.SettingReadsBackIff` | common/ConfUtils.cc:266-279 | A printed setting is read as that setting if and only if its key is in normal form and neither it nor the value has characters that mean something to the parser. |
| `ConfParser.QuoteIsLost` | common/ConfUtils.cc:394-593 | A line with an escaped quote whose value, printed, is not read back. |
| `ConfFiles.RoundTrip` | common/ConfUtils.cc:266-387 | Loading the printed form of a configuration gives it back, without complaint. |
| `ConfFiles.ConfFile.Parse` | common/ConfUtils.cc:281-387 | The loop over lines, joined lines and comments computes `Load`. |
| `ConfFiles.ConfFile.Read` | common/ConfUtils.cc:170-184 | Finds exactly the settings stored under the normal form of a key. |
| `Base64.RoundTrip` | common/armor.c:44-127 | Decoding an encoding gives back the bytes, with or without line breaks. |
| `Base64.EncodeFits` | common/buffer.cc:1387-1393 | The buffer allocated for encoding is large enough. |
| `Base64.DecodeFits` | common/buffer.cc:1395-1408 | The buffer allocated for decoding is large enough. |
| `Base64.Armor` | common/armor.c:44-88 | Writes the encoding, or reports that it does not fit. |
| `Base64.Unarmor` | common/armor.c:95-127 | Writes the decoded bytes, or reports too little room if more bytes come before the first bad group than fit, and bad input otherwise. |

## Findings

Where the code does not do what its documentation, its assertions or its callers expect, the model follows the
code, and a lemma gives an input and the exact condition.

- `bufferlist::zero(o, l)` (common/buffer.cc:931-950) zeroes a segment to its end when the range lies inside it,
  after its first byte and before its end: `ZeroEndExact`, `ZeroIsRight`, `ZeroTooFar`.
- `claim_prepend`, `push_front` and `rebuild` (common/buffer.cc:967-1071, include/buffer.h:390) do not reset the
  cached cursor that `copy` and `copy_in` go on from. Afterwards it is right exactly if it was at the end, or
  nothing was put in front: `ClaimPrepend`, `PushFront`, `Rebuild`; what is read then: `PrependMisreads`,
  `CopyAfterPrepend`, `DanglingAfterRebuild`. `rebuild_aligned` leaves it dangling exactly as `RebuildAligned` says.
- `rebuild` of an empty list leaves a segment of length zero: `Rebuild`.
- A list that holds overlapping pointers is not a list of bytes to `copy_in`: `WritesRightExactly`,
  `OverlapShows`.
- Flush tids are kept in 16 bits (client/Inode.h:230, client/Client.cc:2856-2861, 4182-4218). After 65536 flushes of the same bit an
  old acknowledgment is taken for the last one, and a modification is forgotten: `AckForgetsIff`,
  `WrappedAckLosesBit`.
- An export, and an import that removes the exporter's cap, can cost the client a bit it is using:
  `ExportKeepsInUseIff`, `ImportKeepsInUseIff`, with the runs `ExportLosesBit` and `ImportLosesBit`.
- The two assertions at the end of `kick_requests_closed` (client/Client.cc:2449-2472) fail for a session with a
  request that was forwarded away and not yet sent again, that another MDS was asked after the unsafe reply, or
  that was sent after leaving the table: `SessionListsAfterKick`, `ForwardedStays`, `StrayedStays`.
- The admin socket can close a session while `handle_client_reply` waits for the caller with the lock released
  (client/Client.cc:172-195, 1908-1918, 2105-2125). If the reply was unsafe and the caller returns first, the
  dispatcher looks at a freed request: `DispatcherOnFreed`, `FreedUnderDispatcher`. If the caller was about to ask
  another MDS, it sends the request and then frees it while it is on a session's list: `FreedOnList`,
  `ReturnsOnList`.
- A forward that comes after an unsafe reply, from an MDS asked later, signals a caller that is not there
  (client/Client.cc:2003-2039). The caller is there exactly if there was no unsafe reply: `EveryRun`,
  `ForwardFindsNobody`.
- An entry whose cost is the token limit is never eligible (`cost < tokens`), and priority zero gets no token from
  the last entry above it. Either waits for ever while items keep arriving above, exactly under the condition of
  `ServedIff`: `FullCostStarves`, `ZeroStarves`.
- A split moves child realms without emptying their caches, and relies on the record that follows to do so
  (client/Client.cc:3957-3968). If that record is neither newer than the realm nor moves it, a cached context
  can be wrong: `HandleSplit`, `SplitAloneLeavesStaleCache`.
- A split message that lists an inode twice drops the reference to its old realm twice, because the inode's
  realm pointer is only set at the end (client/Client.cc:3935-3954): `RepeatedInodeFreesRealm`. `HandleSplit`
  requires distinct inodes.
- A readahead limit that shrinks below the position makes the length wrap around: `WithinIff`, `ShrunkLimit`.
- Readahead can ask for bytes that have been read: `AheadIff`, `ReadsBehind`.
- A throttle goes over its limit by a request larger than the limit, a `take` that does not fit, or a limit set
  below what is out or asked for, and in no other way: `StepWithinIff`, `WithinMaxExact`, `OverMax`.
- The printer of configurations escapes nothing, so that settings which can be loaded do not all come back:
  `SettingReadsBackIff`, `SectionReadsBackIff`, `QuoteIsLost`.

## Left out

- Snapshots of inodes (`CapSnap`, `flush_snaps`, `queue_cap_snap` beyond its `follows`), quotas, file locks and the object cacher.
- The contents of inodes (times, modes, xattrs) in grants and flush acknowledgments; readdir, paths and system calls.
- `remove_all_caps` and the other releases that `put_inode` starts; in the graph they are pins from outside.
- Threads, clocks and timeouts: delayed cap releases are the flag `holding`, condition variables are sets of the signalled, and a request is not aborted.
- Failure injection, debug output, perf counters, and the text of error messages, which is only counted.
- Sequence numbers compared with wrap-around (`ceph_seq_cmp`): they are unbounded here.
- The lists of inodes being flushed that sessions keep; the LRU state of dentries; order of siblings in lists that the code only iterates.
- Reference counts of raw buffers, raws that must not be shared, 32-bit lengths, `swap`, streams and file input and output of bufferlists. Alignments are powers of two in the source, where a mask is the remainder taken here.
- The checksum routine for data that is all zeros and not given: it is `UpdateCrc` on zeros.
- Generation of salts and the conversion of a hash to a number in the Bloom filter, which are parameters, as is the check for valid UTF-8.
- BufferLists.BufferList.Zero: the raws it leaves are given by `Zeroed`; what that means for the bytes of the list is stated for segments that do not overlap.
- BufferLists.BufferList.Splice: requires that a range that starts inside the list also ends in it; for a longer range the source's loop runs off the end of its list of segments.
- RealmTables.RealmTable.HandleSplit: requires distinct inodes, and moves that close no cycle of realms, which the MDS guarantees.
- RealmTables.RealmTable.UpdateSnapTrace: requires that the moves of the trace close no cycle, which the MDS guarantees.
- CapWriteback.NoDirtyBitIsLost: is about runs in which every acknowledgment comes within 65536 flushes; `AckForgetsIff` says what happens otherwise.
- CapProtocol.InUseStaysImplemented: leaves imports, exports and session closes to the exact statements about them.
- CapProtocol.ImportKeepsInUseIff: for a message in which an MDS imports from itself the condition is about the caps after the check that the import makes.
- PrioritizedQueues.BoundedWait: does not model overflow of the token arithmetic.
- DentryCaches.DentryCache.LinkDentry: updates the old and the new dentry of a directory in the opposite order.
- DentryCaches.DentryCache.UnlinkDentry: drops the dentry before it closes the directory, the source after.
- Readaheads.WithinIff: models 64-bit wrap-around where the extent is clipped to the limit and in the position after it, and not in the sums before.
- BufferLists.BufferList.Copy: requires that a dangling cursor does not claim the offset asked for; the source then goes on in a freed segment.
- BufferLists.BufferList.CopyIn: requires the same.
- Ropes.AdvanceBack: does not say what happens to a cursor ahead of the offset it claims that is moved back by more than that offset; the source's offset wraps around.
- MetaRequests.DispatcherOnFreed: the model stops at a dispatcher whose request has been freed, and at a forward that wakes nobody goes on as if nothing had happened.
- ConfFiles.RoundTrip: goes one way for a whole file; line by line it is exact.
