# QConf in Dafny

QConf keeps configuration that lives in ZooKeeper at hand in a shared-memory hash
table. An agent on each host fills the table, keeps it in step with ZooKeeper through
watches, dumps it to disk and overlays gray releases. Clients only read the table. A
separate monitor checks the servers of each service and marks them up or down.

The project models that core and proves it correct:

* **The fixed-memory hash table** (`HashArrModel`, `HashArr`, `HashArrRuns`). A class
  over an array of slots, changed in place as in the source: leaders with a count of
  the keys of their home, collision entries (count -1), extension blocks (count -2)
  with back and forward links. A ghost owner per slot makes "every chain is intact
  and no two overlap" a statement about single slots. Every operation, and so every
  run of operations, refines a finite map with an exact capacity rule.
* **The shared table** (`Frame`, `Lru`, `Eviction`, `SharedTable`). Self-verifying
  frames, eviction of the least recently written keys, and a traversal that rebuilds
  keys of which a slot keeps only 32 bytes. The recency list carries the history of
  writes: it is always ordered by last write, so the key evicted is the oldest.
* **The codec** (`Codec`, `CodecLayout`). Keys and values as length-prefixed byte
  strings; the round trips hold exactly within the field widths, the layouts are stated
  byte by byte, and the readers accept exactly the inputs that start with an encoding.
* **MD5** (`Md5Spec`, `Md5Transform`, `Md5`, `Md5Vector`). The unrolled, buffered
  implementation against sections 3.1 to 3.5 of RFC 1321, and a digest of its test suite.
* **The agent** (`ServiceStatus`, `WatcherModel`, `WatcherView`, `WatcherSync`,
  `WatcherProvenance`, `WatcherHistory`, `WatcherService`, `WatcherCheck`, `WatcherTable`,
  `AgentState`). ZooKeeper callback, worker, gray thread, table-checking assistant,
  trigger thread and environment as interleaved steps, one step per critical section or
  outside call; invariants over every run. ZooKeeper is a tree of nodes with one-shot data
  and list watches; a node is set, created or deleted, and the watches it has fire. A
  service is read with one call for its list and one for each child. That a table value
  agrees with ZooKeeper means that a client who decodes it gets the data of the node, its
  children, or exactly those children that are up.
* **The monitor** (`Monitor`). Division of the services among monitors, and the guard
  that keeps the last server of a service up.

Where the code does not do what one would expect, the model follows the code:

* A put of a value without bytes takes a slot that no counter knows of.
  `HashArr.Table.Put` keeps the table intact exactly when the value has bytes or the
  put is refused. The shared table always stores at least four bytes.
* A put of a stored key removes the old value before it looks for room, so a put that
  fails for lack of room loses the key (`HashArrModel.PutFrame`). A full table refuses
  even to overwrite a stored key; the shared table then evicts the last listed key first
  (`SharedTable.Shm.Set`).
* For a changed child of a service the callback asks whether the child's own key is
  pending, not the service's (agent/qconf_watcher.cc:903). If the service is not in the
  table either, because it is being read for the first time or was evicted, the test is
  dropped and the value read before the change stays until the next table check.
  `WatcherService` gives such a run for every ZooKeeper tree, every service in it whose
  children have valid statuses, and every change of a child between up and not up
  (`ServiceUpdateLost`). It shows that from any run a drop at that point loses the update
  (`DropLoses`), and that a service can be stale at rest in no other way
  (`StaleOnlyByDrop`, `QuiescentService`). `WatcherCheck` shows that the table check
  repairs it: a check that ends without a difference leaves the service in step, unless a
  test is dropped again or the value is replaced while the check runs (`CheckRepairs`).
* A read of a service ends without a result when a listed child has no valid status or is
  gone (agent/qconf_zoo.cc:189-190). A child that is gone has changed the list, so a new
  read is on its way; with a child of no valid status the old value stays until that child
  changes. `QuiescentService` says so exactly.
* The monitor's guard covers the change to down only; `Monitor.LastUpLost` says exactly
  which updates leave a service without a server. The checks report up or down and nothing
  else (monitor/src/monitor_check_thread.cc:48-57), so for the running monitor
  `Monitor.SomeServerStaysUp` is the result.
* The comment at base/qlibc/qlibc.h:191 names FNV32 as the key hash; the code uses
  Murmur3.

## Model

| member | source | states |
|---|---|---|
| HashArrModel.BeginEntry | base/qlibc/qhasharr.c:904-922 | Filling an empty slot as a head adds one entry of one block and keeps every other chain intact. |
| HashArrModel.ExtendEntry | base/qlibc/qhasharr.c:936-961 | Linking an empty slot behind the last block of an entry appends its bytes to that entry's value and keeps all chains intact. |
| HashArrModel.FreeEntry | base/qlibc/qhasharr.c:1029-1065 | Emptying all slots of one chain removes exactly that entry. |
| HashArrModel.MoveEntry | base/qlibc/qhasharr.c:339-358 | Moving any slot (leader, collision entry or block) with its two neighbours relinked changes only the position of one block; keys and values stay. |
| HashArrModel.DisplaceKeeps | base/qlibc/qhasharr.c:326-358 | Displacing a foreign slot from a home keeps chains, leader counts and the stored map. |
| HashArrModel.Promoted | base/qlibc/qhasharr.c:636-667 | Removing a leader and promoting a collision entry into its slot keeps the invariant and drops exactly one key. |
| HashArrModel.CollisionExists | base/qlibc/qhasharr.c:640-653 | A leader that counts more than one key has a collision entry somewhere, so the search for one cannot fail. |
| HashArrModel.OthersAtHome | base/qlibc/qhasharr.c:668-676 | Where the head of a stored key is, and that the leader of a collision entry counts at least two keys. |
| HashArrModel.UsedIsTotal | base/qlibc/qhasharr.c:981-985 | The number of slots in use is the number of blocks the stored values need: no slot leaks, none is shared. |
| HashArrModel.FullIff | base/qlibc/qhasharr.c:274-279 | As many used slots as there are slots means exactly that no slot is empty. |
| HashArrModel.PutFrame | base/qlibc/qhasharr.c:274-303 | A put leaves all other keys alone; a full table refuses every put, that of a stored key included, and changes nothing; any other refused put loses its key. |
| HashArrModel.CapacityExact | base/qlibc/qhasharr.c:274-303 | A non-empty value of any key is stored if and only if some slot is free and the free slots, with those of the key's old value, suffice for its bytes, 96 in the first slot and 146 in each further one. |
| HashArrModel.BlocksExact | base/qlibc/qhasharr.c:904-961 | A value takes one slot for its first 96 bytes and one for each begun 146 bytes beyond. |
| HashArr.Table.constructor | base/qlibc/qhasharr.c:189-212 | A new table is well formed and stands for the empty map. |
| HashArr.Table.IdentSeparates | base/qlibc/qhasharr.c:757-815 | Two keys are confused if and only if their hashes share a home and they are equal, or both are longer than 32 bytes and agree in length, first 32 bytes and digest. |
| HashArr.Table.HeadRecognised | base/qlibc/qhasharr.c:913-919 | A lookup recognises the head slot written for its own key if and only if the key length fits the 16-bit field. |
| HashArr.Table.FindEmpty | base/qlibc/qhasharr.c:734-755 | The first empty slot on the cyclic walk; -1 exactly when there is none. |
| HashArr.Table.SeenAll | base/qlibc/qhasharr.c:764-809 | Once as many heads of a home were met as its leader counts, all its keys were met: stopping early is sound. |
| HashArr.Table.GetIdx | base/qlibc/qhasharr.c:757-815 | The early-stopping lookup returns the head slot of a key exactly when the key is stored. |
| HashArr.Table.DataSize | base/qlibc/qhasharr.c:817-846 | The first pass gives the exact length; the loop guard against cycles never fires. |
| HashArr.Table.GetData | base/qlibc/qhasharr.c:817-893 | Following the chain reassembles the stored value byte for byte. |
| HashArr.Table.CopySlot | base/qlibc/qhasharr.c:991-1009 | Copies into an empty slot only, keeping the used-slot counter exact. |
| HashArr.Table.RemoveSlot | base/qlibc/qhasharr.c:1011-1027 | Empties a used slot only, keeping the used-slot counter exact. |
| HashArr.Table.RemoveData | base/qlibc/qhasharr.c:1029-1065 | Empties exactly the slots of one chain; the loop guard never fires. |
| HashArr.Table.StoreHead | base/qlibc/qhasharr.c:904-985 | The head holds the first bytes of the value, and both counters go up by one. |
| HashArr.Table.StoreBlock | base/qlibc/qhasharr.c:936-985 | One more block extends the stored prefix of the value and nothing else. |
| HashArr.Table.UndoPut | base/qlibc/qhasharr.c:928-934 | An entry that finds no slot for its next block is rolled back completely. |
| HashArr.Table.PutData | base/qlibc/qhasharr.c:895-989 | All blocks are stored, or none: success exactly when the free slots suffice; counts of other slots are kept. |
| HashArr.Table.StoreEmpty | base/qlibc/qhasharr.c:904-925 | A value without bytes takes a slot while both counters stay, so the counter falls one behind. |
| HashArr.Table.Displace | base/qlibc/qhasharr.c:326-358 | Frees a home slot held by a foreign entry or block without changing the stored map. |
| HashArr.Table.FindDup | base/qlibc/qhasharr.c:638-653 | Finds the next collision entry of the leader's home on the cyclic walk. |
| HashArr.Table.RemoveLeader | base/qlibc/qhasharr.c:636-667 | The map loses the leader's key only; the error branch is never taken. |
| HashArr.Table.RemoveCollision | base/qlibc/qhasharr.c:668-680 | The map loses the collision entry's key only; the error branch is never taken. |
| HashArr.Table.Remove | base/qlibc/qhasharr.c:605-688 | The map loses the key and nothing else; fails exactly when the key is absent. |
| HashArr.Table.UsedTotal | base/qlibc/qhasharr.c:981-985 | The used-slot counter is the space the stored values need, and the key counter the number of keys. |
| HashArr.Table.PutAsCollision | base/qlibc/qhasharr.c:304-324 | A key beside an existing leader is stored exactly when its blocks fit, and is counted by the leader. |
| HashArr.Table.PutDisplacing | base/qlibc/qhasharr.c:326-366 | A key whose home is held by a foreign slot is stored exactly when its blocks fit. |
| HashArr.Table.Put | base/qlibc/qhasharr.c:259-369 | Refines the put of the finite map, error code included: refused without any change by a full table, else stored exactly when its slots suffice once the old value has gone; the table stays valid if and only if the value has bytes or the put is refused. |
| HashArr.Table.Get | base/qlibc/qhasharr.c:443-469 | The value the map holds, or not-found. |
| HashArr.Table.Exist | base/qlibc/qhasharr.c:222-243 | True exactly for the keys of the map. |
| HashArr.Table.Clear | base/qlibc/qhasharr.c:714-728 | Leaves a valid empty table, also by its early exit. |
| HashArr.Table.GetNext | base/qlibc/qhasharr.c:546-591 | One call yields the next stored entry with its whole value and moves just past it, or says that none is left. |
| HashArrRuns.Do | base/qlibc/qhasharr.c:259-728 | Each operation answers and acts as on the finite map, the put of a value without bytes into a full table included. |
| HashArrRuns.Run | base/qlibc/qhasharr.c:259-728 | Every run of operations, of any length, gives the replies and the contents of the finite map. |
| HashArrRuns.LastWriteWins | base/qlibc/qhasharr.c:259-469 | In every run, a lookup after a stored put of its key, with no other put or removal of the key nor a clear in between, finds the value put. |
| HashArrRuns.GoneStaysGone | base/qlibc/qhasharr.c:259-728 | In every run, a lookup after a clear, a removal of its key, or a put of it refused for lack of room finds nothing, until the key is put again. |
| HashArrRuns.LookupAnswers | base/qlibc/qhasharr.c:222-469 | In every run, a lookup answers what was stored for its key at any time since which no operation touched the key. |
| HashArrRuns.FullPutIgnored | base/qlibc/qhasharr.c:274-279 | A put into a full table is refused and the run goes on as without it. |
| Frame.VerifyIff | base/qconf_shm.cc:177-214 | A buffer is accepted with a value if and only if it starts with the frame of that value. |
| Frame.VerifyFramed | base/qconf_shm.cc:284-297 | A framed value verifies to itself. |
| Frame.FrameLayout | base/qconf_shm.cc:284-297 | Four bytes of length, the value, and then the value again or, above 1024 bytes, the 16 bytes of its digest. |
| Frame.VerifyError | base/qconf_shm.cc:177-214 | Exactly the buffers that do not start with a frame are refused, with the error of a damaged value. |
| Lru.VisitedKeys | base/qconf_shm.cc:459-474 | Writing a key keeps the recency list free of duplicates, adds no other key and puts the key in front. |
| Lru.VisitedOrder | base/qconf_shm.cc:459-474 | Writing a key leaves the order of any two other keys as it is. |
| Lru.VisitedByLastWrite | base/qconf_shm.cc:459-474 | A list ordered by last write, newest first, is so again after one more write. |
| Lru.List.GetRemoveKey | base/qconf_shm.cc:441-447 | Of the listed keys the one whose last write is oldest, in every history of writes; the empty key from an empty list. |
| Lru.List.RemoveKey | base/qconf_shm.cc:449-457 | Drops the last key from list and map together. |
| Lru.List.EraseKey | base/qconf_shm.cc:468-469 | The stored iterator points to the key's own cell. |
| Lru.List.VisitKey | base/qconf_shm.cc:459-474 | Brings the key to the front, every other key staying in its order, list and map in agreement, and the list ordered by last write; the local-idc key is never listed. |
| Eviction.EvictsShortestTail | base/qconf_shm.cc:235-262 | For any key, stored or not, exactly the shortest tail of the recency list is evicted that makes room; without one everything listed goes and the set fails. |
| Eviction.FullEvictsLast | base/qconf_shm.cc:235-262 | In a full table even a set of a stored key evicts the last listed key. |
| Eviction.EvictTracked | base/qconf_shm.cc:235-262 | With every key listed, a set succeeds if and only if the value fits beside the local-idc entry, which always survives. |
| Eviction.EvictStaysTracked | base/qconf_shm.cc:242-256 | Every key that survives an eviction is still in the recency list. |
| Eviction.EvictFrame | base/qconf_shm.cc:242-256 | Eviction drops other keys or leaves their values alone. |
| SharedTable.KeyRecovered | base/qconf_shm.cc:348-390 | The 32 kept bytes of a key and its value give the whole key back. |
| SharedTable.RecoverExact | base/qconf_shm.cc:348-390 | A key is recovered if and only if the value carries a key of the type that the first kept byte names; it is that key. |
| SharedTable.RecoverErrors | base/qconf_shm.cc:348-390 | Which error an entry gives whose key cannot be recovered. |
| SharedTable.Shm.Get | base/qconf_shm.cc:146-174 | The verified value of the key, with the error for empty, missing and damaged ones. |
| SharedTable.Shm.LookupExact | base/qconf_shm.cc:146-174 | A lookup gives v exactly when what is stored starts with the frame of v; a missing key and a damaged value are told apart. |
| SharedTable.Shm.Remove | base/qconf_shm.cc:398-409 | Removes one key; an absent key is no error. |
| SharedTable.Shm.EvictLast | base/qconf_shm.cc:243-252 | Takes the last listed key from table and list; fails exactly on an empty list. |
| SharedTable.Shm.PutEvicting | base/qconf_shm.cc:238-256 | The retry loop terminates and does what put with eviction does on the finite map. |
| SharedTable.Shm.OutcomeTracked | base/qconf_shm.cc:235-262 | After a set all keys are listed again; success is decided by the value's size and the local-idc entry alone. |
| SharedTable.Shm.Set | base/qconf_shm.cc:264-308 | A set that does not fail is read back; the same value changes nothing; after a failed set the key is gone rather than stale; the evicted keys are the last listed ones, which were written before all that stay, and among them, when the table was full, the last one even if the key was stored; other keys keep their values. |
| SharedTable.Shm.GetNext | base/qconf_shm.cc:320-396 | The next entry with its whole key, or the end, with every error branch. |
| SharedTable.Shm.YieldsFullKey | base/qconf_shm.cc:348-390 | In a table of values encoded with their own keys the traversal returns the original key. |
| SharedTable.Shm.Traverse | agent/qconf_watcher.cc:424-448 | A whole traversal ends and meets every stored entry exactly once, with its result. |
| SharedTable.Shm.TraverseDescribed | base/qconf_shm.cc:348-390 | In a table of self-describing values each item of a traversal is the original key with its verified value. |
| SharedTable.Shm.InitLru | base/qconf_shm.cc:477-502 | Rebuilding the recency list succeeds if and only if every entry can be read, and then adds exactly the stored keys that have a path, written in the order of their slots. |
| SharedTable.Shm.InitTracks | base/qconf_shm.cc:477-502 | A recency list rebuilt from nothing tracks every key if and only if every stored key has a path or is the local-idc key; an idc-host key is never listed. |
| SharedTable.Shm.Restart | agent/qconf_watcher.cc:172-183 | A restart on a table of self-describing values succeeds, and tracks every key under that same condition. |
| Codec.NumRoundTrip | base/qconf_format.h:25-42 | A number is read back if and only if it fits its field. |
| Codec.BytesRoundTrip | base/qconf_format.h:25-42 | Every field is the encoding of the number it decodes to. |
| Codec.EncodeNumLoop | base/qconf_format.h:28-32 | The shifting loop writes the little-endian bytes. |
| Codec.DecodeNumLoop | base/qconf_format.h:38-42 | The shifting loop reads the little-endian bytes. |
| Codec.FieldRoundTrip | base/qconf_format.h:44-68 | A length-prefixed string is read back and the position moves just past it. |
| Codec.DecodeField | base/qconf_format.h:53-68 | Reading at a position agrees with the specification, errors included. |
| Codec.KeyRoundTrip | base/qconf_format.cc:28-76 | A key decodes to its parts if and only if they fit its fields and its type. |
| Codec.KeyInjective | base/qconf_format.cc:28-47 | Distinct parts give distinct keys. |
| Codec.NodeRoundTrip | base/qconf_format.cc:224-244 | A node value gives back data and key if and only if the data fits its length field. |
| Codec.VectorRoundTrip | base/qconf_format.cc:284-304 | A list of children gives back children and key if and only if count and names fit their fields. |
| Codec.HostRoundTrip | base/qconf_format.cc:190-206 | An idc value gives back host and key if and only if the host fits its length field. |
| Codec.EncodeBatch | base/qconf_format.cc:126-145 | The loop writes the specified list of all children. |
| Codec.EncodeService | base/qconf_format.cc:96-124 | The two loops write the list of the children that are up, in order, with their count. |
| Codec.DecodeVector | base/qconf_format.cc:371-411 | The loop accepts exactly the well-formed lists and returns their names and the position after them. |
| Codec.EncodeGray | base/qconf_format.cc:413-431 | The loop writes the specified list of gray items. |
| Codec.DecodeGray | base/qconf_format.cc:433-457 | The loop accepts exactly the well-formed lists and returns the set of their items. |
| Codec.GrayRoundTrip | base/qconf_format.cc:413-457 | A set of gray items, written in any order, is read back if and only if their number and lengths fit the fields. |
| CodecLayout.UserKeyLayout | base/qconf_format.cc:28-47 | The bytes of a node, service or batch key: type, one byte and the idc, two bytes and the path. |
| CodecLayout.OtherKeyLayout | base/qconf_format.cc:28-47 | The bytes of an idc-host key and of the local-idc key. |
| CodecLayout.NodeLayout | base/qconf_format.cc:87-94 | The bytes of a node value: four bytes and the data, then the key. |
| CodecLayout.HostLayout | base/qconf_format.cc:147-160 | The bytes of an idc value: two bytes and the hosts, then the key. |
| CodecLayout.VectorEnds | base/qconf_format.cc:126-145 | A list of children starts with its count in two bytes and ends with the key. |
| CodecLayout.VectorLayout | base/qconf_format.cc:126-145 | Where in the list each name stands, behind two bytes of length. |
| CodecLayout.GrayLayout | base/qconf_format.cc:413-431 | Where in a gray value each item stands, behind four bytes of length. |
| CodecLayout.UpOnlyPicks | base/qconf_format.cc:96-124 | A service lists the children with status 0, all of them, in their order, and no other. |
| CodecLayout.KeyExact | base/qconf_format.cc:49-76 | A key is read from exactly the inputs that start with it. |
| CodecLayout.KeyErrors | base/qconf_format.cc:49-76 | An unknown type and a key cut short are told apart. |
| CodecLayout.NodeExact | base/qconf_format.cc:224-244 | A node value is read from exactly the inputs that start with it. |
| CodecLayout.HostExact | base/qconf_format.cc:190-206 | An idc value is read from exactly the inputs that start with it. |
| CodecLayout.VectorExact | base/qconf_format.cc:284-304 | A list of children is read from exactly the inputs that start with it. |
| CodecLayout.GrayExact | base/qconf_format.cc:433-457 | A gray set is read only from inputs that hold its items in some order. |
| Md5Spec.AbsorbAppend | base/qlibc/md5.c:154-167 | Blocks may be absorbed in pieces. |
| Md5Transform.Transform | base/qlibc/md5.c:221-323 | The 64 unrolled steps compute the block function of section 3.4 of RFC 1321. |
| Md5Vector.AbcDigest | base/qlibc/md5.c:221-323 | The digest of "abc" is the one in the test suite of RFC 1321, section A.5. |
| Md5.CounterAdd | base/qlibc/md5.c:146-150 | The two-word bit counter with its carry test counts modulo 2^64. |
| Md5.BufferedBytes | base/qlibc/md5.c:143-144 | The low counter word alone tells how many bytes are buffered. |
| Md5.Context.Update | base/qlibc/md5.c:134-172 | Appends the input to the message absorbed so far, however the bytes fall on block boundaries. |
| Md5.Context.Pad | base/qlibc/md5.c:178-196 | Appends exactly the padding of sections 3.1 and 3.2 of RFC 1321. |
| Md5.Context.Final | base/qlibc/md5.c:203-217 | Returns the digest of the whole message. |
| Md5.DigestOfChunks | base/qlibc/md5.c:134-217 | The digest does not depend on how the message is cut into updates. |
| Md5.HashMd5 | base/qlibc/qhash.c:68-86 | The one-shot digest is MD5. |
| ServiceStatus.StatusOf | agent/qconf_zoo.cc:201-218 | Any status read from a child is up, offline or down. |
| ServiceStatus.StatusRoundTrip | agent/qconf_zoo.cc:197-225 | The agent reads back every status the monitor writes. |
| ServiceStatus.StatusExact | agent/qconf_zoo.cc:197-225 | Which data has which status, and so which data has none: white space, a sign, and 0, 1 or 2 in C notation up to the first zero byte, or a zero byte in front. |
| WatcherView.HeldNone | agent/qconf_zoo.cc:177-225 | A key has no table value exactly when its node is missing or a child of the service has no valid status. |
| WatcherView.HeldShows | agent/qconf_watcher.cc:595-681 | A client that decodes the table value of a key gets the data of its node, all its children, or exactly the children whose status is up, in order, with the key. |
| WatcherSync.TestsExact | agent/qconf_watcher.cc:852-928 | The callback tests exactly the keys whose own watch the event reports and the service above a changed child. |
| WatcherSync.TestsCover | agent/qconf_watcher.cc:852-928 | For every event the callback tests every key whose own watch the event reports. |
| WatcherSync.TestsCoverChild | agent/qconf_watcher.cc:897-907 | For a changed child the callback tests its service, but with the child's own key for the pending test. |
| WatcherSync.TableTestChild | agent/qconf_watcher.cc:903-906 | A test for a changed child is dropped only when the service is not in the table. |
| WatcherSync.HandlerKeeps | agent/qconf_watcher.cc:852-928 | The callback's separate pending and table tests, interleaved with the worker, forget nothing else. |
| WatcherSync.ReadComplete | agent/qconf_zoo.cc:177-195 | A service whose list and statuses were read one by one, all watches still set, is in step as a whole. |
| WatcherSync.ReadStops | agent/qconf_zoo.cc:189-190 | A read that stops while the list is unchanged met a child of no valid status that it now watches, never a child that is gone. |
| WatcherSync.WorkerKeeps | agent/qconf_watcher.cc:390-681 | Every worker step keeps the invariant: pop, pending, gray test, reads, rejection, write, remove, trigger, done. |
| WatcherSync.GrayKeeps | agent/qconf_gray.cc:65-98 | Every step of the gray thread keeps the invariant, the gap between listing and clearing included. |
| WatcherSync.AssistKeeps | agent/qconf_watcher.cc:417-534 | Every step of the table check keeps the invariant, a service compared child by child and a comparison without an answer included. |
| WatcherSync.StepKeeps | agent/qconf_watcher.cc:368-1162 | Every step of any thread keeps the invariant for every key. |
| WatcherSync.RunInv | agent/qconf_watcher.cc:368-1162 | The invariant holds in every state of every run without failures of ZooKeeper. |
| WatcherSync.NoLostUpdate | agent/qconf_watcher.cc:368-681 | In every reachable state a table entry decodes to what ZooKeeper holds with all watches set, or is queued, in progress, announced, or inherited and not looked at yet; a service may also have lost the test for a child or wait for a child of no valid status. |
| WatcherSync.GrayInsertedAt | agent/qconf_gray.cc:152-160 | After an insertion exactly the keys gray before and the listed ones are gray, and the former keep their values. |
| WatcherSync.GrayInsertedFirst | agent/qconf_gray.cc:152-160 | A key new to the gray set gets the first value listed for it. |
| WatcherSync.GrayOverlay | agent/qconf_watcher.cc:536-593 | In every reachable state a gray key in the table has its gray value or is about to be written. |
| WatcherSync.GrayReleased | agent/qconf_gray.cc:84-92 | When a release ends, every gray key is on its way to be fetched again. |
| WatcherSync.QuiescentAgrees | agent/qconf_watcher.cc:368-681 | At rest gray keys hold their gray values, and node and batch keys decode to the data and the children that ZooKeeper holds: no gray value outlives its release. |
| WatcherService.DroppedSince | agent/qconf_watcher.cc:897-907 | The recorded mark of a lost test means exactly that a test for a child was dropped, the service not being in the table, and no read of the service has begun since. |
| WatcherService.ServiceInStep | agent/qconf_watcher.cc:621-651 | In every reachable state a service that lost no test since its last read began decodes to the children that are up, or a fresh read is to come, or a watched child has no valid status. |
| WatcherService.QuiescentService | agent/qconf_watcher.cc:621-651 | At rest such a service agrees with ZooKeeper if and only if all its children have valid statuses. |
| WatcherService.DropLoses | agent/qconf_watcher.cc:903-906 | From any run: a dropped test that was the last thing outstanding for a service whose outdated value is about to be written loses the update. |
| WatcherService.ServiceUpdateLost | agent/qconf_watcher.cc:897-907 | For every tree, every service in it whose children have valid statuses and every change of a child between up and not up, a failure-free run through the dropped test that comes to rest with the old value. |
| WatcherService.StaleOnlyByDrop | agent/qconf_watcher.cc:897-907 | In every run, a service that is stale at rest with valid statuses lost a test since its last read began. |
| WatcherCheck.RunCheck | agent/qconf_watcher.cc:476-534 | In every reachable state what the table check has read of a service still stands, or a fresh read is to come, unless the comparison was disturbed. |
| WatcherCheck.CheckRepairs | agent/qconf_watcher.cc:417-441 | A check of a service that ends without a difference leaves it out of the table, in step, outstanding, with the worker or waiting for a child of no valid status, unless a test was dropped since the check read the list or the table got another value than the one compared. |
| WatcherCheck.EmptyCheckRepairs | agent/qconf_watcher.cc:506-515 | The same for a service without children, which one call compares. |
| WatcherProvenance.StepProv | agent/qconf_watcher.cc:368-1162 | Every step, failures included, keeps all held values known, and makes known only what ZooKeeper returned or a release set. |
| WatcherProvenance.FetchedGenuine | agent/qconf_zoo.cc:177-195 | A value read for a service decodes to the names ZooKeeper had when the list was read whose child held status up at a later step of the same processing, the statuses read one after the other; any other value decodes to what ZooKeeper held at the read. |
| WatcherProvenance.Provenance | agent/qconf_watcher.cc:536-593 | In every run, with failures and lost sessions, each value in table, dump, gray set and trigger queue was inherited, was read from ZooKeeper for that key in the sense above, or was set as its gray value. |
| WatcherProvenance.TriggerLookupHits | agent/qconf_watcher.cc:956-1031 | The trigger queue has no duplicates and holds exactly the keys of its value map. |
| WatcherHistory.GrayExact | agent/qconf_gray.cc:65-98 | In every run, failures included, a key is gray exactly while a release that lists it has not ended, with the first value that the first such release lists. |
| WatcherHistory.GrayStays | agent/qconf_gray.cc:65-98 | In every run a gray key keeps its value until the release ends. |
| WatcherHistory.TriggerQueued | agent/qconf_watcher.cc:956-971 | After the worker queues a trigger it is queued, with its value or with the earlier one still there. |
| WatcherHistory.TriggerWaits | agent/qconf_watcher.cc:973-1031 | In every run a queued trigger waits, with its value, until it is carried out. |
| WatcherHistory.CarriedOutEffect | agent/qconf_watcher.cc:1033-1052 | Carrying out a trigger leaves its value under its key in the dump, or takes the key from it, or leaves the dump, and changes nothing else. |
| WatcherHistory.TimedOutWaits | agent/qconf_watcher.cc:1081-1119 | A feedback that timed out leaves a reset of the key queued. |
| WatcherHistory.StoredReachesDump | agent/qconf_watcher.cc:602-610 | In every run a value the worker stored has its trigger with the worker, queued, or carried out since, with that value unless an earlier trigger of the key was still queued. |
| WatcherHistory.RemovedReachesDump | agent/qconf_watcher.cc:611-614 | In every run the same holds for a removed key. |
| WatcherHistory.DumpRestores | agent/qconf_watcher.cc:578-589 | In every run, after a failed read the table gets, if anything, what the dump held for that key when the worker asked, and no trigger follows. |
| AgentState.NodeQueue.AddWatcherNode | agent/qconf_watcher.cc:930-941 | Appends a key unless it is queued already; deque and set agree. |
| AgentState.NodeQueue.Take | agent/qconf_watcher.cc:395-407 | Takes the oldest key, which may then be queued again. |
| AgentState.TriggerQueue.AddChangeTriggerNode | agent/qconf_watcher.cc:956-971 | The first value queued for a trigger is the one kept. |
| AgentState.TriggerQueue.Take | agent/qconf_watcher.cc:973-1031 | Takes the oldest trigger with its value, which is always found. |
| AgentState.GrayNodes.Set | agent/qconf_gray.cc:152-160 | Exactly the keys gray before and the listed ones are gray; the former keep their values, the others get the first value listed. |
| AgentState.GrayNodes.Get | agent/qconf_gray.cc:162-170 | Lists every gray key once. |
| WatcherTable.WriteKey | agent/qconf_watcher.cc:602-610 | On a tracked table whose keys the hash table keeps apart, a write does what the protocol assumes: stored, the same value found, or refused with the key absent; other keys keep their values or are evicted. |
| WatcherTable.RemoveKey | agent/qconf_watcher.cc:611-614 | A removal takes that one key from the table as the protocol sees it. |
| Monitor.GetMonitors | monitor/src/monitor_load_balance.cc:133-164 | The rank is the first position of this monitor's sequence number; an unregistered monitor asks for a rebalance. |
| Monitor.DoBalance | monitor/src/monitor_load_balance.cc:49-84 | A monitor takes exactly the fathers at the positions of its share, and starts each with no servers. |
| Monitor.StrideAt | monitor/src/monitor_load_balance.cc:74-80 | The positions of a rank are its own and every size-th after it, as far as there are nodes. |
| Monitor.ExactlyOneMonitor | monitor/src/monitor_load_balance.cc:74-80 | Each service father goes to exactly one rank. |
| Monitor.SharesBalanced | monitor/src/monitor_load_balance.cc:74-80 | The shares of two monitors differ by at most one. |
| Monitor.NodesPartitioned | monitor/src/monitor_load_balance.cc:49-84 | With distinct sequence numbers, every position is in the share of exactly one registered monitor. |
| Monitor.SharesEven | monitor/src/monitor_load_balance.cc:49-84 | With distinct sequence numbers, what any two registered monitors take differs by at most one. |
| Monitor.FatherOfPath | monitor/src/monitor_update_thread.cc:13-16 | Splitting a server path at its last slash undoes joining father and server. |
| Monitor.Options.IsOnlyOneUp | monitor/src/monitor_update_thread.cc:9-22 | True exactly when at most one server of the father is up; the default entries it creates change no status. |
| Monitor.Options.UpdateService | monitor/src/monitor_update_thread.cc:25-49 | Every path keeps its status but the updated one, which gets the new status when ZooKeeper takes it and it is not a change from up to down of a server whose father has at most one server up. |
| Monitor.LastUpLost | monitor/src/monitor_update_thread.cc:34-48 | An update leaves a father without any server up if and only if ZooKeeper takes it, it concerns the last server up, and its status is neither up nor down. |
| Monitor.SomeServerStaysUp | monitor/src/monitor_update_thread.cc:25-49 | In no state of a run of updates to up or down is a father without a server up. |

## Left out

- HashArr.Table.constructor: a table of no slots, which the source refuses to create, is not modelled.
- HashArr.Table.Put: requires a key of at most 65535 bytes (longer ones are never found again, as HashArr.Table.HeadRecognised shows) and fewer than 32767 other keys at its home, the limits of the 16-bit length and count fields.
- HashArr.Table.Put: the contents after a put of a value without bytes are not described, only that the counter no longer matches the slots; HashArrRuns.Do and HashArrRuns.Run leave that put out.
- HashArr.Table.GetData: bytes of a slot beyond its stored size, and the overlay of head and extension data in one union, are not modelled.
- Frame.VerifyIff: requires the four length bytes, which every stored value has; the source reads them without a test.
- WatcherTable.WriteKey: requires what SharedTable.Shm.Set requires, and that no two keys share an identity.
- SharedTable.Shm.Set: requires a value shorter than 2^32 bytes, the width of its length field.
- Md5.Context.Update: requires an input at least 63 bytes shorter than 2^32, so that the index arithmetic of one call does not wrap; so do Md5.DigestOfChunks and Md5.HashMd5.
- Lru.List.RemoveKey: requires a non-empty list, as the only caller ensures; iterators are modelled as cell numbers.
- WatcherSync.NoLostUpdate: for services with two exceptions, in which it is false; WatcherService.ServiceUpdateLost and WatcherService.QuiescentService state them.
- WatcherSync.QuiescentAgrees: services are in WatcherService.QuiescentService.
- WatcherSync.RunInv: assumes that ZooKeeper answers; failed reads and lost sessions are covered by WatcherProvenance only.
- WatcherProvenance.Provenance: does not say that the dump equals the table at rest, because a queued trigger keeps its first value; WatcherHistory.StoredReachesDump says which value arrives.
- WatcherSync.NoLostUpdate: that the value decodes is stated within the widths of the length fields (an idc of 255 bytes, paths, names and lists of 65535, data of 2^32 - 1); beyond them Codec.NodeRoundTrip and Codec.VectorRoundTrip say that it does not. So for WatcherSync.QuiescentAgrees, WatcherService.ServiceInStep, WatcherService.QuiescentService and WatcherProvenance.FetchedGenuine.
- Monitor.LastUpLost: child names contain no slash, as ZooKeeper guarantees.
- Murmur3 is a parameter of the table; so is MD5, whose implementation is proved separately.
- Reads of the shared table by other processes without the mutex, and torn reads.
- The build without mixed verification (a digest behind every value).
- The ZooKeeper client calls themselves: a read sets its watch in the same step, and events arrive as a queue.
- The agent has one ZooKeeper handle, and so one callback thread, for each idc; the model has one callback for all of them.
- Keys of ZooKeeper's root node. A key without an idc or a path, for which no read is made, carries no claim; for a node key without a path, which no client can ask for, the source would ask the dump.
- Reading the chunks of a gray release's notify content, parsing of sequence numbers, rotation of the monitor's checks.
- The dump's file format, attaching shared memory, the message queue, logging, feedback, trigger scripts, the daemon, configuration files, language drivers and the manager.
