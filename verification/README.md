# A verified model of the replicated tree server

The repository is a key-value store. A binary search tree sits behind a queue of asynchronous writes; a primary server
sends every write it has executed on to a backup; ZooKeeper decides which server is which; trees and messages travel as
bytes. This Dafny project models these parts and proves what each one promises, from the relinking of tree nodes up to
what a client can read while two servers and their threads run in any interleaving.

`dafny verify dfyconfig.toml` checks everything.

## The parts

| file | what it holds |
|---|---|
| `CStrings.dfy`, `Sequences.dfy`, `Numbers.dfy` | C strings and `key_compare`, the lexicographic order on unsigned bytes; facts about sequences and digits |
| `SearchTree.dfy`, `TreeShapes.dfy` | search trees as values: their finite map, size, height and traversals, and which shapes put and delete leave behind |
| `HeapTree.dfy` | `tree.c` on the heap: linked nodes, pointers to pointers, successor relinking, cached size and height |
| `Messages.dfy`, `Conversions.dfy` | the messages of `sdmessage.proto`, and `message-private.c` |
| `Wire.dfy`, `Codec.dfy`, `CodecLayout.dfy`, `Buffers.dfy` | the Protocol Buffers encoding of the five message types, its sizes, its bytes written out, and the buffers of `serialization.c` |
| `HostInts.dfy`, `TreeSerialization.dfy` | ints in memory and in network order, and the serialized tree |
| `Framing.dfy`, `Addresses.dfy` | `inet-private.c`: length-prefixed messages over chunked reads and writes, and `parse_address_port` |
| `Delivery.dfy` | what a server replicates, seen as bytes |
| `Tasks.dfy`, `TaskLists.dfy` | the task queue and the results list, as values and as linked lists |
| `ServerMachine.dfy`, `TreeServers.dfy` | one server as a state machine of atomic steps of two threads, and the same steps and runs on the heap |
| `Replication.dfy`, `Answers.dfy`, `Progress.dfy` | two servers and the ordered channel between them; what clients are told; how both run out of work when clients stop |
| `ServerRoles.dfy`, `Roles.dfy`, `RoleServers.dfy` | registration and promotion over ephemeral znodes, as a state machine of any number of processes and as the code of one server among others, which is proved to take only steps of that machine |
| `PollArray.dfy` | the array that `poll` watches, with its compaction loops |

Code that works in place is modelled in place: classes with mutable fields and linked nodes, arrays, and loops with
invariants. Every such method is proved against a function on values, and the properties of the design are proved about
those functions and about runs of them.

## Assumptions

- Memory allocation succeeds, and sizes, lengths, task ids and heights stay within `int`.
- Server and task lists start empty, and a server keeps its role while it replicates (roles and replication are separate
  models). Writes arrive at the backup in the order in which the primary sent them, and only from the primary.
- `exit(1)` is a state in which nothing happens any more. A step between taking and releasing a mutex that no other
  thread can observe is part of one atomic step. The scheduler may interleave the steps of the two threads in any way.
- Every ZooKeeper call is one atomic step; "exists" may answer anything. A process may crash and a session may expire at
  any time; a session that ends takes its ephemeral znodes along. Where a property needs a session to outlive its
  process, the lemma says so.
- `read` and `write` may be interrupted any finite number of times and may transfer any chunk; `accept`, `poll` and the
  request handlers may have any outcome.
- The host is little-endian. `sprintf`, `strtok` and `atoi` behave as the C standard says.

## Where the code differs from its description

- `tree_del` returns 0 for a key that is not in a non-empty tree; `include/tree.h:40` announces -1.
- `buffer_to_tree` does not accept what `tree_to_buffer` makes of the empty tree, a buffer of length 0.
- When the last client has left, `client_sockets_count` stays at 1 and not at 0, so until some client leaves again
  only four clients fit (`PollArray.OnePlaceLost`); `PollArray.RefusedWhenFull` says exactly when a client is refused.
- A client that gets descriptor 0 from `accept` is taken for a failure: it stays connected and in the array, but not
  counted, so `poll` does not look at it (`PollArray.ZeroIsLost`). The exact condition: `poll` looks at every descriptor
  in the array all along a run if and only if in no round `accept` returns 0 while no client leaves
  (`PollArray.WatchedExactly`). If a client leaves in that round or later, compaction brings the new one into sight
  (`PollArray.ZeroIsFound`); if `accept` is called before that, its slot is overwritten without being closed
  (`PollArray.ZeroIsForgotten`). `PollArray.RoundKeeps` covers every round of every run.
- A selected oneof pointer that is NULL is sent as "not set"; `Codec.MessageRoundTrip` says exactly which messages survive.
- The checks `parse_result < -1` and `sockfd < -1` in `replicate_to_backup_server` never see the -1 of a failure. A
  failed connection is noticed only when sending on descriptor -1 fails.
- Two live servers can have the same role (`Roles.SplitBrain` is a run in which two are PRIMARY). The exact condition:
  from a reachable state on, the role stays unique among live servers, in every continuation in which no session expires
  under a live server that claims the role, if and only if every live server that claims it still has its session
  (`Roles.UniqueExactlyWhenSound`). An expiry is harmful if and only if it hits a live server that claims the role
  (`Roles.ExpiryIsHarmful`); all other expiries, also under a live BACKUP as far as PRIMARY is concerned, are harmless.
- Two znodes with one address can also come from a server restarted before its old session has expired
  (`Roles.RestartSharesAddress`); `Roles.SharedAddress` gives the exact condition.

## Model

| member | source | states |
|---|---|---|
| CStrings.KeyCompare | source/entry.c:62-74 | the comparison is 0 exactly for equal keys, NULL included, and otherwise has a sign |
| CStrings.KeyOrderIsLexicographic | source/entry.c:62-74 | the order is the lexicographic one on unsigned bytes, a prefix being lower, with NULL below every string: both directions, by the first difference |
| CStrings.KeyCompareTransitive | source/entry.c:62-74 | the key order is transitive, with NULL as the lowest key |
| CStrings.KeyCompareAntisymmetric | source/entry.c:62-74 | swapping the keys swaps the sign, so any two keys are ordered one way |
| SearchTree.LookupInMap | source/tree.c:125-154 | searching along the path of a key finds exactly what the finite map of the tree holds for it |
| SearchTree.InsertKeepsOrder | source/tree.c:72-120 | put keeps the search order and adds exactly its key to the set of keys |
| SearchTree.LookupAfterInsert | source/tree.c:72-120 | after a put only the search for that key answers differently, in any tree |
| SearchTree.InsertUpdatesMap | source/tree.c:72-120 | put is the update of one key of the finite map |
| SearchTree.JoinKeepsOrder | source/tree.c:160-195 | replacing a node by its successor keeps the order and the keys of both children |
| SearchTree.RemoveKeepsOrder | source/tree.c:160-195 | delete keeps the search order and takes exactly the one key out |
| SearchTree.LookupAfterRemove | source/tree.c:160-221 | after a delete the key is not found and every other search answers as before |
| SearchTree.RemoveShrinksMap | source/tree.c:207-221 | delete removes one key of the finite map and leaves all others |
| TreeShapes.RemovedAtRoot | source/tree.c:160-195 | deleting a node puts its only child in its place, or, with two, keeps the left one and brings the entry with the next higher key up, while all others on the right keep their arrangement |
| TreeShapes.RemovedBelow | source/tree.c:125-138 | deleting a key below a node leaves that node and its other subtree as they are |
| TreeShapes.InsertedBelow | source/tree.c:72-99 | put hangs a leaf or overwrites the entry with the key, and leaves every node it passes and that node's other subtree as they are |
| TreeShapes.HeightIsDeepest | source/tree.c:198-205 | the height is the greatest number of links from the root to a key, and -1 for the empty tree |
| TreeShapes.PreOrderParts | source/serialization.c:95-104 | the listing has the root first, then the left subtree, then the right one |
| SearchTree.SizeCountsKeys | source/tree.c:223-225 | the number of nodes is the number of keys and of entries in the map |
| SearchTree.HeightBoundsSize | source/tree.c:198-205 | height + 1 <= size <= 2^(height+1) - 1 |
| SearchTree.InsertGrowth | source/tree.c:72-99 | the running maximum over insertion depths is the structural height, and the size grows by one exactly for a new key |
| SearchTree.RemoveShrinks | source/tree.c:207-221 | deleting a present key removes one node |
| SearchTree.InOrderAscends | source/tree.c:232-240 | the in-order traversal of a search tree lists every key once, in strictly ascending order |
| SearchTree.PreOrderRebuilds | source/serialization.c:95-158 | putting the pre-order listing of a search tree into an empty tree rebuilds exactly that tree |
| HeapTree.TreeStore.constructor | source/tree.c:22-32 | a new tree is empty, with size 0 and height -1 |
| HeapTree.TreeStore.Put | source/tree.c:101-120 | -1 and no change for a missing key or value; else the linked tree is the old one with the key put, holding copies, with right size and height |
| HeapTree.TreeStore.PutBelow | source/tree.c:72-99 | below an existing root, the entry is replaced or one new node is hung, and size and height stay right |
| HeapTree.TreeStore.WalkTo | source/tree.c:76-98 | the loop of the put ends at the node with the key or at the missing child on the search path, and counts its depth |
| HeapTree.TreeStore.ReplaceAt | source/tree.c:79-83 | overwriting an entry in place changes neither size nor height, and no other node |
| HeapTree.TreeStore.HangAt | source/tree.c:88-93 | hanging a node into the found slot is the insertion, and the height is the maximum of depth and old height |
| HeapTree.TreeStore.FindSlot | source/tree.c:125-138 | the pointer search ends; it gives the slot of the node with the key, or none if the key is absent |
| HeapTree.TreeStore.Get | source/tree.c:140-154 | a fresh copy of the bytes stored under the key, or a fresh empty block |
| HeapTree.TreeStore.Del | source/tree.c:207-221 | -1 only for the empty tree; otherwise the key is removed, and the nodes are the old ones minus the one that had the key |
| HeapTree.TreeStore.RemoveAt | source/tree.c:212-219 | after unlinking, size and recomputed height are right again and exactly one node is gone |
| HeapTree.UnlinkNode | source/tree.c:160-195 | the slot holds the joined children of the removed node, every other node is kept, and nothing outside the subtree changes |
| HeapTree.Replacement | source/tree.c:164-190 | the branches choose nothing, the only child or the successor, and what they choose is the joined children, with every other node kept |
| HeapTree.PromoteSuccessor | source/tree.c:170-190 | with two children the lowest node on the right takes over both children, also when it is the right child itself |
| HeapTree.DetachLowest | source/tree.c:174-184 | the lowest node is taken out through the pointer to it, leaving its right child in its place |
| HeapTree.FindLowest | source/tree.c:175-180 | the loop ends at the slot of the leftmost node of the right subtree |
| HeapTree.ComputeHeight | source/tree.c:198-205 | the recursive computation over the linked nodes gives the height of the tree they form |
| HeapTree.CollectKeys | source/tree.c:232-240 | fills exactly the positions of its subtree with the keys in order and touches no other |
| HeapTree.TreeStore.GetKeys | source/tree.c:242-255 | the array holds the keys in ascending order, then one NULL, in exactly size + 1 slots |
| Conversions.DataToMsg | source/message-private.c:11-24 | NULL for NULL, else a message with a copy of the bytes |
| Conversions.MsgToData | source/message-private.c:41-48 | NULL for NULL, else a fresh block with the bytes of the message |
| Conversions.KeysCount | source/message-private.c:110-116 | the index of the first NULL |
| Conversions.StrArrCopy | source/message-private.c:118-128 | copies the first strings in order |
| Conversions.KeysToMsg | source/message-private.c:130-147 | NULL for NULL, else exactly the strings before the first NULL |
| Conversions.MsgToKeys | source/message-private.c:168-179 | NULL for NULL, else a fresh array of all strings and one NULL |
| Conversions.KeysRoundTrip | source/message-private.c:110-179 | a NULL-terminated array comes back unchanged from its trip through a message |
| Conversions.EntryRoundTrip | source/message-private.c:71-108 | entries and entry messages convert to each other without loss, NULL and empty kept apart |
| Wire.VarintRoundTrip | source/serialization.c:30-36 | Protocol Buffers encoding, "Base 128 Varints": every number is read back, and exactly its bytes are used up |
| Wire.SignedRoundTrip | source/sdmessage.pb-c.c:504-527 | "Signed Integers": ZigZag and 64-bit two's complement return every int32 |
| Wire.RecordsRoundTrip | source/sdmessage.pb-c.c:235-528 | "Length-Delimited Records" and varint records: any sequence of records is read back in order |
| Wire.VarintLength | source/serialization.c:67 | the size table agrees with the bytes written, for every value below 2^35 |
| Wire.BlockLength | source/serialization.c:67 | the computed size of a tagged block agrees with the bytes written |
| Codec.DataUnpacked | source/serialization.c:20-54 | a data message comes back exactly, without bytes or with |
| Codec.EntryUnpacked | source/serialization.c:56-90 | an entry message comes back exactly: NULL key and empty key, NULL value and empty value stay apart |
| Codec.KeysUnpacked | source/sdmessage.pb-c.c:362-375 | repeated keys come back in order, empty ones included |
| Codec.MessageUnpacked | source/serialization.c:160-196 | every message with its content present comes back exactly; a selected NULL pointer comes back as "not set" |
| Codec.MessageRoundTrip | source/serialization.c:160-196 | a message survives if and only if its selected pointer is not NULL |
| Codec.UnpackedIsPresent | source/serialization.c:182-196 | no message that comes out of bytes selects a NULL pointer |
| Codec.EntryFits | source/serialization.c:67-73 | the packed size of an entry is the number of bytes written, so the buffer is filled exactly |
| Codec.MessageFits | source/serialization.c:170-176 | the packed size of a message is the number of bytes written, negative and zero numbers included |
| Codec.KnownSizes | tests-private/test_all-private.c:781-887 | the sizes 27, 18, 9, 11 and 0 of the serialization tests |
| CodecLayout.VarintByte | source/serialization.c:30-36 | "Base 128 Varints" by value: byte i holds the i-th digit to the base 128, with the top bit set in all bytes but the last |
| CodecLayout.VarintDigits | source/serialization.c:30-36 | a varint has as many bytes as the number has such digits, and at least one |
| CodecLayout.DataBytes | source/sdmessage.pb-c.c:235-250 | 0A, length and bytes; nothing if there are none |
| CodecLayout.StringBytes | source/sdmessage.pb-c.c:273-288 | 0A, length and characters; nothing if there are none |
| CodecLayout.EntryMessageBytes | source/sdmessage.pb-c.c:311-338 | 0A with the key and 12 with the value, each left out exactly if it is NULL |
| CodecLayout.KeysBytes | source/sdmessage.pb-c.c:362-377 | 0A, length and characters for every key in order |
| CodecLayout.OpCodeBytes | source/sdmessage.pb-c.c:444-455 | 08 and the plain or 64-bit two's complement number; nothing for 0 |
| CodecLayout.ContentBytes | source/sdmessage.pb-c.c:456-527 | the tag bytes of every content case, 52, A2 01, F2 01, C2 02, 90 03 and E0 03, with lengths and bytes, or with 2v or -2v - 1 for a number v |
| CodecLayout.MessageBytes | source/serialization.c:160-180 | the op code comes first, then the content |
| CodecLayout.TreeEntryBytes | source/serialization.c:56-78 | the bytes of an entry of the tree, from its key and value themselves |
| CodecLayout.KnownBytes | source/sdmessage.pb-c.c:442-528 | the bytes of a get of the key "a" and of a size request, and what the former are read as |
| Buffers.DataToBuffer | source/serialization.c:20-42 | -1 for NULL; else exactly the packed bytes, which unpack to the same data |
| Buffers.BufferToData | source/serialization.c:44-54 | NULL for no buffer, a negative size or unreadable bytes; else the data in a block of its own |
| Buffers.EntryToBuffer | source/serialization.c:56-78 | -1 for NULL; else exactly the bytes of the entry, from which the same entry can be read |
| Buffers.BufferToEntry | source/serialization.c:80-90 | NULL for no buffer or a negative size; else the entry that the bytes hold |
| Buffers.EntryReturns | source/serialization.c:56-90 | decoding an encoded entry returns it exactly |
| Buffers.MessageToBuffer | source/serialization.c:160-180 | -1 without a message; else exactly the packed bytes |
| Buffers.BufferToMessage | source/serialization.c:182-196 | NULL for no buffer or a negative size; else a handle, whose message is NULL for unreadable bytes |
| HostInts.FromToMemory | source/serialization.c:128 | an int read back from its four bytes is the same int |
| HostInts.MemoryBytes | source/serialization.c:128 | the four bytes by value, the lowest one first |
| HostInts.NetworkValue | source/inet-private.c:126 | what ntohl makes of four bytes by value, the highest one first, as a signed number |
| HostInts.NetworkOrder | source/inet-private.c:126-186 | htonl puts the highest byte first, and ntohl undoes it |
| TreeSerialization.CollectEntryBufs | source/serialization.c:95-104 | fills exactly the positions of its subtree with the encoded entries in pre-order and their lengths |
| TreeSerialization.TotalLength | source/serialization.c:115-119 | the sum over the lengths is the number of bytes of the whole tree |
| TreeSerialization.Concatenate | source/serialization.c:121-133 | the copying loop fills the allocated buffer exactly with every length and its entry |
| TreeSerialization.TreeToBuffer | source/serialization.c:106-137 | -1 for NULL; else the length-prefixed entries in pre-order, 0 bytes for the empty tree |
| TreeSerialization.BufferToTree | source/serialization.c:139-158 | NULL for no buffer or no bytes; else a fresh tree with all entries of the buffer put in order |
| TreeSerialization.PutNext | source/serialization.c:147-156 | one round of the loop puts the next entry and moves on to the entry behind it |
| TreeSerialization.PutEntry | source/serialization.c:152 | entries without key or value are passed over, the others are put |
| TreeSerialization.TreeBytesForm | source/serialization.c:121-133 | for every entry four length bytes by value, the lowest one first, and then the entry |
| TreeSerialization.PutAllForm | source/serialization.c:147-156 | decoding puts one entry after the other, and passes over those without key or value |
| TreeSerialization.SplitJoined | source/serialization.c:121-156 | blocks with their length in front are taken apart again exactly |
| TreeSerialization.TreeRoundTrip | source/serialization.c:95-158 | decoding the bytes of any search tree gives the very same tree, so also its size and height |
| TreeSerialization.SameBytesSameTree | source/serialization.c:106-137 | different search trees never have the same bytes |
| TreeSerialization.EmptyTreeHasNoBytes | source/serialization.c:106-142 | the encoding is empty for the empty tree and only for it |
| TreeSerialization.Reload | tests-private/test_all-private.c:901-915 | encoding a linked tree and decoding the buffer gives a tree of the same shape, size and height, or NULL for the empty tree |
| Framing.Socket.ReadBuffer | source/inet-private.c:90-119 | for every chunking and finitely many interrupts, exactly the next bytes of the stream, none skipped or read twice; without other errors it fails only when the stream is too short |
| Framing.Socket.SendBuffer | source/inet-private.c:156-173 | 0 exactly when the whole buffer went out, once and in order; on -1 a proper prefix of it |
| Framing.Socket.SendMessage | source/inet-private.c:175-198 | 0 exactly when the whole frame went out; -1 without a message, with nothing sent; on other failures a part of the frame |
| Framing.Socket.ReceiveMessage | source/inet-private.c:121-150 | the message at the front of the stream, using up exactly its frame; without other errors NULL only if no complete message comes |
| Framing.FrameBytes | source/inet-private.c:175-198 | a frame is the packed length in four bytes by value, the highest one first, and then the packed message |
| Framing.NextMessageReads | source/inet-private.c:121-150 | what the receiver makes of any bytes: a length that is not negative, and that many bytes, or no message |
| Framing.FrameReceived | source/inet-private.c:121-198 | a sent frame is received as its message and leaves the rest of the stream |
| Framing.PartOfFrame | source/inet-private.c:121-150 | no proper part of a frame is taken for a message |
| Framing.CutStream | source/inet-private.c:90-198 | wherever a stream of messages is cut off, exactly the messages with complete frames arrive, in order |
| Framing.StreamReceived | source/inet-private.c:90-198 | any sequence of messages is received as the same sequence |
| Framing.ReceiveAll | source/server/network_server.c:114-129 | receiving until the first failure gives a prefix of the messages in the stream, all of them without errors |
| Framing.Converse | source/inet-private.c:90-198 | for all chunkings and interrupts on both sides, what arrives are the first of the messages sent, and all if no call fails |
| Addresses.DecimalDigit | source/zk-private.c:127 | the characters of a printed port by value |
| Addresses.DecimalLength | source/zk-private.c:127 | as many characters as digits, and at least one |
| Addresses.Registered | source/zk-private.c:127 | the registered string is the address, a colon and the port |
| Addresses.MissingPort | source/inet-private.c:36-51 | NULL and strings without a port are refused |
| Addresses.AtoiDecimal | source/inet-private.c:52 | a number printed with %d is read back by atoi |
| Addresses.AddressRoundTrip | source/inet-private.c:36-61 | a registered "<ip>:<port>" is taken apart into its address and its port exactly when the port is not 0, and refused when it is |
| Delivery.ReplicatedWriteArrives | source/server/tree_skel.c:120-147 | on the connection that is opened for one write, the peer receives exactly this write if its whole frame goes out, and nothing if sending fails part of the way |
| Delivery.ForwardedIsAccepted | source/server/tree_skel.c:103-174 | what a server sends on are writes that it has accepted |
| Tasks.CompleteIds | source/server/tasks-private.c:97-217 | queue and results together hold exactly the ids 0 to the last one assigned, each in one place |
| Tasks.AddKeepsNumbering | source/server/tasks-private.c:121-155 | adding a task assigns the next id and keeps the queue ascending and without gaps |
| Tasks.SetResultKeepsNumbering | source/server/tasks-private.c:178-217 | an accepted result moves one id from queue to results and keeps both numbered; a refused one changes nothing |
| Tasks.ResultOfAt | source/server/tasks-private.c:219-235 | in the descending list an id is found at its position from the end, or not at all |
| Tasks.ResultIsFinal | source/server/tasks-private.c:178-235 | once a result is known, recording others never changes it |
| TaskLists.TaskBoard.CreateTask | source/server/tasks-private.c:85-99 | the task has the next id and a copy of the request, and is not queued yet |
| TaskLists.TaskBoard.LastNode | source/server/tasks-private.c:145-148 | the walk along the links ends at the last node of the queue |
| TaskLists.TaskBoard.Append | source/server/tasks-private.c:131-154 | the task is behind all others, which stay as they are |
| TaskLists.TaskBoard.GetNext | source/server/tasks-private.c:157-169 | the head of the queue, still allocated and still in the queue |
| TaskLists.TaskBoard.SetResult | source/server/tasks-private.c:178-217 | only the head gets a result, and only a real one: it leaves the queue, is freed, and its result is the latest; otherwise -1 and no change |
| TaskLists.TaskBoard.GetResult | source/server/tasks-private.c:219-235 | the scan that stops early agrees with a search of the whole list |
| ServerMachine.ReplayIsMap | source/server/tree_skel.c:150-174 | any history of writes that does not fail leaves a search tree that stands for the replayed finite map |
| ServerMachine.StepKeepsInv | source/server/tree_skel.c:81-211 | every step of either thread keeps lock discipline, numbering, history and tree in agreement |
| ServerMachine.RunInv | source/server/tree_skel.c:81-258 | in every interleaving of the two threads the agreement holds |
| ServerMachine.FreeLockTree | source/server/tree_skel.c:67-211 | whenever the lock is free, the tree is the replay, in id order, of exactly the writes with a result, and these followed by the queue are all accepted writes, the i-th under id i |
| ServerMachine.ResultMeansExecuted | source/server/tree_skel.c:74-79 | verify says 1 exactly for ids whose write has been executed, and 0 for all others |
| ServerMachine.ExitCauses | source/server/tree_skel.c:150-174 | a server exits exactly on a delete from an empty tree, a put without entry, key or value, or, unless it is a backup, a failed replication |
| ServerMachine.NothingIsRefused | source/server/tree_skel.c:195-207 | no queued task reaches the branch that reports FAILED |
| ServerMachine.RunGrows | source/server/tasks-private.c:121-217 | along a run no accepted write is lost, and the later list of results ends with the earlier one |
| ServerMachine.VerifyIsStable | source/server/tree_skel.c:74-79 | what verify has reported once for an id, it reports ever after |
| TreeServers.ExecuteOn | source/server/tree_skel.c:150-168 | the tree operation of a write on the linked tree fails or changes the tree exactly as the machine says |
| TreeServers.TreeServer.constructor | source/server/tree_skel.c:215-229 | a new server is in the start state |
| TreeServers.TreeServer.ReceiveRequest | source/server/tree_skel.c:231-240 | taking a request is that step of the machine |
| TreeServers.TreeServer.LockForHandler | source/server/tree_skel.c:82 | the main thread takes the free lock |
| TreeServers.TreeServer.Query | source/server/tree_skel.c:27-79 | the handlers, on the linked tree and lists, give the machine's response to every query and to requests that cannot be handled |
| TreeServers.TreeServer.AnswerQuery | source/server/tree_skel.c:81-99 | answering changes nothing but the response |
| TreeServers.TreeServer.AssignTaskId | source/server/tree_skel.c:67-72 | the first half of adding a task: the id |
| TreeServers.TreeServer.AppendTask | source/server/tree_skel.c:67-72 | the second half: the task is queued and the client gets its id |
| TreeServers.TreeServer.SendReply | source/server/tree_skel.c:98-257 | the lock is released and the response goes out |
| TreeServers.TreeServer.PeekTask | source/server/tree_skel.c:183-190 | the worker holds the head of the queue, which is not freed |
| TreeServers.TreeServer.LockForWorker | source/server/tree_skel.c:192 | the worker takes the free lock |
| TreeServers.TreeServer.ApplyTask | source/server/tree_skel.c:150-168 | the write is applied to the linked tree, or the server exits |
| TreeServers.TreeServer.RefuseTask | source/server/tree_skel.c:203-207 | the branch for other tasks judges FAILED |
| TreeServers.AddressOf | source/server/tree_skel.c:108-118 | the string under which a server is registered gives its address and port |
| TreeServers.TreeServer.ReplicateTask | source/server/tree_skel.c:103-174 | a backup sends nothing; another server contacts exactly the registered backup, succeeds exactly if it is registered, connects and takes the message, and exits otherwise |
| TreeServers.TreeServer.RecordResult | source/server/tree_skel.c:159-173 | the result is set and the task is freed |
| TreeServers.TreeServer.UnlockByWorker | source/server/tree_skel.c:209 | the worker releases the lock and starts over |
| TreeServers.RunServer | source/server/tree_skel.c:81-258 | every run of both threads on the linked tree and lists, with every way for a replication to succeed or fail, is the same run of the machine, so whenever the lock is free the linked tree is the replay of exactly the writes with a result |
| Replication.AlwaysInStep | source/server/tree_skel.c:103-174 | in every reachable state the replicated writes equal, in order, the backup's executed writes, its queue, the one in its hands and the channel |
| Replication.BackupCannotFail | source/server/tree_skel.c:150-174 | a replicated write meets at the backup the tree that it met at the primary, so it cannot fail there |
| Replication.BackupNeverExits | source/server/tree_skel.c:150-174 | the backup never exits while it processes replicated writes |
| Replication.DeliveryIsPossible | source/server/tree_skel.c:231-258 | a replicated write waits for nothing but the backup's main thread |
| Replication.TreesConverge | source/server/tree_skel.c:103-174 | once everything sent has been delivered and both queues are empty, both servers have accepted the same writes and hold the same tree |
| Replication.SameIdSameWrite | source/client/network_client.c:45-56 | every id known to the backup names there, queued or executed, the write that the primary accepted under that id |
| Replication.WriteGetsItsId | source/server/tree_skel.c:67-72 | the id in the primary's response is the position of that client's write among all accepted writes |
| Replication.OwnWriteIsRead | source/client/network_client.c:45-56 | once verify of the id that a client got has answered 1 at the backup, every later answer is one for a tree that reflects that very write |
| Replication.AfterGrows | source/server/tasks-private.c:178-217 | along a run, on both servers, no accepted write is lost and the later list of results ends with the earlier one |
| Replication.PrimaryPassedThrough | source/server/tree_skel.c:176-211 | for every number of writes it has executed, the primary once had the tree after exactly these |
| Replication.BackupAnswers | source/server/tree_skel.c:27-99 | every answer of the backup is the answer for a tree that the primary had after j writes, j being what the backup has executed |
| Replication.ReadsAreMonotone | source/client/network_client.c:45-56 | later reads never go back to fewer writes |
| Replication.ReadsFollowVerify | source/client/network_client.c:45-56 | after verify has answered 1, every later read reflects that write |
| Answers.WritesUpdateMap | source/server/tree_skel.c:150-174 | op 40 updates one key of the map and op 20 removes one |
| Answers.WritesExecute | source/server/tree_skel.c:150-168 | op 20 deletes and op 40 puts; the server exits for an empty tree, or a missing entry, key or value |
| Answers.WritesAre | source/server/tree_skel.c:87-92 | only op 20 with a key and op 40 with an entry are queued |
| Answers.ServerAnswers | source/server/tree_skel.c:27-99 | every answer in terms of the map that the executed writes leave: op 11 with the number of keys, 31 with the value or no bytes, 51 with all keys ascending, 61 with the height, 71 with 1 or 0, and 99 with -1 for anything else |
| Answers.WriteAnswers | source/server/tree_skel.c:67-72 | a write is answered with op 21 or 41 and the id under which it was accepted |
| Answers.BackupAnswersRightly | source/client/network_client.c:45-56 | every answer of the backup is the right one for the first j writes that the primary accepted |
| Answers.OwnPutIsRead | source/client/network_client.c:45-56 | after verify of a client's own put has answered 1, the backup answers a get of the key with that value, as long as no later write to the key has been executed |
| Progress.NeverStuck | source/server/tree_skel.c:81-211 | a server that has not exited can take a step unless nothing is in hand and nothing queued; the threads never wait for each other for good |
| Progress.StepsUseUpWork | source/server/tree_skel.c:81-211 | every step but the arrival of a request leaves less work |
| Progress.SystemNeverStuck | source/server/tree_skel.c:81-211 | in every reachable state of both servers something can happen without a new request, unless everything is delivered and done |
| Progress.SilentRunsEnd | source/server/tree_skel.c:81-211 | when clients stop sending, both servers run out of work after a bounded number of steps, in every interleaving |
| Progress.Settle | source/server/tree_skel.c:103-211 | from every reachable state in which the primary has not exited, both servers can settle without new requests, and then hold the same tree, the replay of all accepted writes, unless one of these fails |
| Roles.StepKeepsInv | source/zk-private.c:114-221 | every step of any process, crash or expiry keeps: owning a znode goes with claiming its role, under the own address |
| Roles.OthersKeepNodes | source/zk-private.c:201-218 | a step of one server neither gives nor takes a znode of another |
| Roles.AlwaysInv | source/zk-private.c:114-221 | that holds in every reachable state of any number of servers, whatever "exists" answers |
| Roles.PrimaryOwnsItsNode | source/zk-private.c:130-135 | a PRIMARY owns the primary znode, with its own address, exactly as long as its session is open |
| Roles.RolesAreUnique | source/zk-private.c:128-149 | no two servers with open sessions have the same role |
| Roles.LiveRolesAreUnique | source/server/tree_server.c:42-75 | in every run in which no session expires under a live server that claims the role, at most one live server is PRIMARY, and likewise BACKUP |
| Roles.UniqueExactlyWhenSound | source/zk-private.c:114-221 | from a reachable state on, every such continuation keeps the role unique if and only if each live claimer has its session |
| Roles.SoundStep | source/zk-private.c:114-221 | a step keeps that condition if and only if it is not the expiry of a live claimer's session |
| Roles.ExpiryIsHarmful | source/zk-private.c:114-221 | after an expiry, a continuation with two live holders of the role exists if and only if the session was that of a live claimer |
| Roles.LastingSessionsAreQuiet | source/zk-private.c:114-221 | sessions that end only after their processes never do that harm |
| Roles.LiveHasSession | source/zk-private.c:201-218 | if sessions end only after their processes, every live process has an open session |
| Roles.SharedOwnerIsPromoting | source/zk-private.c:201-218 | both znodes have one owner exactly while that owner is between creating the primary and deleting its backup znode |
| Roles.SharedAddress | source/zk-private.c:188-218 | both znodes hold one address exactly then, or when two sessions were opened under one address |
| Roles.DeleteFindsOwnNode | source/zk-private.c:215-218 | the delete that ends a promotion finds the server's own znode |
| Roles.RestartSharesAddress | source/zk-private.c:128-149 | a run in which a restarted server shares its address with its old znode |
| Roles.SplitBrain | source/zk-private.c:188-221 | a run with an expired session and two live PRIMARY processes |
| Roles.OthersKeepMine | source/zk-private.c:114-221 | any number of steps of any other servers leave a server's znodes alone and give it no new ones |
| RoleServers.Registry.OthersRun | source/zk-private.c:114-221 | whatever others do, and if the own session expires, the whole stays a run of the cluster in which this server has not moved |
| RoleServers.StepFromOutside | source/zk-private.c:114-221 | a step of another server does not depend on where this one is, and leaves it there |
| RoleServers.Registry.CreatePrimary | source/zk-private.c:205 | one step of the cluster: it succeeds only with an open session and where nothing is |
| RoleServers.Registry.CreateBackup | source/zk-private.c:140-141 | the same for the backup znode |
| RoleServers.Registry.GetBackup | source/zk-private.c:194-203 | one step of the cluster: the address in the backup znode, or a failure without session or znode |
| RoleServers.Registry.DeleteBackup | source/zk-private.c:215-218 | one step of the cluster: with an open session it deletes the server's own znode, never that of another |
| RoleServers.RoleServer.Register | source/zk-private.c:114-157 | with others at work and possible expiry between all calls, the code's effect is that of a run of the cluster; 0 exactly if a role was taken, and while its session is open the server owns exactly the znode of its role; undisturbed, it takes the first role whose znode is reported and found missing |
| RoleServers.RoleServer.UpdateServerRoles | source/zk-private.c:188-221 | likewise a run of the cluster; the server ends as PRIMARY or stays BACKUP, with its znodes in order; undisturbed, it is promoted exactly if the primary znode is reported and found missing and the backup znode is reported |
| RoleServers.RoleServer.OnServersChange | source/server/tree_server.c:42-46 | likewise a run of the cluster; only a backup changes its role, and only to PRIMARY |
| PollArray.PartitionKeeps | source/server/network_server.c:147-172 | live and dead slots together are all slots, none lost or duplicated |
| PollArray.Poller.Compact | source/server/network_server.c:151-171 | the rotation loops are a stable partition in place, and the new count is max(1, n) |
| PollArray.Poller.Rotate | source/server/network_server.c:163-167 | one slot goes to the end of the connected part, those behind it move up by one |
| PollArray.Poller.LastConnected | source/server/network_server.c:151-157 | the last slot that is not closed, or the last slot of all |
| PollArray.Poller.HandleListeningSocketEvents | source/server/network_server.c:92-109 | accepts only when asked and while fewer than five are counted; a failed accept leaves its result in the slot but is not counted |
| PollArray.Poller.HandleClientSocketsEvents | source/server/network_server.c:131-172 | closes exactly the polled clients whose handler fails, and compacts exactly if there are any |
| PollArray.Poller.MainLoop | source/server/network_server.c:174-204 | any number of rounds on the array is the same rounds on its value |
| PollArray.CompactedClients | source/server/network_server.c:147-172 | compaction permutes the slots, live clients keep their order and occupy slots 1 to n |
| PollArray.ClientsInPlace | source/server/network_server.c:92-172 | clients sit one behind the other; poll looks at all of them or at all but a last one with descriptor 0, and the count is one too high for those it looks at exactly when the first slot is vacant |
| PollArray.AcceptKeeps | source/server/network_server.c:92-109 | a new client comes last, and whatever was behind the counted slots is overwritten; afterwards poll looks at every descriptor exactly if accept did not return 0 |
| PollArray.HandleKeeps | source/server/network_server.c:131-172 | exactly the failing clients go, the others keep their order; if any goes, the new count is max(1, n) and poll looks at all |
| PollArray.RoundKeeps | source/server/network_server.c:174-204 | every round keeps the form of the array and changes the list of clients in order of acceptance by dropping the forgotten and the failing ones and appending the new one; it says exactly when poll looks at all clients afterwards |
| PollArray.WatchedStep | source/server/network_server.c:92-172 | poll goes on looking at every descriptor in the array if and only if not this happens: accept returns 0 and no client leaves in that round |
| PollArray.AlwaysKept | source/server/network_server.c:174-204 | in every run, whatever poll, accept and the handlers do, the array has its form and the count is at most 5 |
| PollArray.WatchedExactly | source/server/network_server.c:92-204 | poll looks at every descriptor in the array all along a run if and only if in no round accept returns 0 while no client leaves |
| PollArray.AlwaysPollsPositive | source/server/network_server.c:92-204 | in every run, whatever accept returns, poll looks at every positive descriptor |
| PollArray.ZeroIsLost | source/server/network_server.c:99-106 | a run in which a client with descriptor 0 is connected but not looked at |
| PollArray.ZeroIsForgotten | source/server/network_server.c:94-99 | a run in which the next call of accept overwrites its slot |
| PollArray.ZeroIsFound | source/server/network_server.c:147-172 | a run in which another client leaves in the same round, so that poll looks at it |
| PollArray.RefusedWhenFull | source/server/network_server.c:92-97 | a client is refused exactly if poll looks at every client and five are connected, or four while the first slot is vacant |
| PollArray.VacantSlotStays | source/server/network_server.c:147-172 | a vacant first slot stays until some client leaves, and that long at most four clients are connected |
| PollArray.OnePlaceLost | source/server/network_server.c:92-172 | a run after which a fifth client is refused while four are connected |

## Left out

- Codec.Unpack: bytes that the encoder cannot produce are not decoded as the library does (unknown fields, 32- and 64-bit wire types, nested messages given in several parts, varints of more than ten bytes).
- TreeSerialization.BufferToTree: asks for bytes that consist of readable entries; on others the code reads outside the buffer or uses a NULL entry.
- TreeSerialization.PutNext: asks the same of the rest of the buffer.
- Buffers.BufferToEntry: asks for a size within the buffer, as the code does tacitly.
- HeapTree.TreeStore.Put: asks for well-formed values; `data_t` with a negative size, or with a size but no data, is not modelled, and zero-length data is the empty byte sequence.
- HeapTree.TreeStore.Get: a NULL tree is not an object here, so the -1 and NULL results of the functions of `tree.c` for a NULL tree do not occur.
- Addresses.AtoiDecimal: digits that make up a number beyond `int` are read as that number.
- TreeServers.TreeServer.ReplicateTask: asks that the backup is registered under an address that servers register, which always parses; for any other string the code would go on with variables that were never set.
- `Message_dup` and the other deep copies: messages are values here, so a copy is the message itself; only blocks of bytes are copied on the heap.
- In `_collect_entry_bufs` the array of buffers holds their contents, not their addresses.
- Allocation failures, leaks, double frees and the size of the handle that `buffer_to_message` allocates.
- Shutdown: `tasks_destroy`, `tree_skel_destroy`, the `destroyed` flag and signals.
- The calls of the operating system, of the ZooKeeper library and of pthreads themselves: they are atomic steps or inputs.
- Promotion during replication and backups that join late: the code has no way to catch up.
- The console client, the client stubs and logging: they only build requests and show results.
