# Key negotiation: a verified model

A client and a server agree on two symmetric keys over TCP. The server keeps each key in a database
row and in a table in shared memory; a client can later check or revoke its key. This project models
the six parts of the two programs that carry state, interleaving or a real encoding, and proves what
each promises and what they promise together.

| files | part |
|---|---|
| `Bytes`, `Wire`, `WireIO`, `Message`, `TransitData`, `Octets` | the generated Protocol Buffers code of the two messages, and their octets |
| `ThreadPool`, `ThreadPoolRuns`, `ThreadPoolLiveness`, `ThreadPoolStranding`, `ThreadPoolShutdown`, `ThreadPoolCode` | the thread pool |
| `Dispatch`, `DispatchCode` | the event loop, its one-shot registrations and its tasks |
| `Framing` | length-prefixed messages over a socket, server and client |
| `SlotTable`, `ResourcePool` | the shared-memory table; the HMAC and connection pools |
| `SqlText`, `KeyServer`, `KeyServerCode`, `KeyCache`, `Revocation`, `ServerRuns` | text in the database, the four handlers, their objects, the cache and revocation |
| `Client`, `ClientCode`, `Codec` | the client's half and the messages as octets |
| `Agreement`, `AgreementRuns`, `AgreementAlone`, `AgreementIds`, `AgreementUse` | key agreement end to end, over octets in flight |

How to read it. Each concurrent part is a function `Next(state, event)` in which one event is one
critical section (or one access to shared state), and a run is a list of events; an event that is not
enabled changes nothing, so "for every list of events" is "in every interleaving". What the outside
decides is in the events: which sleeper a signal wakes, what a read returns, whether a query works.
Code that works by changing an object step by step is a class whose methods are proved against the
functions of these machines, and against statements over their own fields that use none of those functions;
the theorems are then proved about the functions.

RSA decryption, SHA-256, HMAC and what the database makes of quoted text are functions of their inputs
(`Env`). Encryption is randomised: a request carries whatever cipher text it gave (`IsCipher`). The key has
1024 bits and PKCS #1 padding (server/src/include/RsaCrypto.h:27, server/src/RsaCrypto.cpp:69-70), so it
carries at most 117 octets, and encrypting a longer text gives nothing. Where a result needs it, `GoodCrypto`
says that nothing decrypts to more than that, that no cipher text at all decrypts to nothing, and that codes
are hex digits; `GoodStore` says that the database keeps text without quotes and backslashes and
lengthens none. `GoodEnvExists` shows that both can be met, with a cipher text for every short text, and
`DatabaseIsGood` that the literal rules of MySQL meet the second. Nonces and premasters are arbitrary.

Tasks of one connection never run at once (`Dispatch.OneTaskPerConnection`), which is why a handler in
`KeyServer` is a job of its descriptor; and the messages in flight in `Agreement` arrive whole, which is
`Framing.ReceivesAll` and `Framing.ServerReceivesAllIffOnBoundaries`.

## What the code does not keep

Eight promises do not hold of the code on every input, schedule, failure or configuration. Each is stated
with the exact condition under which it does hold, and with a run or an input that breaks it otherwise.

- Revocation is permanent exactly when handlers are serial, no commit of an update is lost, and a revoked
  state does not read as true. `querySecKey` assigns a `char*` to a `bool` (server/src/MySQLOP.cpp:125), so
  every state reads as true, although server/src/ServerOperation.cpp:360-363 means to reject a revoked key; and
  `updataKeyState` does not look at what its commit returns (server/src/MySQLOP.cpp:69-71)
  (`Revocation.PermanentExactlyWhen`, `Revocation.AsWrittenRevocationFails`, `Revocation.LostUpdateRevokesTwice`).
- Every slot that says a key is valid has a live row, and none is of a revoked key, exactly when, in addition,
  no commit of an insertion is lost, each key ID is presented with the pair of names it was issued to, and the
  table can be attached while a key is revoked: a failure to attach it is taken for a missing node
  (server/src/SecKeyShm.cpp:121-125, server/src/ServerOperation.cpp:485-492)
  (`Revocation.TableHonestExactlyWhen`).
- A key ID that was handed out, and the slot with it, have a row exactly when the commit of the insertion was
  not lost: `writeSecKey` does not look at it (server/src/MySQLOP.cpp:90-108), and the ID is given all the same
  (`KeyCache.CacheAgreesWithStore`, `AgreementRuns.ClientAndServerAgree`, `Revocation.LostInsertionIsValid`).
- A client that has agreed can have its key checked exactly when, besides, both keys together have at most 117
  octets: longer ones cannot be encrypted (`Client.HolderIsAdmitted`, `Client.LongKeysAreRefused`,
  `AgreementUse.AgreedClientPassesExactlyWhen`). Nonces and premasters of eight characters give forty.
- The slot of an issued key, and the client, hold the keys of the database row exactly when both keys have no
  quote, and no backslash except before a percent sign or an underscore: the statement puts them between quotes
  and escapes nothing (server/src/MySQLOP.cpp:77-81) (`SqlText.StoredAsItIsExactlyWhen`,
  `KeyCache.IssuedSlotAgreesExactlyWhen`, `KeyCache.BackslashSeparates`). The statement stays an insertion
  exactly when each text can be cut into single octets, doubled quotes and backslash pairs
  (`KeyCache.StorableExactlyWhen`). Keys derived from nonces and premasters without quotes and backslashes are
  safe (`AgreementRuns.DerivedIsUnchanged`), as are those that this client and this server draw
  (client/src/ClientOperation.cpp:395-425).
- A queued task always has a worker that is awake exactly when the admin cannot start threads
  (`ThreadPoolStranding.WakeUpsAreKeptExactlyWhen`).
- The server receives what was sent exactly when EAGAIN falls on frame boundaries: `readn` forgets what it has
  read (server/src/TcpSocket.cpp:470-474) (`Framing.ServerReceivesAllIffOnBoundaries`).
- A read of the table finds what was written, except for the pair of two empty names, which matches an unused
  slot (`SlotTable.ReadRefines`).

Two of these conditions are met by the server as it is built. Its pool is `thread_pool(1, 20, 10000, false)`
(server/src/ServerOperation.cpp:27): static, so no wake-up is lost, and with one thread, so its tasks are
executed one at a time in the order in which they came, and serving them is a serial run of the handlers
(`ServerRuns.ServerIsSerial`). For a permanent revocation this server lacks two things: the decoding of the
state, and a look at what the commit returns (`ServerRuns.ServerRevocationIsPermanent`).

Comments in the code that it does not follow: a query that finds no row does not return at
server/src/MySQLOP.cpp:117 but goes on and leaves the caller's default; the admin bounds the number of
threads by the queue's capacity (server/src/thread_pool.cpp:219), and it is the scan of the thread array that
keeps it within the maximum.

## Model

| member | source | states |
|---|---|---|
| `Wire.RecordRoundTrip` | server/test/transit_data.pb.cc:1114-1169 | a record of any wire type, groups included, is read back from its encoding, whatever follows it |
| `Wire.ReadAllAppend` | server/test/transit_data.pb.cc:1025-1098 | the records of a concatenation are the records of its parts, also for encodings the writer would not choose |
| `Wire.VarintHasNoZero` | server/test/transit_data.pb.cc:1556-1604 | the varint of a positive number has no zero octet |
| `Message.ConcatenationIsMerge` | server/test/transit_data.pb.cc:1235-1265 | parsing serialize(a) + serialize(b) gives exactly the merge of a and b, unknown fields and negative integers included |
| `Message.RoundTrip` | server/test/transit_data.pb.cc:1023-1169 | parse(serialize(a)) = a for every message |
| `Message.SerializeIsInjective` | server/test/transit_data.pb.cc:1114-1169 | different messages have different serializations |
| `Message.ParseRefinesReading` | server/test/transit_data.pb.cc:1025-1105 | on well-formed records the loop gives m if and only if each field of m is its last record of the right wire type, or its default, and the other records are kept in order |
| `Message.OrderAcrossFieldsIsIrrelevant` | server/test/transit_data.pb.cc:1025-1105 | reordering records that keeps the order within each known field and among unknown records does not change the message |
| `Message.DisjointPartsCommute` | server/test/transit_data.pb.cc:1466-1547 | two well-formed parts that share no field may be swapped |
| `Message.ParsedIsValid` | server/test/transit_data.pb.cc:1023-1105 | whatever octets were parsed, the message can be serialized again |
| `TransitData.SizeIsSum` | server/test/transit_data.pb.cc:1171-1226 | the length of a serialization is the sum of field sizes, in whatever order they are added, with ten octets for a negative integer |
| `TransitData.RequestMsg.InternalParse` | server/test/transit_data.pb.cc:1023-1105 | the tag-dispatch loop fails exactly on ill-formed octets, and otherwise applies their records to what the message holds |
| `TransitData.RequestMsg.ParseFromString` | server/src/RequestCodec.cpp:38-53 | parsing replaces the message by the one that the octets stand for |
| `TransitData.RequestMsg.InternalSerialize` | server/test/transit_data.pb.cc:1114-1169 | writes the serialization at its position of the output and leaves what comes before |
| `TransitData.RequestMsg.ByteSizeLong` | server/test/transit_data.pb.cc:1171-1226 | equals the length of the serialization |
| `TransitData.RequestMsg.MergeFrom` | server/test/transit_data.pb.cc:1235-1265 | the message becomes the merge; the other is unchanged |
| `TransitData.RequestMsg.CopyFrom` | server/test/transit_data.pb.cc:1267-1272 | the message becomes a copy, also of itself |
| `TransitData.RespondMsg.InternalParse` | server/test/transit_data.pb.cc:1464-1547 | as for requests |
| `TransitData.RespondMsg.InternalSerialize` | server/test/transit_data.pb.cc:1556-1612 | as for requests |
| `TransitData.RespondMsg.ByteSizeLong` | server/test/transit_data.pb.cc:1614-1670 | equals the length of the serialization |
| `TransitData.RespondMsg.MergeFrom` | server/test/transit_data.pb.cc:1679-1709 | the message becomes the merge |
| `TransitData.RespondMsg.CopyFrom` | server/test/transit_data.pb.cc:1711-1716 | the message becomes a copy |
| `ThreadPoolRuns.CountersAreExact` | server/src/thread_pool.cpp:144-192 | in every run, live and busy are the numbers of such workers, busy <= live <= max, min <= live until shutdown, the queue is bounded, and live >= 1 whenever a worker divides by it |
| `ThreadPoolRuns.ExactlyOnceInOrder` | server/src/thread_pool.cpp:79-187 | in every run, the accepted tasks are the batches in taking order followed by the queue; each worker runs its batches in order; after close the executed multiset is the accepted one |
| `ThreadPoolLiveness.NoLostWakeUp` | server/src/thread_pool.cpp:74-91 | in a pool that cannot shrink a queued task has a worker not asleep, and a producer that waits unsignalled waits on a full queue |
| `ThreadPoolStranding.WakeUpsAreKeptExactlyWhen` | server/src/thread_pool.cpp:141-154 | no wake-up is lost if and only if the pool is static, or starts with its maximum, or with at least as many threads as the queue holds tasks; otherwise a task can be stranded with nobody left to signal |
| `ThreadPoolLiveness.StaticPoolComesToRest` | server/src/thread_pool.cpp:135-196 | no deadlock: the threads' own steps from any reachable state of a static pool are bounded, and where they end nothing is queued and every accepted task has been run |
| `ThreadPoolLiveness.ProgressDecreases` | server/src/thread_pool.cpp:138-194 | a measure over queue, batches, phases and live workers decreases at each step that a thread takes by itself |
| `ThreadPoolShutdown.ClosingDecreases` | server/src/thread_pool.cpp:93-247 | after the flag every step of a worker, the closing thread, the producer or the admin lowers a measure, in a dynamic pool too |
| `ThreadPoolShutdown.ShutdownTerminates` | server/src/thread_pool.cpp:93-112 | after the flag the pool's own steps, the admin's included, are boundedly many, static or dynamic; no worker sleeps after the broadcast; some step is enabled until close has returned; then nobody is left, nothing is queued, and what was run is what was accepted |
| `ThreadPoolLiveness.OneWorkerAtATime` | server/src/thread_pool.cpp:144-187 | in a pool that starts with one thread and cannot shrink no two workers have a batch at once, in every run |
| `ThreadPoolLiveness.ServerTasksAreSerial` | server/src/ServerOperation.cpp:27 | the server's own pool runs its tasks one at a time |
| `ThreadPoolLiveness.TasksRunInOrder` | server/src/thread_pool.cpp:156-187 | a static pool with one thread executes the accepted tasks in the order in which they came: what has run, what is left of the batch and the queue are the accepted tasks |
| `ThreadPoolLiveness.BatchesShrinkTheQueue` | server/src/thread_pool.cpp:164-172 | after n batches in a row with nothing added, n * (max(1, M/L) + 1) fewer tasks are queued, or none |
| `ThreadPoolLiveness.LiveBatchesEmptyTheQueue` | server/src/thread_pool.cpp:164-172 | any L batches in a row empty every queue the pool can hold |
| `ThreadPoolCode.Pool.constructor` | server/src/thread_pool.cpp:7-38 | the object starts as the machine does; a minimum that is not positive becomes 3, a maximum below the minimum the minimum and 50, a capacity below 1000 becomes 1000, and as many threads as the minimum are there |
| `ThreadPoolCode.Pool.AddTaskSection` | server/src/thread_pool.cpp:74-91 | the critical section, its signal included, is the machine's step; it waits exactly on a full queue, refuses exactly after shutdown, and otherwise appends; at most the sleeper that the signal wakes is touched |
| `ThreadPoolCode.Pool.WorkerSection` | server/src/thread_pool.cpp:139-175 | the critical section, its signal to the producer included, is the machine's step; the worker goes on to sleep, leave or run a batch exactly as it is recorded to; it leaves exactly when it was woken with a request left and there are more than the fewest, or when the queue is empty after shutdown; it takes the front of the queue |
| `ThreadPoolCode.Pool.TakeBatch` | server/src/thread_pool.cpp:164-172 | the batch is the front of the queue: all of it, or max(1, capacity / live) + 1 tasks |
| `ThreadPoolCode.Pool.RunBatch` | server/src/thread_pool.cpp:183-187 | the loop over a batch is the machine's steps for it: every task is called once, in order, and logged to its worker |
| `ThreadPoolCode.Pool.GrowSection` | server/src/thread_pool.cpp:219-231 | the growing loop is the machine's step: threads are started, at most ten, in the lowest slots that were never used or whose thread is dead, and only if more tasks were queued than threads alive |
| `ThreadPoolCode.Pool.ShrinkSection` | server/src/thread_pool.cpp:234-243 | ten threads are asked to leave exactly when more than half were idle and there were more than the fewest |
| `Dispatch.OneTaskPerConnection` | server/src/ServerOperation.cpp:93-144 | in every interleaving a descriptor is armed, or in one task not past fdMode, or neither; no two workers have it; the object a task looked up is still the one in the map |
| `Dispatch.DeletionIsSafe` | server/src/ServerOperation.cpp:111-117 | when a socket object is deleted no task for its descriptor is queued, taken or running, and no task and no other descriptor has that object |
| `DispatchCode.EventLoop.HandleBatch` | server/src/ServerOperation.cpp:93-130 | handling one result of epoll_wait is the run of the machine that its entries stand for: a hang-up closes its descriptor and erases its object unless a later entry accepts it anew; what has no hang-up stays with its object; what is accepted is open and armed and nothing else is new; the tasks are the descriptors with input, in order |
| `DispatchCode.EventLoop.AcceptAll` | server/src/ServerOperation.cpp:95-109 | the accept loop opens and arms each new connection and stores its object; entries that are there stay |
| `DispatchCode.EventLoop.InitConnection` | server/src/ServerOperation.cpp:134-144 | arms the descriptor; an entry in the socket map that is there already stays |
| `DispatchCode.EventLoop.FdMode` | server/src/ServerOperation.cpp:579-585 | arms the descriptor again, if it is still open, as the machine's last step of a task does |
| `Framing.ReceivesFront` | client/src/TcpSocket.cpp:128-218 | whatever the chunking, the message at the front of the stream is received and the rest is left, by client and server alike |
| `Framing.LengthThenBody` | server/src/TcpSocket.cpp:127-221 | under every schedule, a message received by either side is what follows the first four octets, of the length that they give with the most significant first, and what follows it is left; only lengths above 0x7ffffffe are refused |
| `Framing.ReceivesAll` | client/src/TcpSocket.cpp:457-479 | for every list of messages and every schedule of short reads and interruptions, repeated recvMsg returns exactly those messages |
| `Framing.TruncatedFrameIsNotAMessage` | client/src/TcpSocket.cpp:128-218 | the end of the stream inside a frame yields no message |
| `Framing.ServerTellsWhy` | server/src/TcpSocket.cpp:127-221 | an error is a failed call, blocking is EAGAIN, and a close is the end of the stream: before a header, inside a header or a body, or between them |
| `Framing.ClientTellsWhy` | client/src/TcpSocket.cpp:128-218 | the client reports an error only for a failed call or EAGAIN, and a close only at the end of the stream |
| `Framing.FramesAreUnique` | server/src/TcpSocket.cpp:67-125 | a stream is the frames of one list of messages at most |
| `Framing.ServerReceivesAllIffOnBoundaries` | server/src/TcpSocket.cpp:462-484 | over bursts separated by EAGAIN, the server receives exactly what was sent if and only if every burst ends at a frame boundary |
| `Framing.TcpSocket.Readn` | server/src/TcpSocket.cpp:462-484 | the loop reads what the specification says into the buffer, for every schedule |
| `Framing.TcpSocket.Writen` | server/src/TcpSocket.cpp:492-514 | under short writes, zero writes and EINTR all octets go out in order, or a prefix of them on an error |
| `Framing.TcpSocket.SendMsg` | server/src/TcpSocket.cpp:67-125 | appends the length in four octets, the most significant first, and the message; a failed write has sent a proper prefix of that; an empty message gives 3001, a timeout 3002, and both and a failed select send nothing |
| `Framing.TcpSocket.ServerRecvMsg` | server/src/TcpSocket.cpp:127-221 | receives what the specification says; a message has the length that the first four pending octets give with the most significant first, and is what follows them |
| `Framing.TcpSocket.ClientRecvMsg` | client/src/TcpSocket.cpp:128-218 | the same for the client, which reports a timeout when waiting for input fails in any way |
| `Framing.TcpSocket.SendAll` | client/src/TcpSocket.cpp:68-126 | sending a list of messages puts their frames on the stream |
| `SlotTable.ReadRefines` | server/src/SecKeyShm.cpp:82-115 | a read is the map's lookup if and only if it is not of two empty names with a slot unused |
| `SlotTable.WriteRefines` | server/src/SecKeyShm.cpp:29-80 | a write is the map's update; it fails exactly when the pair is absent and no slot is all zero, and then changes nothing |
| `SlotTable.MarkRefines` | server/src/SecKeyShm.cpp:117-146 | with unique positive key IDs exactly that key's status changes, and the answer says whether it is there |
| `SlotTable.TableSize` | server/src/SecKeyShm.cpp:55-72 | a slot is unused exactly when the map holds fewer pairs than there are slots |
| `SlotTable.ZeroedTableIsAMap` | server/src/SecKeyShm.cpp:29-146 | from all zeros, every sequence of reads and writes answers as a bounded map does and ends standing for it; if anything is marked, key IDs must have owners |
| `SlotTable.SecKeyShm.ShmWrite` | server/src/SecKeyShm.cpp:29-80 | the node goes into the first slot of its names, or else into the first all-zero one, and no other slot changes; it fails exactly without either, or if the memory cannot be attached |
| `SlotTable.SecKeyShm.ShmRead` | server/src/SecKeyShm.cpp:82-115 | finds the node in the first slot of the names, or says that there is none |
| `SlotTable.SecKeyShm.UpdateStatue` | server/src/SecKeyShm.cpp:117-146 | the first slot with the key ID, if any, gets the status, and no other slot changes |
| `ResourcePool.MonitorIsSound` | server/src/HmacPool.cpp:143-187 | in every interleaving free and held items are the initial ones, the counters are exact, and while a thread sleeps unsignalled the free list is no longer than the number of woken threads |
| `ResourcePool.OneHolder` | server/src/sqlConnectionPool.cpp:40-75 | no two threads hold the same connection, and a held one is not free |
| `ResourcePool.Pool.GetSection` | server/src/HmacPool.cpp:155-171 | the front item is taken off the list, counted, recorded as held by the caller and returned; with none the caller sleeps; nobody else is touched |
| `ResourcePool.Pool.Release` | server/src/HmacPool.cpp:173-187 | the item goes to the end of the list and off the caller's hands, and the sleeper that the signal wakes is woken; a null item is refused and changes nothing |
| `ResourcePool.TwoGets` | server/src/sqlConnectionPool.cpp:40-58 | two threads that get an item each, with no release between, hold the items of two places of the list, different ones if the items are distinct |
| `KeyServer.DerivedKeys` | server/src/ServerOperation.cpp:270-271 | the encryption key is the client's nonce, up to four octets of the server's and the premaster, the authentication key up to four of the client's, the server's and the premaster; different premasters give different keys |
| `KeyServer.RepliesKeepTheNames` | server/src/ServerOperation.cpp:190-512 | every reply, of all four types and every outcome, has the type of its request, the client's name as the client's and the server's as the server's, each up to its first NUL |
| `KeyServer.PayloadOctets` | server/src/ServerOperation.cpp:206-235 | the data of the first reply is the nonce and the public key, each after its length in four octets, the least significant first |
| `KeyServer.DecimalIsPositional` | server/src/ServerOperation.cpp:323 | the decimal of a key ID has digits worth ten times as much at each place, and no leading zero |
| `KeyServer.PremasterAnswers` | server/src/ServerOperation.cpp:256-342 | a key is issued exactly when the code, under an authentication key spelled out from this connection's nonces and the premaster, is right, the statement stays one insertion and gives an ID, and there is a slot; the reply names the ID, whose row is there, with what the database makes of names and keys, exactly when the commit was not lost; the slot has both keys, spelled out likewise, and the nonces are gone |
| `KeyServer.CheckAnswers` | server/src/ServerOperation.cpp:346-425 | a check succeeds exactly when the proof of the row's keys is right and there is a slot, and changes only that slot |
| `KeyServer.RevokeAnswers` | server/src/ServerOperation.cpp:427-512 | a revocation succeeds exactly when it is admitted and the update does not fail; the row changes exactly if, besides, the commit is not lost |
| `KeyServer.SessionServes` | server/src/ServerOperation.cpp:547-563 | a handler that nothing interrupts has the effect and the answer of its specification |
| `KeyCache.CacheAgreesWithStore` | server/src/ServerOperation.cpp:297-331 | after every step of every run of interleaved handlers each occupied slot has a row with its key ID if and only if the commit of its insertion was not lost, and that row has its keys or what the database made of them; so they are the same if they hold no quote and only harmless backslashes |
| `KeyCache.DurableRunsLoseNothing` | server/src/MySQLOP.cpp:83-91 | in a run without lost commits every slot has its row |
| `KeyCache.IssuedSlotAgreesExactlyWhen` | server/src/ServerOperation.cpp:298-331 | the slot of a key just issued agrees with its row if and only if the commit was not lost and both derived keys hold no quote and no backslash except before a percent sign or an underscore |
| `KeyCache.StorableExactlyWhen` | server/src/MySQLOP.cpp:76-88 | the statement stays the insertion of a node if and only if each of its four texts can be cut into single octets, doubled quotes and backslash pairs |
| `KeyCache.BackslashSeparates` | server/src/MySQLOP.cpp:75-91 | a nonce with a backslash leads to a slot and a row that differ |
| `SqlText.StoredAsItIsExactlyWhen` | server/src/MySQLOP.cpp:76-81 | text between quotes is stored as it is if and only if it has no quote and no backslash except before a percent sign or an underscore |
| `SqlText.StaysOneLiteralExactlyWhen` | server/src/MySQLOP.cpp:76-81 | text between quotes stays one literal if and only if it can be cut into single octets, doubled quotes and backslash pairs |
| `SqlText.EscapesStandFor` | server/src/MySQLOP.cpp:76-81 | what each backslash pair stands for, by its octets, and that two quotes stand for one |
| `Revocation.PermanentExactlyWhen` | server/src/ServerOperation.cpp:427-512 | no check or revocation of a key succeeds after one revocation has, in all runs that keep the given rules, if and only if handlers are serial, no commit of an update is lost and a revoked state does not read as true |
| `Revocation.TableHonestExactlyWhen` | server/src/ServerOperation.cpp:484-502 | after every step a slot with status 1 has a row with state 1, and none is of a key whose revocation succeeded, if and only if all five rules are kept and a revoked state does not read as true |
| `Revocation.AllRulesSuffice` | server/src/ServerOperation.cpp:484-502 | the table stays honest between the two writes of a revocation and when the second fails |
| `Revocation.AsWrittenRevocationFails` | server/src/MySQLOP.cpp:111-133 | with the state decoded as written, a run that keeps all rules revokes a key twice, and one leaves a stale slot |
| `Revocation.ForeignPairSurvives` | server/src/ServerOperation.cpp:402-413 | a check under other names leaves a slot that a revocation does not find |
| `Revocation.UnmappedSurvives` | server/src/ServerOperation.cpp:485-492 | a revocation that cannot attach the table leaves its slot valid |
| `Revocation.LostUpdateRevokesTwice` | server/src/MySQLOP.cpp:62-71 | a revocation whose commit is lost is answered with success and can be made again |
| `Revocation.LostUpdateRevives` | server/src/MySQLOP.cpp:62-71 | a check makes the slot of a key valid again after a revocation whose commit is lost |
| `Revocation.LostInsertionIsValid` | server/src/MySQLOP.cpp:83-108 | a key whose insertion is lost is valid in the table and has no row |
| `Revocation.InterleavingRevives` | server/src/ServerOperation.cpp:394-413 | a check that read the row before a revocation writes its slot after it |
| `Revocation.HolderPassesUntilRevoked` | server/src/ServerOperation.cpp:346-425 | after any run, with other handlers at any stage except one about to answer this key's revocation, whoever holds a row's keys passes an uninterrupted check exactly when both keys are short enough to be encrypted, the query works, and the table is attached and has room |
| `ServerRuns.ServerIsSerial` | server/src/ServerOperation.cpp:27 | in every run of the server's own pool the tasks executed are a prefix of those accepted, executed in that order by one worker, and serving what they read is a serial run of the handlers |
| `ServerRuns.ServerRevocationIsPermanent` | server/src/ServerOperation.cpp:427-512 | of this server, in every run of its pool: no check or revocation of a key succeeds after one revocation has, if not both states read as true and no commit of an update is lost |
| `KeyServerCode.MySQLOP.WriteSecKey` | server/src/MySQLOP.cpp:75-109 | inserts a row with a fresh ID and with what the database makes of the quoted texts, also when the ID cannot be asked for; when the commit is lost the ID is handed out without a row |
| `KeyServerCode.MySQLOP.QuerySecKey` | server/src/MySQLOP.cpp:111-133 | finds the row; with none it still works and leaves the default |
| `KeyServerCode.MySQLOP.UpdataKeyState` | server/src/MySQLOP.cpp:58-72 | changes the state of that row only; an update that is lost is reported as one that is kept |
| `KeyServerCode.ServerOperation.ClientRandomNum` | server/src/ServerOperation.cpp:190-254 | notes the client's nonce and then its own under the descriptor, and answers with its nonce and the public key, each after its length, under the request's names |
| `KeyServerCode.ServerOperation.ClientPremaster` | server/src/ServerOperation.cpp:256-342 | with keys spelled out from both nonces and the premaster: an authentication error exactly for a wrong code; success exactly if, besides, the texts can be stored, the insertion gives an ID and there is a slot; then the node with these keys and the new ID is in the table, its row in the database unless the commit was lost, and the ID in the reply |
| `KeyServerCode.ServerOperation.SaveKey` | server/src/ServerOperation.cpp:297-331 | succeeds exactly when all four texts can be stored, the insertion gives an ID and the table can be attached and has a slot; then the node with the new ID and status 1 is in the table, and its row in the database unless the commit was lost |
| `KeyServerCode.ServerOperation.KeyCheck` | server/src/ServerOperation.cpp:346-425 | an authentication error exactly unless the row reads as valid and code and data prove both its keys; success exactly if, besides, there is a slot, which then has the row's keys and status 1 under the request's names; nothing else changes |
| `KeyServerCode.ServerOperation.KeyRevoke` | server/src/ServerOperation.cpp:427-512 | an authentication error exactly without the same proof; success exactly if, besides, the update does not fail; the first slot with the key ID loses its status before, and the row's state is 0 after unless the commit is lost |
| `KeyServerCode.ServerOperation.WorkThread` | server/src/ServerOperation.cpp:539-569 | a task decodes its messages and hands each to its handler, in order, up to one that cannot be decoded; there is one reply for each request of the types 0 to 3, of its type and with its names, and none for any other |
| `KeyServerCode.TypesByNumber` | server/test/transit_data.proto:5-10 | by the number in the type field of the octets: 0 notes nonces, 1 takes them, 2 changes slots only, 3 revokes, and any other is passed over |
| `KeyServerCode.TaskIsARun` | server/src/ServerOperation.cpp:514-573 | a task that nothing interrupts is a run of the interleaved server |
| `Codec.RequestRoundTrip` | client/src/RequestCodec.cpp:24-36 | the server decodes the request that the client encoded |
| `Codec.ResponseRoundTrip` | server/src/RespondCodec.cpp:18-32 | the client decodes the reply that the server encoded |
| `Octets.RequestOctets` | client/src/RequestCodec.cpp:24-36 | for every request: the type in field 1, the client's name in 2, the code in 3, the server's name in 4, the data in 6, the key ID in 7, each after its tag octet and left out if zero or empty |
| `Octets.ResponseOctets` | server/src/RespondCodec.cpp:18-32 | for every reply: the type in field 1, the outcome in 2, the client's name in 3, the server's in 4, the data in 7 |
| `Octets.RecordOctets` | server/test/transit_data.pb.cc:1114-1169 | the tag octet of each wire type, and both tags of a group |
| `Octets.VarintWrites` | server/test/transit_data.pb.cc:1114-1169 | the varint written for a number is that of its seven-bit groups, the least significant first, without needless octets |
| `Octets.VarintReads` | server/test/transit_data.pb.cc:1025-1105 | any varint that is short enough is read as its seven-bit groups, needless octets included, and a longer one is refused |
| `Codec.NoZeroInNoZeroOut` | server/test/transit_data.pb.cc:1556-1604 | a message is printed without a zero octet exactly when its octet strings hold none |
| `Codec.PremasterReplyHasNoZero` | client/src/ClientOperation.cpp:199-206 | every reply that clientPremaster can build has no zero octet, so decoding it as a C string is decoding it whole |
| `Codec.RequestCodec.MsgDecode` | server/src/RequestCodec.cpp:38-53 | the codec object decodes what the specification says |
| `Codec.RespondCodec.MsgDecode` | client/src/RespondCodec.cpp:35-52 | the codec object decodes what the specification says |
| `Client.PayloadParsesBack` | client/src/ClientOperation.cpp:110-124 | nonce and public key are parsed back from the payload if and only if it fits the client's buffer |
| `Client.AtoiOfIntToString` | client/src/ClientOperation.cpp:221 | atoi undoes to_string |
| `Client.HolderIsAdmitted` | client/src/ClientOperation.cpp:258-276 | the request built from a node with a row's keys is admitted exactly when the query works, the state reads as valid and both keys together have at most 117 octets |
| `Client.LongKeysAreRefused` | server/src/RsaCrypto.cpp:87-112 | no request whatever is admitted for a row whose keys together have more than 117 octets |
| `Client.IssuedHolderIsAdmitted` | client/src/ClientOperation.cpp:258-276 | the client to which a key was issued is admitted exactly when, besides, the database stored both keys as they are |
| `ClientCode.ClientOperation.ParseReply` | client/src/ClientOperation.cpp:110-124 | the copying out of the zeroed buffer is the specification's parser |
| `ClientCode.AgreementSpelledOut` | client/src/ClientOperation.cpp:49-234 | the steps of an agreement in full: the two requests, that a key is agreed on exactly when both replies are successes that can be taken apart, and the node with both keys written out from the nonces and the premaster |
| `ClientCode.ClientOperation.SecKeyAgree` | client/src/ClientOperation.cpp:49-234 | succeeds exactly when both replies are successes that can be taken apart; sends the nonce, and then the encrypted premaster with the code of the authentication key; if there is room its table then has the node with status 1, the replied ID and both keys, written out from the nonces and the premaster |
| `ClientCode.ClientOperation.SendProof` | client/src/ClientOperation.cpp:240-282 | sends, exactly when the first slot of its own names is valid, the request of that type with the encryption of both keys of the slot, authentication key first, its code under the authentication key, and the slot's key ID |
| `ClientCode.ClientOperation.SecKeyCheck` | client/src/ClientOperation.cpp:236-314 | sends a proof of type 2 exactly when the first slot of its own names is valid; succeeds exactly when, besides, the answer does |
| `ClientCode.ClientOperation.SecKeyRevoke` | client/src/ClientOperation.cpp:316-392 | the same with type 3, and the answer must be of that type |
| `AgreementUse.WorldIsARun` | server/src/ServerOperation.cpp:514-573 | every run of interleaved agreements is a run of the server's handlers |
| `AgreementUse.AgreedClientPassesExactlyWhen` | client/src/ClientOperation.cpp:236-314 | in every run, a client that has agreed and whose key's revocation is neither answered nor about to be has its encoded check arrive as it is and succeed exactly when its row was not lost, both keys together are short enough and hold no quote and only harmless backslashes, the query works, and the table is attached and has room |
| `Agreement.NoncesAreIsolated` | server/src/ServerOperation.cpp:203-269 | a handler touches no nonces but those of its own connection |
| `Agreement.DoKeeps` | server/src/ServerOperation.cpp:190-342 | every step, of any connection, keeps each honest client, its messages in flight, its handler and its nonces in agreement |
| `AgreementRuns.ClientAndServerAgree` | client/src/ClientOperation.cpp:49-234 | after every run of any number of connections, a client that has agreed had luck and holds an ID that has a row exactly when the commit was not lost; that row was inserted for its names and for both keys as it computed them, and has each of these texts exactly when the text holds no quote and only harmless backslashes; a client that has failed had no luck |
| `AgreementRuns.NextAdvances` | client/src/ClientOperation.cpp:69-221 | the action an agreement waits for brings it nearer to its end |
| `AgreementRuns.OthersDoNotMove` | server/src/ServerOperation.cpp:203-269 | no other connection, and no step out of turn, moves an agreement |
| `AgreementRuns.EnoughTurnsAgree` | client/src/ClientOperation.cpp:49-234 | from any reachable moment, every continuation that gives an agreement its turns ends with a key agreed on if and only if the server had luck in serving it |
| `AgreementAlone.UndisturbedAgreementSucceeds` | client/src/ClientOperation.cpp:49-234 | from any reachable moment, a client that starts with a free or matching slot, a working database that takes its texts, and a payload that fits ends with a key agreed on from what both sides drew, after steps of its own alone |
| `AgreementIds.KeyIdsAreNotShared` | server/src/ServerOperation.cpp:315-323 | two honest clients never end with the same key ID |

## Left out

- OpenSSL, MySQL, jsoncpp, epoll, select, shmget and pthread internals, Base64, RSA, AES, hex printing and random strings: foreign calls; only the contract each result needs is kept.
- The library's recursion limit on nested unknown groups, and its limit of 2 GiB on a whole message.
- What a message holds after a parse that failed.
- Header 0xffffffff: the receiver allocates nothing and asks for all there is; the model reports `Overrun` and says nothing of what follows.
- Overflows of the fixed arrays: names of 12 octets or more, keys of 128 or more, a payload over 2048. The client's parser stops instead (`Failed`); `PayloadParsesBack` says exactly when.
- What follows a null pointer: a request or reply that cannot be decoded ends the task or the exchange in the model.
- ThreadPoolLiveness.StaticPoolComesToRest: static pools only, because an admin's rounds never end.
- Several producers in `add_task`, and a pool destroyed twice: the server has one producer.
- `DestroyPool` of both resource pools, and the handlers' `HmacRAII` and `connectionRAII`, which release at once: ownership is proved about Get and Release. The interleaved results on handlers (`KeyServer`, `Revocation`, `Agreement` and what builds on them) take a handler to have its connection and its HMAC object to itself while it runs. With one worker, as here, it has; with several, two handlers could share a connection, and the last inserted ID could be one of the other's.
- KeyServer.Act: one access to the table is one step, although `updateStatue` and `shmRead` take no lock and the attached address is a member shared by all threads. An insertion whose text does not stay one literal (a quote, or a backslash at its end) is taken to fail; a text that turns the statement into another one that works is not modelled, nor is one that the column's length or character set changes.
- Server `recvMsg` on a body cut off by EAGAIN or by the end of the stream reads a buffer that was not filled; the model only says that the result is not a message that was sent. The loop of `workThread` on a closed connection is not modelled.
- Data races on the socket map, and a nonce entry that survives its connection and meets a new one with the same descriptor.
- An epoll event that is neither a hang-up nor input.
- Calls whose result the code does not look at and that the model takes to succeed: `pthread_create` (server/src/thread_pool.cpp:29, 224), after which a thread counts as live whether or not it exists, so that the live counter is exact only if every thread that is asked for starts; `epoll_ctl` (server/src/TcpSocket.cpp:275, server/src/ServerOperation.cpp:584), without which a connection would never be served again; `sendMsg` in the handlers, whose replies arrive in `Agreement`; and switching autocommit. A commit may be lost in the model; that it fails and is made up for when autocommit is switched on again is the case in which it is kept.
- AgreementRuns.ClientAndServerAgree: an honest client there only agrees on keys; its checks and revocations are in `ClientCode` and `Revocation`.
- Runs of several tasks of one connection in one batch: a handler is a job of its descriptor, and the messages of one task are jobs in turn.
- atoi beyond the range of an int, and an auto_increment that reaches it: completion is stated for IDs that fit.
- Revocation.TableHonestExactlyWhen: for tables of at least two slots, since a pair's second slot needs one.
- Arena, swap, reflection and descriptors of the generated code, the three message types that are not used, and the client's copy of the generated code.
- Loggers, `LockQueue`, configuration, the console menu and the codec factories.
