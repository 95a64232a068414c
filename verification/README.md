# vpverk: a verified model

vpverk is a small VPN. A server gives every authenticated client an address in 10.123.0.0/16,
keeps a table from address to connection and cipher session, and moves length-prefixed AES-CTR
frames between the clients' sockets and one TUN device. This project models the parts in which
correctness depends on more than one function and proves what they guarantee.

| module | what it models |
|---|---|
| `RouteQueue` | the drain of the route queue: two phases, retries, ownership of the queued objects |
| `Sessions` | grant, add, remove, release and drain as steps; every run of them |
| `SessionLife` | what a session keeps, and that it can be served and can end |
| `LostRoutes` | when a live session loses its route, and why that needs a full turn of the address counter |
| `AddressPool` | the 16-bit address counter and the set of addresses in use |
| `Cipher` | AES-CTR as a keystream by position, the two running positions, the key material |
| `Frames` | frames as a byte stream and what a receiver makes of any part of it |
| `Tunnel` | the transfer loops over a socket that moves as much as it likes, and the two ends |
| `ConnectionLocks` | one connection under all interleavings: try-locks, one-shot close, the wire |
| `ConnectionRuns` | what is sent in a run, packet by packet; sends and closes come to an end |
| `TunDevice` | the TUN lock on a first-in-first-out run queue, pre-emption of the reader, the `Lock` token |
| `TunProgress` | the TUN lock is always given back, and no writer is forgotten |
| `FlatMap` | the map on two parallel sorted vectors |
| `Sweep` | the swap-with-last sweep over the connections |
| `Sweeps` | several such sweeps at once |
| `OptionParser` | token iterator, option parsing and the parse loop of the command line |
| `Sequences`, `Wrappers` | a lemma on permutations, the usual result datatypes |

Where several coroutines or threads interleave (sessions, connection locks, TUN lock), each atomic
access, queue operation or completion is one step of a transition function on a value, and the
results are about every run. Everything else that updates state in place is a class or works on
an array, and its methods are proved against the functions the lemmas talk about.

## What the proofs show about the code

- Per address, (present before) + adds - removes decides a drain completely, whatever the order:
  the address is routed afterwards if and only if the sum is at least 1, the error branch is
  reached if and only if some sum is outside {0, 1}, and what is then left over pulls each address
  in one direction only.
- No route is ever stale, in any run. A live session can however be left without its route. A
  session that fails between taking its address and queuing its add still queues a remove; if a
  drain pops it together with the add of a later holder of the address, that holder is unrouted
  (`LostRoutes.FailedSessionCanUnrouteItsSuccessor`). As the address counter never goes back, this
  needs more than a failure: every other host number has to be granted, or passed in use, between
  the two grants (`LostRoutes.LostRouteNeedsAFullTurn`), for example in a full pool, all while the
  remove waits in the queue. The exact condition for a live session is
  `Sessions.LiveSessionIsServedIff`; a session on an address without such a failure is always served
  (`LostRoutes.CleanAddressIsServed`), and one that has survived the drain of its add stays served
  until its remove (`LostRoutes.ServedStaysServed`).
- A request to read zero bytes means a whole buffer, so behind a frame of length zero the receiver
  waits for 1500 bytes and loses step (`Frames.EmptyFrameStalls`). Of packets that fit the buffer, it
  delivers what was sent if and only if none is empty (`Frames.RoundTripIff`). The senders never send
  an empty one.
- A cancel that a writer decided on while a read was pending can be carried out after that read has
  ended and end another writer's operation (`TunDevice.LateCancelCanHitAWrite`), exactly when a write
  is outstanding at that moment (`TunDevice.CancelHitsIff`). Writer priority holds in spite of it.
- Move assignment of a `Lock` into a token that already owns another flag forgets that flag without
  clearing it. Into an empty token, which is how the program uses it, there is exactly one owner.
- Two sweeps over the connections can be under way at once. Then one of them may miss a connection
  (`Sweeps.OneSweepCanMiss`), but together they miss none (`Sweeps.SweepsTogetherMissNothing`), and
  setting the index back after a suspension changes nothing (`Sweeps.ClampChangesNothing`).
- With every host number in use the search for an address does not end.

## Evident intent

- The byte-order probes that end in an unconditional abort
  (`src/server/contexts/sessionscontrol.cpp:274-280` and `:83-98`) and the `breakpoint`s are dropped.
- The router asserts an empty table on every entry (`src/server/contexts/sessionscontrol.cpp:37`),
  also on the recursive one at `:129`. The model takes it as a statement about the first launch.
- The client's size check at `src/client/async.cpp:291` is the opposite of the one commented out on
  line 290. The model follows line 290.
- The client's handshake size and login frame (`src/client/async.cpp:80`, `:97-110`) do not match what
  the server reads (`src/server/contexts/sessionscontrol.cpp:532-546`, `:597-639`). No round trip is
  claimed for them: the data exchange starts from keystream positions that are equal at both ends.
- The age limit of a session is a parameter: `src/server/types/settingssnapshot.hpp:22-42` does not
  copy it.

## Model

| member | source | states |
|---|---|---|
| RouteQueue.PassKeepsNet | src/server/contexts/sessionscontrol.cpp:182-212 | Applying or requeuing the routes of a pass never changes (present before) + adds - removes of any address |
| RouteQueue.PassWithoutProgress | src/server/contexts/sessionscontrol.cpp:217-228 | A pass after which the local queue has the same size has changed nothing, and every queued route is blocked: equal sizes do mean an actual error |
| RouteQueue.PassKeepsOrder | src/server/contexts/sessionscontrol.cpp:189-211 | Requeued routes keep their order |
| RouteQueue.RetryKeepsNet | src/server/contexts/sessionscontrol.cpp:213-261 | The same conservation over all retries |
| RouteQueue.RetryLeavesBlocked | src/server/contexts/sessionscontrol.cpp:213-261 | Whatever survives the retries is blocked by the final table |
| RouteQueue.BalanceOfPermutation | src/server/contexts/sessionscontrol.cpp:180-262 | Adds minus removes of an address is the same for every order of the batch |
| RouteQueue.DrainIsDecidedByNet | src/server/contexts/sessionscontrol.cpp:180-262 | Per address, for every table and batch: routed afterwards iff the sum is at least 1, the number of left-over routes is the excess over 1 or the deficit below 0, and these are only adds on a routed or removes on an unrouted address |
| RouteQueue.DrainStuckIff | src/server/contexts/sessionscontrol.cpp:217-228 | The error branch is reached iff some address has a sum outside {0, 1} |
| RouteQueue.DrainIsOrderIndependent | src/server/contexts/sessionscontrol.cpp:180-262 | Two orders of the same batch give the same routed addresses, the same number of left-over routes per address, and are stuck together |
| RouteQueue.HandleOne | src/server/contexts/sessionscontrol.cpp:180-262 | An object not handled before is still alive when it is handled; keeping it or freeing it keeps the account of who owns what |
| RouteQueue.ComposeHandled | src/server/contexts/sessionscontrol.cpp:213-261 | A retry pass over the kept objects of earlier passes neither loses nor frees an object twice |
| RouteQueue.Consumer.Handle | src/server/contexts/sessionscontrol.cpp:189-211 | A blocked route is requeued and nothing else changes; any other is applied and its object freed |
| RouteQueue.FedIsSound | src/server/contexts/sessionscontrol.cpp:182-187 | Whatever the sessions push while the queue is popped, the objects that have been in it are alive and all different |
| RouteQueue.EmptiedOnce | src/server/contexts/sessionscontrol.cpp:182-187 | The turn by which as many objects have been popped as pushed for the first time is unique: it fixes where the popping loop ends |
| RouteQueue.Consumer.PopAll | src/server/contexts/sessionscontrol.cpp:182-212 | The loop goes on exactly until the queue is seen empty, counting what is pushed meanwhile and which pops fail; it is one pass over all that was in the queue by then, with just that table, local queue and freed objects |
| RouteQueue.Consumer.RetryPass | src/server/contexts/sessionscontrol.cpp:231-257 | One turn of the retry loop is one pass over the local queue, each object handled once and freed iff applied |
| RouteQueue.Consumer.Discard | src/server/contexts/sessionscontrol.cpp:218-227 | Every stuck route is reported, in order, and freed exactly once |
| RouteQueue.Consumer.EmptyQueue | src/server/contexts/sessionscontrol.cpp:180-262 | For every table and queue, and whatever is pushed until the queue is seen empty: the new key set is the addresses whose sum is at least 1, the error branch is taken iff some sum is outside {0, 1}, at most (local queue after the first phase) + 1 retry passes are made, and exactly the popped objects have been freed, each once |
| Sessions.RunKeepsInv | src/server/contexts/sessionscontrol.cpp:443-523 | The invariant of the address, route and queue protocol holds after every run |
| Sessions.StepKeepsSound | src/server/contexts/sessionscontrol.cpp:189-211 | Popping a route whose add follows no pending add keeps every row of the table backed by the last route of its address; such an add is never blocked |
| Sessions.StepKeepsExact | src/server/contexts/sessionscontrol.cpp:189-211 | When adds and removes alternate, no route is blocked and the table has exactly the addresses whose last route is an add |
| Sessions.StepKeepsExactAt | src/server/contexts/sessionscontrol.cpp:189-211 | The same for one address alone, whatever the other routes do |
| Sessions.RetryLeavesOthers | src/server/contexts/sessionscontrol.cpp:213-261 | Retrying changes no address but those of the retried routes |
| Sessions.RetryOfRemoves | src/server/contexts/sessionscontrol.cpp:213-261 | Retrying removes only takes rows away and leaves removes only |
| Sessions.ReplayIsExact | src/server/contexts/sessionscontrol.cpp:182-212 | Replaying alternating routes over an exact table requeues nothing and ends exact |
| Sessions.CleanRunsReplay | src/server/contexts/sessionscontrol.cpp:443-523 | In every state of every run in which each session queues its add before its remove, replaying the pending queue never blocks and yields exactly the sessions with a queued add and no queued remove, each address with its own connection and cipher |
| Sessions.AddressesAreNotShared | src/server/contexts/sessionscontrol.cpp:443-523 | In every run, no two sessions that have not released their address share it |
| Sessions.CleanDrainsFinish | src/server/contexts/sessionscontrol.cpp:180-262 | In such runs no drain has anything to retry, and after it the table serves exactly the live sessions |
| Sessions.NoStaleRoutes | src/server/contexts/sessionscontrol.cpp:499-523 | In any run, failed sessions included, every row belongs to a session on that address whose add has been popped and whose remove has not |
| Sessions.DrainOutcome | src/server/contexts/sessionscontrol.cpp:180-262 | In any run, at the end of a drain an address is routed iff its sum over this drain is 1; sums never exceed 1, and only removes are ever thrown away, as many as the sum falls below 0 |
| Sessions.LiveSessionIsServedIff | src/server/contexts/sessionscontrol.cpp:180-262 | In any run, a session with a queued add and no queued remove is served after a drain, by its own connection and cipher, iff the sum of its address over this drain is 1; no other session's row ever takes its place |
| SessionLife.SessionsAreAsGranted | src/server/contexts/sessionscontrol.cpp:443-462 | In every run each session has just the address, connection and cipher session of its grant |
| SessionLife.QueueNeverOverflows | src/server/contexts/sessionscontrol.cpp:464-511 | No more routes wait than the queue holds |
| SessionLife.SessionCanBeServed | src/server/contexts/sessionscontrol.cpp:443-482 | From every reachable state, a session that has its address, on an address without a failed session, is served after pops and its own add |
| SessionLife.EverySessionCanEnd | src/server/contexts/sessionscontrol.cpp:499-523 | From every reachable state, pops and its own steps lead any session to its release, with its address free again |
| LostRoutes.CleanAddressIsServed | src/server/contexts/sessionscontrol.cpp:443-523 | In any run and at any time, a live session whose add has been popped is served by its own connection and cipher if no session on its address failed before queuing its add, whatever happens on other addresses |
| LostRoutes.ServedStaysServed | src/server/contexts/sessionscontrol.cpp:180-262 | With every step of any run a served session stays served until it queues its remove, except at the end of the drain that has popped its add |
| LostRoutes.TraceIsTrace | src/server/contexts/sessionscontrol.cpp:264-286 | Every run is a sequence of grants and releases of the address pool |
| LostRoutes.SameAddressWentRound | src/server/contexts/sessionscontrol.cpp:264-286 | Two sessions have the same address only if every host number was granted, or passed by a search that saw it in use, between their grants |
| LostRoutes.LostRouteNeedsAFullTurn | src/server/contexts/sessionscontrol.cpp:443-523 | If the drain that pops a live session's add leaves it unserved, that drain has also popped the remove of an earlier session on the address, some earlier session on it failed before queuing its add, and the counter has gone all the way round since the grants of both |
| LostRoutes.FailedSessionCanUnrouteItsSuccessor | src/server/contexts/sessionscontrol.cpp:443-515 | A run, with the counter as the program moves it, in which that happens: in a full pool the holder of host 7 fails, queues its remove and releases; the counter comes round to it, and the next holder loses its route |
| AddressPool.OrIsSum | src/server/contexts/sessionscontrol.cpp:272 | The bitwise or of the subnet and a 16-bit host number is their sum, so distinct hosts have distinct addresses inside 10.123.0.0/16 |
| AddressPool.AddressIsOr | src/server/contexts/sessionscontrol.cpp:272 | Bit by bit, the address of a 16-bit host number is the bitwise or of 10.123.0.0 and the host number |
| AddressPool.AtDistance | src/server/contexts/sessionscontrol.cpp:267-271 | The cyclic distance is the first number of increments that reaches a host |
| AddressPool.Pool.GetNewAddress | src/server/contexts/sessionscontrol.cpp:264-286 | For every state and every number of turns of the search: it has ended iff a free host is at most that many increments away, so within one round iff any host number in 2..65534 is free; it never overflows the 16-bit counter, grants the first free host on the counter's way, in 10.123.0.2 to 10.123.255.254, and records just it; until it ends it changes the counter only |
| AddressPool.Pool.Release | src/server/contexts/sessionscontrol.cpp:522-523 | Gives back just that address and leaves the counter |
| AddressPool.NoFreeHostNoGrant | src/server/contexts/sessionscontrol.cpp:267-283 | With every host in use, no number of increments leads to a free one |
| AddressPool.TravelCovers | src/server/contexts/sessionscontrol.cpp:264-286 | Over any sequence of grants and releases, each place the counter passes is granted by a grant, or passed and seen in use in that grant's search |
| AddressPool.FullTurn | src/server/contexts/sessionscontrol.cpp:267-271 | A counter that moves and returns to a host has gone all the way round |
| AddressPool.ReuseDistance | src/server/contexts/sessionscontrol.cpp:264-286 | Between two grants of one host number every other host number was granted, or passed by a search that saw it in use |
| Cipher.XorNatBits | src/shared/cvkaes.hpp:72-96 | The exclusive or of two numbers has exactly the bits that one has and the other has not |
| Cipher.XorByteBits | src/shared/cvkaes.hpp:72-96 | The same of bytes |
| Cipher.XorNatTwice | src/shared/cvkaes.hpp:72-96 | Exclusive or with the same number twice is the identity |
| Cipher.XorTwice | src/shared/cvkaes.hpp:72-96 | Decrypting at the position at which data was encrypted gives the data back |
| Cipher.XorConcat | src/shared/cvkaes.hpp:72-96 | One call over two pieces is two calls, each starting where the last one stopped |
| Cipher.AesSession.Create | src/shared/cvkaes.hpp:46-70 | Refuses exactly the wrong sizes; each direction starts at position 0 of the keystream of its own counter block |
| Cipher.AesSession.Encrypt | src/shared/cvkaes.hpp:72-84 | An output that is too short is refused with nothing changed; otherwise its front differs from the input in exactly the bits that the keystream at the running position has set, the rest is untouched and the position advances by the input's length |
| Cipher.AesSession.Decrypt | src/shared/cvkaes.hpp:86-96 | The same for the other direction, at its own position |
| Cipher.SaltKey | src/client/async.cpp:59-63 | The salt loop XORs bytes 12 to 23 of the buffer with the salt, byte by byte, and changes no others |
| Cipher.SaltIsText | src/client/async.cpp:59-60 | The salt is the text Chara_VerKys |
| Cipher.ClientSession | src/client/async.cpp:49-69 | What the client sends (unsalted key, second and first counter block) and which keystreams it keeps |
| Cipher.ServerSession | src/server/contexts/sessionscontrol.cpp:554-594 | Salting the received block as a whole salts its key part only; which keystreams the server takes from it |
| Cipher.MaterialLayout | src/server/contexts/sessionscontrol.cpp:567-580 | Salting the whole block and salting the key before it is put in front give the same key, and leave the counter blocks |
| Cipher.Handshake | src/client/async.cpp:49-69 | For every key and counter blocks, each end decrypts with the keystream the other encrypts with, both from position 0 |
| Frames.RoundTrip32 | src/server/connection.hpp:41-43 | A 32-bit length survives its four bytes, for every length |
| Frames.Encode32Digits | src/client/async.cpp:267 | The length is sent in little-endian order: byte i is digit i to the base 256 |
| Frames.Decode32Unique | src/server/connection.hpp:41-43 | Any four bytes are read as the one number they are written for |
| Frames.FrameDecrypts | src/server/contexts/sessionscontrol.cpp:724-757 | Header and payload encrypted in one call decrypt in two |
| Frames.PartialFrameWaits | src/server/contexts/sessionscontrol.cpp:724-746 | No proper part of a frame makes the receiver deliver anything |
| Frames.ReceiveFrame | src/server/contexts/sessionscontrol.cpp:693-778 | A whole frame is delivered as its packet, and the receiver goes on right behind it |
| Frames.TakesIsReceive | src/server/contexts/sessionscontrol.cpp:693-778 | One turn of the receive loop is one packet of what is received in all |
| Frames.StreamAppend | src/client/async.cpp:262-274 | Encrypting one more frame where the cipher stands continues the one keystream over all frames |
| Frames.RoundTrip | src/client/async.cpp:256-280 | For every keystream, position, packets of 1 to 1500 bytes and every prefix of their stream: the receiver delivers a prefix of the packets, all of them once all bytes are there |
| Frames.DeliversOne | src/server/contexts/sessionscontrol.cpp:724-757 | Consuming just the frame of one more packet delivers it, and leaves the receiver where it goes on whatever follows |
| Frames.EmptyFrameStalls | src/shared/asioapi.cpp:75-88 | Behind a frame of length zero the receiver delivers nothing until 1500 further bytes have come; then it delivers an empty packet and throws those bytes away, its keystream position no longer in step |
| Frames.ReceiveNeeds | src/shared/asioapi.cpp:75-88 | The packets delivered account for at most the bytes received, 1500 for an empty one |
| Frames.FramedProvides | src/client/async.cpp:262-274 | The sender provides as many bytes as the receiver needs for the packets iff none is empty |
| Frames.RoundTripIff | src/client/async.cpp:256-280 | For packets of 0 to 1500 bytes, the receiver delivers exactly what was sent iff no packet is empty |
| Frames.DeliversUpToAnEmptyOne | src/client/async.cpp:256-280 | The packets before the first empty one are delivered, whatever follows |
| Frames.AllDeliveredIff | src/client/async.cpp:256-280 | All packets are delivered iff every byte of their stream is received |
| Tunnel.Socket.WriteSome | src/shared/asioapi.cpp:109-133 | A single write sends the prefix of the data that the network takes, and fails only if the network fails |
| Tunnel.Socket.ReadOnce | src/shared/asioapi.cpp:134-157 | A single read moves the least of what is requested, what the network gives and what has arrived, and fails only if the network fails |
| Tunnel.Socket.Send | src/shared/asioapi.cpp:56-73 | However the writes are split, only a prefix of the buffer is sent; it is all of it iff the call succeeds, and that fails iff the buffer is empty or oversized or the network fails. If every call moves a byte, 1 + size calls are enough |
| Tunnel.Socket.ReadSomeUnreliable | src/shared/asioapi.cpp:90-107 | As many bytes as requested, moved and there arrive where asked for, zero meaning all the room; earlier bytes stay. It fails iff its arguments are refused or the network fails, and then consumes nothing |
| Tunnel.Socket.ReadSome | src/shared/asioapi.cpp:75-88 | However the reads are split, success means exactly the requested bytes in the front of the buffer and not a byte more taken. It fails iff its arguments are refused or the network fails, with fewer bytes taken. If the bytes are there and every call moves one, two calls a byte are enough |
| Tunnel.SendPacket | src/client/async.cpp:267-272 | Sends a prefix of the packet's frame encrypted in one call, all of it iff it succeeds; it fails iff the network fails |
| Tunnel.PacketsOfConcat | src/client/async.cpp:262-266 | The packets of two stretches of TUN reads are those of the first followed by those of the second |
| Tunnel.WireIsStream | src/client/async.cpp:262-274 | The frames sent one by one, with timeouts between them, are the one stream of the packets |
| Tunnel.StartTunRead | src/client/async.cpp:256-280 | For any TUN reads and any split of writes, a prefix of the stream of the packets is sent, all of it iff no call fails; two calls a byte are enough if every call moves one |
| Tunnel.ReceiveHeader | src/server/contexts/sessionscontrol.cpp:720-740 | The length is the decryption of the next four bytes; it fails iff the network fails, with less than a header taken |
| Tunnel.ReceiveBody | src/server/contexts/sessionscontrol.cpp:742-758 | The packet is the decryption of exactly the announced bytes; it fails iff the network fails, with less than that taken |
| Tunnel.WaitForData | src/server/contexts/sessionscontrol.cpp:698-718 | Gives up only if the network fails, and never when data is there and the wait succeeds |
| Tunnel.ReceivePacket | src/server/contexts/sessionscontrol.cpp:720-758 | What is taken off the socket is just one frame as the receiver function says, for any split of reads; it fails only if the network fails or the header is refused, never on a whole frame while calls move bytes |
| Tunnel.ReceiveLoop | src/server/contexts/sessionscontrol.cpp:684-779 | What is written to the TUN device is exactly the packets in the bytes taken off the socket; the loop ends only if the network fails or a header is refused, and everything that arrived is delivered if three calls a byte move something |
| Tunnel.ClientToServer | src/client/async.cpp:256-280 | End to end, for every key, counter blocks, TUN reads and split of writes and reads: the server's TUN device gets exactly the packets in what it took off the socket, a prefix of those the client read, and all of them iff everything was sent, arrived and was read; that is so whenever everything arrives and enough calls at both ends move a byte |
| ConnectionLocks.StepMovesLocks | src/server/connection.cpp:42-104 | Every step changes a lock flag only as the stepping task takes the free lock or gives up its own |
| ConnectionLocks.MoveKeepsExclusive | src/server/connection.cpp:42-70 | Such a change keeps the flag set exactly when there is an owner, and never two owners |
| ConnectionLocks.DoKeepsLocks | src/server/connection.cpp:42-104 | Every step of every task keeps both locks exclusive |
| ConnectionLocks.LocksAreExclusive | src/server/connection.cpp:42-104 | In every interleaving each lock flag is set exactly when one owner exists: a token, a probe, a close or a half-done context lock |
| ConnectionRuns.AttemptSucceedsIffFree | src/server/connection.cpp:42-100 | In every reachable state, an attempt on either side gives the task that side iff no task owns it |
| ConnectionRuns.ReaderCanRelease | src/server/connection.cpp:42-83 | Whoever has the read side gives it back by at most three steps of its own |
| ConnectionLocks.ContextLockIsAllOrNothing | src/server/connection.cpp:58-70 | In every interleaving, from any reachable state inside the call: it ends owning both sides alone with both flags set, or owning neither, its last step having cleared the read flag and none of its steps having changed the write flag; the former iff its second exchange met a free lock |
| ConnectionLocks.CloseIsOneShot | src/server/connection.cpp:90-93 | In every run a close takes effect at most once |
| ConnectionRuns.CloseTakesEffect | src/server/connection.cpp:90-147 | From every reachable state, a close that has been called on a connection not closed yet closes it and can be brought to its end with the socket shut; any further one ends at once and changes nothing |
| ConnectionRuns.SpinningCloseEnds | src/server/connection.cpp:95-147 | From every reachable state, a close that spins on the write lock can be brought to its end within nine steps, with the socket shut if it was open |
| ConnectionRuns.OneCloseUnderWay | src/server/connection.cpp:90-147 | In every run at most one close is under way, and until it has the write lock the socket is open on this side and no notice has begun |
| ConnectionRuns.LostCloseEnds | src/server/connection.cpp:117-147 | A close during which the peer is gone shuts the socket down and ends all the same |
| ConnectionLocks.OwnerCanRelease | src/server/connection.cpp:95-104 | In every reachable state with the write lock taken, its owner can go on by itself and frees it within four steps, so a spinning close is never dead-locked |
| ConnectionLocks.StepKeepsWire | src/server/contexts/sessionscontrol.cpp:125-161 | Every step of a writer, from taking the lock to releasing it, keeps the account of bytes sent, bytes to send and keystream position |
| ConnectionLocks.RunKeepsInv | src/server/connection.cpp:42-147 | The invariant of locks, wire and close holds after every run |
| ConnectionLocks.WireIsFramesThenNotice | src/server/contexts/sessionscontrol.cpp:125-166 | In every run the bytes sent are a prefix of the frames under one continuous keystream, in the order their sending began, then at most one plain close notice; exactly that whenever nobody is sending and the peer is there |
| ConnectionRuns.SentAsTaken | src/server/contexts/sessionscontrol.cpp:125-161 | In every run each packet has been begun to be sent, or is still held by the router, at most as often as it was taken from the TUN device, byte for byte; exactly as often while the connection is open |
| ConnectionRuns.WaitingPacketIsSent | src/server/contexts/sessionscontrol.cpp:125-161 | From every reachable state a packet that waits for the lock can be sent within nine steps, if the connection is open and no close has taken effect; else it is sent too, or the sender calls close |
| ConnectionRuns.RoutedPacketIsSent | src/server/contexts/sessionscontrol.cpp:122-161 | From every reachable state of an open connection on which no close has taken effect, a packet routed to it can be sent within ten steps |
| ConnectionRuns.FirstPacketGoesOut | src/server/contexts/sessionscontrol.cpp:122-161 | On a connection just registered, the first packet routed goes out as one frame at the keystream position of the registration |
| ConnectionRuns.LostSendCloses | src/server/contexts/sessionscontrol.cpp:150-159 | A send during which the peer goes away fails, frees the lock and calls close for that reason |
| ConnectionLocks.NoticeIsRefused | src/server/connection.cpp:109-116 | The notice is an impossible length, which a receiver refuses, then the marker, the reason and a zero |
| ConnectionLocks.TextsOfConstants | src/server/connection.cpp:110 | The marker is the text _Error:, the reason for a failed send is server failed to send |
| ConnectionLocks.NothingAfterTheNotice | src/server/connection.cpp:104-147 | Once the notice has begun no packet is begun any more, and after the shutdown the wire never changes |
| ConnectionLocks.ClientDeliversWhatWasSent | src/server/contexts/sessionscontrol.cpp:125-166 | In every run, a client that has received any part of the frames has delivered a prefix of the packets sent to it, all of them once all frames have come |
| TunDevice.DoKeepsInv | src/shared/tun.cpp:65-173 | Every step keeps flags, lock owner, outstanding operation and queued completions consistent |
| TunDevice.OneOperationAtATime | src/shared/tun.cpp:65-173 | In every run, also between the reader's taking the lock and its setting the read flag, at most one read or write is outstanding, always the lock holder's, and the read flag is set only while a reader holds the lock |
| TunProgress.HeldLockIsOnItsWay | src/shared/tun.cpp:65-173 | In every reachable state in which the lock is held, its holder is about to read, has an operation outstanding, or has its completion in the run queue; and the reader is idle, trying, or the holder |
| TunProgress.HeldLockIsGivenBack | src/shared/tun.cpp:134-173 | From every reachable state with the lock held, the holder's own operation and at most two rounds of the run queue lead to a state with the lock free |
| TunProgress.NoWriterIsForgotten | src/shared/tun.cpp:113-160 | In every run each call of write that has begun has returned, or is queued or outstanding, exactly once |
| TunDevice.FailurePutsWriterFirst | src/shared/tun.cpp:113-134 | A writer whose attempt fails because of the reader, whether or not the reader has set its flag yet, stands in the run queue before any attempt of the reader |
| TunDevice.WriterStaysFirst | src/shared/tun.cpp:72-78 | It stays so with every step until the lock is acquired, and then a writer acquires it |
| TunDevice.WriterGoesFirst | src/shared/tun.cpp:113-134 | In every run, after a writer's attempt fails because the reader holds the lock, the next to acquire the lock is a writer |
| TunDevice.CancellingWriterGetsTheLock | src/shared/tun.cpp:129-134 | In every run, a writer whose cancel ends a pending read acquires the lock itself within two rounds of the run queue if nothing else comes in between |
| TunDevice.LateCancelCanHitAWrite | src/shared/tun.cpp:114-134 | A run in which a writer's cancel ends another writer's operation |
| TunDevice.CancelHitsIff | src/shared/tun.cpp:114-134 | Exactly when: the cancelling job runs while a write is outstanding |
| TunDevice.Lock.MoveFrom | src/shared/tun.hpp:35 | A move construction leaves exactly one token that will clear the flag |
| TunDevice.Lock.Assign | src/shared/tun.hpp:35 | A move assignment into an empty token leaves exactly one releasing owner, into an owner of the same flag changes nothing, into the owner of another flag leaves that flag with no owner and as it is |
| TunDevice.Lock.Destroy | src/shared/tun.hpp:34 | Destruction clears the flag that is owned, if any |
| FlatMap.ToMapKeys | src/shared/flat_map.hpp:15-17 | The two vectors stand for a map with exactly these keys |
| FlatMap.ToMapAt | src/shared/flat_map.hpp:15-17 | The value beside a key is the value of that key |
| FlatMap.ToMapUnique | src/shared/flat_map.hpp:15-17 | A map with these keys and values is the only one that the vectors stand for |
| FlatMap.InsertRefines | src/shared/flat_map.hpp:66-73 | Inserting at the place of the key keeps keys increasing, values aligned, and is the map update |
| FlatMap.EraseRefines | src/shared/flat_map.hpp:95-97 | Erasing at one index keeps keys increasing, values aligned, and is the map removal |
| FlatMap.Map.BinarySearch | src/shared/flat_map.hpp:18-42 | Finds a key exactly when it is there, with no index out of range although the size arithmetic wraps around |
| FlatMap.Map.At | src/shared/flat_map.hpp:45-51 | Map lookup, or the error when the key is missing |
| FlatMap.Map.Contains | src/shared/flat_map.hpp:52-54 | Membership |
| FlatMap.Map.Insert | src/shared/flat_map.hpp:55-74 | Map update for a new key; a key that exists is refused and nothing changes |
| FlatMap.Map.Remove | src/shared/flat_map.hpp:89-98 | Map removal, with the two errors for an empty map and a missing key |
| FlatMap.Map.AtTryFirst | src/shared/flat_map.hpp:100-112 | Agrees with `at` for every hint up to the size |
| Sweep.SwapRemove | src/server/contexts/sessionscontrol.cpp:393-394 | Moving the last element into a place and dropping the last place removes just that element and leaves all places before it |
| Sweep.Control.TakeOut | src/server/contexts/sessionscontrol.cpp:402-404 | With connections appended during the close, the rest is the old rest without the closed one plus the new ones |
| Sweep.Control.CloseOldSessions | src/server/contexts/sessionscontrol.cpp:384-410 | Exactly the connections there at the start and those that arrived meanwhile are examined, each as often as it occurs; what was found inactive or too old is passed to close, and what remains is exactly the others |
| Sweep.LookedAtOnce | src/server/contexts/sessionscontrol.cpp:384-410 | If all connections are different, none is examined twice and none is left out |
| Sweep.VerdictsPart | src/server/contexts/sessionscontrol.cpp:384-410 | Every examined connection is closed or kept, none lost or duplicated |
| Sweep.SurvivorsWereBusyOrYoung | src/server/contexts/sessionscontrol.cpp:386-409 | Every survivor had been found busy, or active and younger than the limit |
| Sweep.ClosedWereInactiveOrOld | src/server/contexts/sessionscontrol.cpp:386-405 | Every closed connection had been found inactive, or active and no younger than the limit |
| Sweep.VerdictsByLook | src/server/contexts/sessionscontrol.cpp:386-409 | Look by look, a connection is kept iff it was busy, or active and young, else closed |
| Sweep.ArrivedHas | src/server/contexts/sessionscontrol.cpp:393-404 | What has arrived in the first suspensions is what was accepted in any of them |
| Sweeps.NothingLostOrClosedTwice | src/server/contexts/sessionscontrol.cpp:384-410 | For every interleaving of any number of sweeps, connections plus closed ones are those at the start plus those that arrived, none closed twice and none both there and closed |
| Sweeps.ClampChangesNothing | src/server/contexts/sessionscontrol.cpp:396-397 | Whether or not an index beyond the end is set back to the end, the test that follows ends the sweep, so no index out of range is used |
| Sweeps.IndexCanLieBeyondTheEnd | src/server/contexts/sessionscontrol.cpp:396-397 | A run with two sweeps in which the index of a suspended one lies beyond the end |
| Sweeps.ArrivalCanBeMissed | src/server/contexts/sessionscontrol.cpp:384-410 | A run in which a connection arrives while a suspended sweep's index lies beyond the end, and that sweep ends without looking at it |
| Sweeps.DoKeepsCovered | src/server/contexts/sessionscontrol.cpp:384-410 | Every step of every sweep keeps each original connection looked at and left, or still before some sweep |
| Sweeps.SweepsTogetherMissNothing | src/server/contexts/sessionscontrol.cpp:384-410 | Once all sweeps are done, every connection that was there when one of them began and is there still has been looked at by one of them since, and left |
| Sweeps.OneSweepCanMiss | src/server/contexts/sessionscontrol.cpp:384-410 | A run in which one sweep ends without having looked at a connection that was there all along |
| OptionParser.Tokens.PopFlag | src/shared/misc/lyra.hpp:1186-1202 | Going past a flag stays at a legal place and strictly advances |
| OptionParser.Tokens.PopValue | src/shared/misc/lyra.hpp:1204-1214 | Going past an option with its value never passes the end and strictly advances |
| OptionParser.PairIsRead | src/shared/misc/lyra.hpp:1242-1271 | A long name, an equals sign and any text, delimiters included, is a pair of just that name and that text |
| OptionParser.PairsAreSuch | src/shared/misc/lyra.hpp:1242-1271 | Every pair is of that form |
| OptionParser.LongNamesAreSuch | src/shared/misc/lyra.hpp:1290-1303 | A long name is two dashes followed by a text that does not start with a dash and has no delimiter |
| OptionParser.PairTokens | src/shared/misc/lyra.hpp:1242-1286 | A pair is recognised as a long option with a value and takes up one argument |
| OptionParser.PairAtPlace | src/shared/misc/lyra.hpp:1242-1286 | At a place that holds `--name=value` the option read is `--name` and the value read is `value` |
| OptionParser.LongNameAtPlace | src/shared/misc/lyra.hpp:1204-1286 | A long name alone takes the next argument as its value, if there is one, and then takes up two arguments |
| OptionParser.ShortOptionAtPlace | src/shared/misc/lyra.hpp:1186-1286 | In a group of short options each character is an option; as a flag it takes up just that character, and its value is the rest of the argument or else the next one |
| OptionParser.ShortPairAtPlace | src/shared/misc/lyra.hpp:1262-1267 | `-c=value` is the option `-c` with that value |
| OptionParser.NormalizeIsIdentity | src/shared/misc/lyra.hpp:4607-4619 | In the POSIX style normalisation changes no name at all |
| OptionParser.MatchIsMembership | src/shared/misc/lyra.hpp:4596-4605 | An option matches a name iff the name is one of its own |
| OptionParser.Cli.Try | src/shared/misc/lyra.hpp:4491-4570 | When one option is refused as invalid, does not match, stops everything, lacks its value or matches, in terms of its names and the place; what it then stores and where parsing goes on |
| OptionParser.Cli.ParseOption | src/shared/misc/lyra.hpp:4491-4570 | Does just that, and binds the option's variable and no other |
| OptionParser.Cli.TryPair | src/shared/misc/lyra.hpp:4491-4570 | A `--name=value` argument matches exactly the option with that name; it binds exactly the value, or is an error that stops everything if the option is a flag |
| OptionParser.ReadOne | src/shared/misc/lyra.hpp:2656-2660 | One more pair taken keeps counts, known names and bound variables in step with the pairs read |
| OptionParser.Refused | src/shared/misc/lyra.hpp:2614-2631 | A pair that no option may take any more, or that names a flag, makes the arguments unacceptable whatever follows |
| OptionParser.Cli.TryAll | src/shared/misc/lyra.hpp:2610-2664 | One round over the options, for any token: the first that may still occur and matches takes it and binds its variable, the first that stops everything stops, those before have passed, and the first failure among these is remembered |
| OptionParser.Cli.TurnOnPair | src/shared/misc/lyra.hpp:2610-2664 | On a pair: the one option with its name takes it if it may still occur, a flag stops the parse, else nothing happens, and there is no failure |
| OptionParser.Cli.CountsAreRight | src/shared/misc/lyra.hpp:2691-2704 | The closing check passes iff every option has occurred as often as it must and may |
| OptionParser.Cli.ParseAny | src/shared/misc/lyra.hpp:2588-2706 | On pairs, the parse succeeds with no token left iff every name is known and every option occurs as often as it must and may; then every variable is bound to the text of the last pair that names it |
| OptionParser.CountIsRightMeans | src/shared/misc/lyra.hpp:2696-2700 | The closing check passes iff the count is not below the minimum, nor above the maximum unless that is zero |
| OptionParser.JoinedResult | src/shared/misc/lyra.hpp:3892-3912 | For arguments `n=v`, acceptance and binding of pairs are statements about the names n and the values v |
| OptionParser.Cli.Parse | src/shared/misc/lyra.hpp:3892-3912 | For options with distinct names, of any cardinality, and arguments `n=v` with long names n and any texts v: accepted iff every n belongs to an option with a value and every option is named no less than its minimum and no more than its maximum; then each variable holds exactly the v behind the last of its names, the others are untouched, and no token is left |
| OptionParser.OnceEachAccepts | src/shared/misc/lyra.hpp:2614-2615 | For options that may occur at most once, acceptance is: every name is known and none repeats |
| OptionParser.BindingIsExact | src/shared/misc/lyra.hpp:4542 | A variable named once holds exactly the text of its pair, wherever it stands; one not named is as before |
| OptionParser.CountOfPermutation | src/shared/misc/lyra.hpp:2658 | How often an option is named does not depend on the order of the arguments |
| OptionParser.AcceptsPermuted | src/shared/misc/lyra.hpp:3892-3912 | Acceptance does not depend on the order of the arguments |
| OptionParser.OrderDoesNotMatter | src/shared/misc/lyra.hpp:3892-3912 | Every order of the same pairs is accepted or refused alike and binds every variable that may occur at most once to the same text |

## Left out

- RouteQueue.Consumer.EmptyQueue: what is pushed after the queue was seen empty belongs to the next call; the pushes of one call are finite, and the pointers fit in memory.
- AddressPool.Pool.GetNewAddress: the number of turns is a parameter of the model. The program has no such bound; a search that does not end is one that has not ended for any number of turns.
- Cipher.ServerSession: the RSA envelope around the key material is taken as delivering what the client put in.
- Tunnel.ClientToServer: a send that is cancelled because the client is told to stop, after which the client's loop continues, is not modelled; the first send error ends the loop.
- Tunnel.Socket.Send: an empty buffer is refused, as in a build without assertions.
- FlatMap.Map.BinarySearch: an empty map is excluded, as the program asserts.
- FlatMap.Map.Remove: the narrowing of the found index to `int` is not modelled; keys are integers instead of any strongly ordered type.
- Sweep.Control.CloseOldSessions: one sweep, during which connections are only appended; several sweeps at once are the step system of `Sweeps`.
- ConnectionLocks.WireIsFramesThenNotice: once the peer is gone a message may be cut short, and the peer does not come back. A transfer error on a socket that stays open is not modelled, and neither is the router's branch for a failing encryption, which cannot happen in the model.
- ConnectionLocks.OwnerCanRelease: says nothing of when the router tries again. It does so after a nested call that first moves another packet, so it can hold a packet while the lock is free.
- TunDevice.OneOperationAtATime: one thread runs the queue, so the two stores of a reader that gives up the lock, which nothing separates, are one step.
- OptionParser.Cli.Parse: without the bound on the total number of matches, relaxed evaluation and the other option styles; text variables and flags only, so no numeric conversion, choices or callbacks.
- In-place update of the connection's, the TUN device's and the sessions' shared fields: their methods interleave in the middle, so these fields are values in a step system. `Lock` tokens, the route consumer, the pool, the sockets and the rest are objects.
- Groups, commands, positional arguments and help text of the command line: they would mostly add easy members.
- OpenSSL, RSA, the socket library, coroutines and futures are foreign code. Partial transfers, errors, arrivals, clocks and ages are parameters.
- Weak memory ordering: atomic accesses are sequentially consistent steps, sections under the call lock are atomic.
- The client's peek for an error notice (`src/client/async.cpp:193-227`), which does not wait for its own receive.
- Routing and TUN setup by shell commands, settings, logging, statistics, signal handling, thread-id checks.
