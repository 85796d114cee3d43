# Verified model of the commit-reveal file transfer

A sender and a receiver move a file over one byte stream in each direction. For every chunk they
go through request, encrypted response with a commitment, lottery ticket and key reveal; at the end
the sender sends a Merkle root over all chunks and the receiver acknowledges it. This project
models that protocol from the bytes up and proves what it promises: for honest pairs of parties in
every interleaving, and for each party alone against every possible input.

## How the model is built

- `Bytes`, `Crypto`: bytes, 32-bit integers, and the hash and the cipher as arbitrary functions
  under two laws: digests have 32 bytes, and what was sealed (up to 32768 bytes) opens again and is
  16 bytes longer. A toy suite shows that the laws can be met. The hash is not assumed injective.
  Where a property rests on it, the statement is "or `Clash`": two different strings, out of the two
  finite sets that the two parties really hashed, with one digest.
- `Merkle`, `Wire`, `Format`, `Partition`: the tree, the seven messages and their bytes, and the
  cutting of a file.
- `Protocol`, `Controllers`, `Transitions`: the states, the transition table, a session as a value (`Snapshot`)
  and the step functions of both roles. A step has five outcomes: next state, past its blocking
  point (`VerifyMerkle` reads and writes, so it is two actions), error, blocked, nil dereference.
- `Scripts`, `SenderProof`, `SenderRun`, `ReceiverProof`, `ReceiverRun`: each role against every
  input. The state and the chunk counter of a session determine how many messages of the two
  scripts are behind it; the invariants say so byte for byte.
- `Faults`: what failing local I/O does to a round and to a run.
- `Honest`, `Joint`, `JointRun`: two honest parties, streams that deliver in arbitrary portions.
- `Agreement`: what each side can conclude from the other when anything may fail locally.
- `Integrity`: root to leaves, leaf to commitment, commitment to plaintext.
- `Streams`, `Sessions`, `Transfer`, `Endpoints`: the same code on mutable streams, chunks and
  sessions; each method is proved against the function on values that it carries out.
- `Service`: a request and its transfer as one system of client and server.
- `Reservation`: the loop that renews a relay reservation.

The environment enters as parameters: the unread input of a session is all that will arrive before
the peer closes; `Io` says for each step whether local I/O works or breaks, and after how many
bytes of a write; `Secrets` holds the random key and nonce of each chunk.

## Results that differ from what one might expect

- A Merkle root alone does not bind the number of leaves (`Merkle.RepeatedLastLeaf`): the exact
  strength is `Merkle.RootBindsTree`. Over the leaves of this protocol it does, whatever count the
  header claims (`Integrity.RootBindsChunks`), because a leaf hashes its index and at least 80
  bytes, an inner node exactly 64.
- A file is copied exactly if it has at most 32768 * (2^32 - 1) bytes; above that the chunk count is
  truncated and a proper prefix arrives, without an error (`Partition.PiecesAreTheFile`,
  `JointRun.CopiesTheFile`). The header's size field is exact below 2^32 bytes only.
- A single refused relay renewal that runs into its 15 s timeout loses the reservation, although
  the loop announces a retry; with fewer than 35 s left a quicker refusal does so too. The exact
  condition is `Reservation.OneRefusal`.
- A sender with no chunks to send finishes before the receiver has seen anything
  (`JointRun.SenderFinishesLast`); with one or more it always finishes last.
- The comment on `BuildAndEncryptChunk` says that it computes the leaf; the code leaves the leaf to the
  key-reveal step, and so does the model.

## Model

| member | source | states |
|---|---|---|
| Bytes.U32RoundTrip | Chunk/chunk.go:68-68 | reading a big-endian 32-bit field returns the number written |
| Bytes.U32Canonical | Chunk/chunk.go:93-93 | every 4-byte string is the encoding of the number read from it |
| Bytes.BigEndian | Chunk/chunk.go:122-122 | numbers are in the order of their bytes compared from the front, which only the big-endian form gives |
| Crypto.Keccak | Utils/utils.go:15-21 | absorbing the arguments one by one hashes their concatenation |
| Merkle.BuildLevel | Merkle/merkle.go:48-65 | node i of the next level is the hash of nodes 2i and 2i+1 of this one, or of 2i twice at an odd end |
| Merkle.BuildTree | Merkle/merkle.go:24-74 | the nested loops return all levels, nothing for no leaves |
| Merkle.RootOfTree | Merkle/merkle.go:76-85 | the first node of the last level is the recursive root, the empty string for no tree |
| Merkle.TreeShape | Merkle/merkle.go:40-74 | ceil(log2 n) + 1 levels, ceil(n / 2^k) nodes in level k, one at the top |
| Merkle.HeightIsCeilLog2 | Merkle/merkle.go:46-71 | the number of levels above the leaves is the binary logarithm rounded up |
| Merkle.RootSize | Merkle/merkle.go:76-85 | the root over one or more 32-byte leaves has 32 bytes |
| Merkle.BottomUpIsTopDown | Merkle/merkle.go:40-74 | the level-by-level root equals the top-down recursion that splits at a power of two and repeats a half that is not filled, for every leaf count, hashing no string that the loop does not hash |
| Merkle.DigestBindsTree | Merkle/merkle.go:62-62 | two trees of one height with one digest are equal, or two of their inputs collide |
| Merkle.RootBindsTree | Merkle/merkle.go:24-85 | over one height: equal trees give equal roots, and equal roots mean equal trees or a collision among the strings hashed |
| Merkle.RootBindsLeaves | Merkle/merkle.go:24-85 | equally many leaves under one root are the same leaves, or a collision is in hand |
| Merkle.RepeatedLastLeaf | Merkle/merkle.go:58-60 | repeating the last of an odd number of leaves keeps the root: no binding without equal counts |
| Merkle.HeightsClash | Merkle/merkle.go:62-62 | one digest over two heights collides if leaves hash strings that are not 64 bytes long |
| Wire.RoundTrip | Chunk/chunk.go:64-286 | every reader returns the message written and leaves exactly what follows |
| Wire.DecodeExact | Chunk/chunk.go:22-286 | a reader accepts nothing but encodings: what it took re-encodes to the bytes it took |
| Wire.DecodePartial | Chunk/chunk.go:22-31 | in front of a partly arrived message a reader waits exactly until it is complete, never rejects it, and then takes exactly that message |
| Wire.PrefixCode | Chunk/chunk.go:12-20 | no message is the beginning of another: the first message of a stream and the rest are determined |
| Wire.StreamRoundTrip | Chunk/chunk.go:64-286 | any sequence of messages decodes to itself, leaving exactly what follows |
| Wire.UniqueParsing | Chunk/chunk.go:12-20 | two message sequences with one encoding are the same sequence |
| Wire.PrefixParsing | Chunk/chunk.go:12-20 | an encoding that begins the encoding of another message sequence is that of a first part of it |
| Format.FrameLayout | Chunk/chunk.go:12-286 | every frame by position: sentinels 1 to 7, sizes 45 + name, 5, 53 + ciphertext, 5, 37, 33 and 1, and where each field begins and ends |
| Format.LeafLayout | Merkle/merkle.go:14-20 | a leaf hashes exactly 80 bytes and the ciphertext: ID, index, nonce, ciphertext, commitment at their positions |
| Partition.PiecesAreTheFile | Controllers/controllers.go:25-29 | the chunks concatenate to the file if and only if the size is at most 32768 * (2^32 - 1) |
| Partition.PiecesCoverPrefix | Chunk/chunk.go:291-298 | the first n chunks concatenate to the first 32768 n bytes of the file |
| Partition.PieceSizes | Chunk/chunk.go:291-298 | for a file of any size, all chunks that are sent are full but the last, which has 1 to 32768 bytes |
| Partition.FileSizeField | Controllers/controllers.go:27-28 | the size field is exact if and only if the size is below 2^32, and then there are at most 131072 chunks |
| Partition.Truncation | Controllers/controllers.go:27-29 | size field and chunk count differ from the true ones by multiples of 2^32 only |
| Controllers.RoundIsActs | Protocol/fsm.go:13-40 | one round of Run is one action of the party, or both halves of VerifyMerkle |
| Transitions.TableIsExact | Protocol/session.go:62-88 | the table allows a transition if and only if some step of one of the roles makes it |
| Scripts.SenderAdvances | Controllers/controllers.go:93-185 | every successful sender step moves the session one place on in the order of the protocol and keeps the chunk counter in range |
| Scripts.ReceiverAdvances | Controllers/controllers.go:205-326 | the same for the receiver, which learns the number of chunks on the way |
| Scripts.NextLine | Chunk/chunk.go:22-31 | a reader at line k of a script, on a stream that agrees with the script, waits until line k is complete and then takes it |
| Scripts.ChunkLines | Chunk/chunk.go:303-318 | chunk i goes out as the file's bytes at its offset, sealed by the cipher under the key and the nonce drawn for chunk i, with the hash of that key and those bytes; the key revealed later is that key |
| Scripts.SecretsAreLocal | Chunk/chunk.go:306-312 | response and key of chunk i depend on no secrets but those of chunk i |
| SenderProof.ActKeepsInv | Controllers/controllers.go:93-185 | every action of the sender, on any input and with any local failure, keeps output and consumed input on the two scripts, or fails within the key-release discipline |
| SenderProof.Progress | Controllers/controllers.go:113-185 | while the input agrees with the receiver's script no sender step fails, and it waits only for the rest of a message |
| SenderRun.KeyRelease | Controllers/controllers.go:113-173 | after any number of rounds against any peer: output is a prefix of the script, no byte of response i, which is sealed under the key of chunk i, is out before request i, and none of that key before ticket i |
| SenderRun.SecretsStayHome | Controllers/controllers.go:113-173 | two senders whose secrets agree for the chunks requested in the input are in one state after any number of rounds: nothing depends on the secrets of chunks not asked for |
| SenderRun.SessionInvariant | Protocol/session.go:62-101 | at every loop head: a step is registered, transitions are in the table, no nil dereference, a chunk is pending exactly while in flight, one leaf per confirmed chunk, the counter and its logged successor never wrap |
| SenderRun.RootFrame | Controllers/controllers.go:175-179 | the root is only sent over one or more leaves, in a frame of 33 bytes |
| SenderRun.Terminates | Protocol/fsm.go:13-40 | after 4n + 3 rounds (2 for no chunks) the sender is Finished or in Error |
| SenderRun.FinishesIffScript | Controllers/controllers.go:113-185 | with working I/O the sender finishes if and only if its input begins with the receiver's script, 10n + 1 bytes for n > 0 chunks, and has then sent its whole script |
| SenderRun.SenderBytes | Chunk/chunk.go:64-282 | a whole transfer of n > 0 chunks takes 78 + name + 106n bytes and the file, an empty one 45 + name |
| ReceiverProof.ActKeepsInv | Controllers/controllers.go:205-326 | every action of the receiver, on any input and with any local failure, keeps the session explained by the messages taken, or fails with its file and output still explained by them |
| ReceiverProof.Progress | Controllers/controllers.go:209-326 | on a valid transcript no receiver step fails, and it waits only for the rest of a message |
| ReceiverRun.Safety | Controllers/controllers.go:249-306 | on any input, in every state of every run: short of an error every field of the session, the file and the output are explained by the messages read, which are in the input; after an error the file and the output still are |
| ReceiverRun.AnswersInOrder | Controllers/controllers.go:241-326 | in every state, errors included: no byte of request i is out before the header and the chunks before i are in, none of ticket i before response i, none of the ack before the root, and no byte is in the file that is not part of a checked chunk |
| ReceiverRun.FileIsChecked | Controllers/controllers.go:280-306 | on any input, in every state, the file is the concatenation in index order of plaintexts to which the cipher opened and whose hash with the key is the commitment; short of an error all are there in full with one leaf each, after one the last may be cut short |
| ReceiverRun.SessionInvariant | Protocol/session.go:62-101 | the receiver's session invariant, as for the sender |
| ReceiverRun.Terminates | Protocol/fsm.go:13-40 | a receiver makes at most 5n + 3 rounds (2 for no chunks) for whatever n the header names |
| ReceiverRun.FinishedMeans | Controllers/controllers.go:308-326 | a finished receiver was given a valid transcript with a matching root, holds exactly its file and has sent exactly its script |
| ReceiverRun.TranscriptFinishes | Controllers/controllers.go:209-326 | with working I/O an input that begins with a valid transcript makes the receiver finish with its file |
| ReceiverRun.FinishesIffTranscript | Controllers/controllers.go:209-326 | with working I/O the receiver finishes if and only if its input begins with a valid transcript |
| Faults.BreakCutsOff | Controllers/controllers.go:97-326 | for any session: a step that does I/O ends in an error when it breaks, and has then written just the first bytes of what it would have written, on the stream and to the file |
| Faults.OthersDoNone | Controllers/controllers.go:97-326 | every other step is the same whatever local I/O does |
| Faults.NoFileNoAnswer | Controllers/controllers.go:221-224 | a receiver that cannot create its file is in Error from then on and has sent nothing, on any input |
| Faults.SenderFinishesIff | Protocol/fsm.go:13-40 | under arbitrary failures: the sender finishes if and only if its input begins with the receiver's script and each of the rounds that do I/O, given by number, gets through |
| Faults.ReceiverFinishesIff | Protocol/fsm.go:13-40 | under arbitrary failures: the receiver finishes if and only if its input begins with a valid transcript and each of the rounds that do I/O for its n chunks gets through |
| Faults.SenderTakesNothingBack | Protocol/fsm.go:13-40 | output and leaves of a sender only grow, errors included |
| Faults.ReceiverTakesNothingBack | Protocol/fsm.go:13-40 | output, file and leaves of a receiver only grow, errors included |
| Honest.ChunkArrives | Chunk/chunk.go:303-318 | a chunk that was built, encrypted and sent opens, matches its commitment and equals the sent chunk in every field but Length, which is 16 more than the plaintext's |
| Honest.HonestTranscript | Controllers/controllers.go:93-185 | the honest sender's messages are a valid transcript of the file, up to the truncation of the chunk count |
| Joint.ReachableInv | Controllers/controllers.go:93-326 | in every interleaving and delivery both parties stay on script with what was delivered to them |
| JointRun.CopiesTheFile | Controllers/controllers.go:93-326 | in every reachable state: no error, the receiver's leaves a prefix of the sender's and at most one behind, its file a chunk-aligned prefix of the source; at the end name, ID and file are the source's, the file exactly when the size allows, and the size field is the size modulo 2^32 |
| JointRun.HalfDuplex | Controllers/controllers.go:113-326 | the sides are never both about to write; the unread bytes in each direction are exactly the script messages that are written and not yet read, at most two in all, and two only as the last key and the root |
| JointRun.StuckIffFinished | Controllers/controllers.go:113-326 | no action or delivery can change the world if and only if both sides have finished |
| JointRun.MaximalRunsCopy | Controllers/controllers.go:93-326 | an honest run that goes on until nothing can happen ends with the file copied, exactly when its size allows |
| JointRun.SenderFinishesLast | Controllers/controllers.go:97-185 | in every run a finished sender means a finished receiver, if and only if there are one or more chunks |
| JointRun.RunsAreBounded | Protocol/fsm.go:13-40 | an honest run has at most 9n + 8 effective actions plus one for each byte to deliver |
| Agreement.ReceiverKnows | Controllers/controllers.go:308-326 | with any local failures on both sides and a stream cut off anywhere, a receiver that finishes on an honest sender's bytes holds that sender's file (exactly when its size allows), name, ID and count; no collision to except |
| Agreement.SenderKnows | Controllers/controllers.go:175-185 | with any local failures on both sides and streams cut off anywhere, a sender that finishes knows that the receiver's file is the source, exactly when its size allows, even if the receiver then failed |
| Integrity.LeafBinds | Merkle/merkle.go:9-21 | equal leaves come from one chunk at one index with one key and plaintext, or two hashed strings collide |
| Integrity.RootBindsChunks | Merkle/merkle.go:9-85 | one root over two lists of chunks of any lengths: the same chunks, or a collision among the strings hashed |
| Integrity.EndToEnd | Controllers/controllers.go:280-326 | for any input and any claimed chunk count, a receiver that finishes with an honest sender's root holds that sender's file, ID and count, or a collision is in hand |
| Streams.Stream.ReadFull | Chunk/chunk.go:22-31 | reading in arbitrary portions fills the buffer with the next bytes, and fails exactly when the stream is too short |
| Streams.SendHeader | Chunk/chunk.go:64-81 | appends the encoded header, or a prefix of it when the write breaks |
| Streams.ReadHeader | Chunk/chunk.go:83-115 | returns and consumes exactly what the header decoder does, and fails exactly when it does |
| Streams.SendIndexed | Chunk/chunk.go:119-126 | appends an encoded request or ticket |
| Streams.ReadIndexed | Chunk/chunk.go:128-137 | reads a request or a ticket as its decoder does |
| Streams.SendChunkResponse | Chunk/chunk.go:147-165 | appends the encoded response, without the key |
| Streams.ReadChunkResponse | Chunk/chunk.go:167-204 | reads a response as its decoder does |
| Streams.SendKeyReveal | Chunk/chunk.go:231-242 | appends the encoded key |
| Streams.ReadKeyReveal | Chunk/chunk.go:244-259 | reads a key as its decoder does |
| Streams.SendRoot | Chunk/chunk.go:263-266 | appends the encoded root |
| Streams.ReadRoot | Chunk/chunk.go:268-277 | reads a root as its decoder does |
| Streams.SendFinalAck | Chunk/chunk.go:279-282 | appends the acknowledgement |
| Streams.ReadFinalAck | Chunk/chunk.go:284-286 | reads the acknowledgement as its decoder does |
| Sessions.ComputeResponseCommitment | Utils/utils.go:32-34 | the hash of the key followed by the plaintext |
| Sessions.GenerateLeaf | Merkle/merkle.go:9-21 | the hash of file ID, big-endian index, nonce, ciphertext and commitment, in this order |
| Sessions.BuildAndEncryptChunk | Chunk/chunk.go:303-318 | a fresh chunk holding the cipher's output under its key and nonce, and the hash of key and plaintext |
| Sessions.DecryptAndCheck | Utils/utils.go:84-114 | succeeds exactly if the cipher itself opens and the hash of key and plaintext is the commitment; returns no plaintext otherwise, though it is stored when only the commitment does not match |
| Sessions.ReadChunkPlaintext | Chunk/chunk.go:291-298 | the bytes at the chunk's offset, cut off at the end of the file |
| Sessions.Session.constructor | Protocol/session.go:47-54 | a new session is idle, with nothing known, pending or confirmed |
| Sessions.Session.Transition | Protocol/session.go:62-88 | the state changes exactly if the table allows it |
| Transfer.StepSenderSendHeader | Controllers/controllers.go:97-111 | the session object changes as the step function on values says |
| Transfer.StepSenderExpect | Controllers/controllers.go:113-122 | waiting for a request or a ticket of the current chunk, on the session object |
| Transfer.StepSenderSendChunkResponse | Controllers/controllers.go:124-141 | building, sending and keeping the pending chunk, on the session object |
| Transfer.StepSenderSendKeyReveal | Controllers/controllers.go:154-173 | revealing the key, recording the leaf, moving on, on the session object |
| Transfer.StepSenderVerifyMerkle | Controllers/controllers.go:175-185 | sending the root and waiting for the acknowledgement, on the session object |
| Transfer.StepReceiverReceiveHeader | Controllers/controllers.go:209-239 | taking over the header and starting an empty file, on the session object |
| Transfer.StepReceiverSend | Controllers/controllers.go:241-246 | sending a request or a ticket for the current chunk, on the session object |
| Transfer.StepReceiverWaitChunkResponse | Controllers/controllers.go:249-259 | keeping a response for the current chunk, on the session object |
| Transfer.StepReceiverWaitKeyReveal | Controllers/controllers.go:268-278 | adding the key to the pending chunk, on the session object |
| Transfer.StepReceiverVerifyChunk | Controllers/controllers.go:280-306 | checking, recording and writing the chunk, on the session object |
| Transfer.StepReceiverVerifyMerkle | Controllers/controllers.go:308-326 | comparing roots and acknowledging, on the session object |
| Transfer.TakeStep | Controllers/controllers.go:56-64 | the two step tables: the step taken is the one of the current state |
| Transfer.TakeRound | Protocol/fsm.go:14-39 | one pass of the loop: step, then transition or failure |
| Transfer.Run | Protocol/fsm.go:13-40 | ends within 4n + 3 or 5n + 3 rounds, Finished exactly on success and in Error otherwise, in the state that the run on values reaches |
| Endpoints.SendFile | Controllers/controllers.go:67-91 | writes within the key-release discipline whatever arrives; succeeds only on the receiver's script, having sent its own, and does succeed on it when I/O works |
| Endpoints.ReceiveFile | Controllers/controllers.go:189-192 | file and answers are explained by messages in the input whatever happens; succeeds only on a valid transcript, with its file and all answers, and does succeed on one when I/O works |
| Endpoints.RunLater | Server/server.go:135-183 | a session behaves alike whatever was written to the stream before it |
| Endpoints.RequestFile | Client/client.go:40-65 | appends the request; only GET and POST carry a type |
| Endpoints.ReadRequest | Server/server.go:140-162 | reads type and path off the stream, consumes exactly the request, and fails exactly when the stream ends too early |
| Endpoints.HandleStream | Server/server.go:135-183 | whatever arrives: parses the request, then sends or receives on exactly the rest of the stream with all that SendFile or ReceiveFile promises; with nothing to do it writes nothing |
| Endpoints.RequestLayout | Client/client.go:40-65 | a request by position: type 0 for GET and 1 for POST, path length, path |
| Endpoints.ServerReads | Server/server.go:140-182 | for any bytes at all: when the request is complete, which bytes are the path and which the session's, and that types 0 and 1 start a sender and a receiver and every other type nothing |
| Endpoints.RolesFit | Client/client.go:147-167 | the two ends take complementary parts for a GET of type 0 and a POST of type 1, and in no other case |
| Endpoints.PreambleComposes | Server/server.go:140-182 | for GET and POST the server recovers type and path and stops at the first byte of the session if and only if the path length fits 32 bits; the two ends then take complementary roles |
| Endpoints.ParsePartial | Server/server.go:140-162 | on any part of a request and what follows it the server waits until the request is complete, and then takes exactly the request |
| Service.RequestIsTransparent | Server/server.go:135-183 | a client writing its request and going straight on, a server starting its session behind it, in every order of events and portions: the two sessions are in a state that honest sessions reach without a request, for every path whose length fits 32 bits |
| Service.StuckIffServed | Server/server.go:135-183 | nothing more can happen to a GET or POST if and only if both ends have finished |
| Service.CallCopies | Client/client.go:147-167 | a whole GET or POST that goes on until nothing can happen: both ends have finished and the end that receives has the file, exactly when its size allows |
| Reservation.KeepAlive | P2P/host.go:293-312 | the loop over any list of attempts computes the clock and whether the reservation ever lapsed |
| Reservation.Continuity | P2P/host.go:293-312 | a relay that answers within t and grants more than g never lets the reservation lapse, if and only if t < 30, more than t + 5 s are left at the start and g is at least 2t + 5; for the 15 s timeout: 20 s and 35 s |
| Reservation.OneRefusal | P2P/host.go:302-308 | a refused call is survived if and only if it and the next call together take less than 15 s, or less than what exceeds 20 s when fewer than 35 s are left at the start |
| Reservation.Spacing | P2P/host.go:295-308 | the next call comes at least 5 s after the previous one returned, 15 s after a refusal |

## Left out

- AES-GCM and Keccak themselves: only the laws named above; that no collision is feasible is not a statement of this model.
- The random source: keys and nonces are arbitrary strings of the right size, so nothing is said about how hard they are to guess.
- The file ID as a hash of name, size and time: any 32-byte string stands for it. File names are shorter than 2^32 bytes.
- The file system: the source file is a constant byte string, the output a growing one; directories, handles and closing are part of whether a step's I/O works.
- libp2p: host construction, relay service, hole punching, identities, connection logging, and the ideal clock of the reservation loop.
- Process exits through log.Fatal, command-line handling, log output and state names.
- The session mutex: one goroutine drives a session.
- Memory: a reader allocates whatever length a peer announces, up to 2^32 bytes.
- Bytes of a message that a blocked reader has already taken off the stream count as unread until the message is complete.
- Endpoints.HandleStream: every path names a file (`disk` is total); a path that cannot be opened ends the process in the source.
- Streams.SendIndexed: stands for both SendChunkRequest and SendLotteryTicket, whose bodies differ only in the sentinel; likewise ReadIndexed, StepSenderExpect and StepReceiverSend.
