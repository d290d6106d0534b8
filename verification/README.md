# rama-pg in Dafny

A model of rama-pg, a proxy for the Postgres wire protocol, and proofs about it. The proxy leases backends to many
clients, authenticates both sides with SCRAM-SHA-256, reads and writes framed messages, mediates cancel requests and can
answer queries by itself. `dafny verify dfyconfig.toml` checks everything.

## How the model is laid out

* `Bytes`, `Text`, `Base64`: bytes, big-endian integers, UTF-8 validity, separators, decimals, base64. A byte is an integer
  from 0 to 255; 32-bit wrap-around is written out.
* `Codec`: the tagged-message framing. `ParseOne` and `ParseAll` say what a byte stream means; the three readers of the
  source are methods over a `Transport` that hands out bytes in arbitrary pieces, and each is proved to compute that
  meaning. `BackendMessages` holds the messages the proxy builds in a backend's place.
* `Startup`: the startup phase, its parser, printers and frame reader.
* `Session`, `Routing`, `Script`, `PooledRelay`: one pooled client. `Session.Next` is an automaton over completed I/O. `Routing`
  splits a history into leases and says from the events alone how each ends and what goes where. `Script` says, kind of await
  by kind of await, what I/O a sequence of await outcomes calls for, and what that means for whole scripts. `PooledRelay.Task`
  is the nested-loop program of the source; it is proved to do exactly the I/O its script calls for, which is a run of the
  automaton.
* `PoolWorld`, `PoolSafety`, `PoolDiscipline`, `PoolBackend`, `PoolRefinement`, `PoolExamples`: any number of clients and connections,
  interleaved in any order, failing or aborted at any await. The library pool under the source's `BackendPool` is replaced by a
  contract: a take returns an idle connection with an equal key or establishes a new one, within capacity, and idle
  connections may be evicted at any time. `PoolSafety` holds what every run keeps, with nothing assumed about clients or
  backends. `PoolDiscipline` adds the half-duplex assumption of src/proxy/pooled.rs:291-294 as hypotheses. A client with a
  request outstanding sends only copy data or a Terminate, and its next request after extended-protocol messages is a Sync;
  a user and database always come with one startup frame. A backend follows section 55.2 of the PostgreSQL documentation:
  each request is answered by one ReadyForQuery at the end, at once or when the copy-in it began is over, while after an
  extended-protocol error it may discard everything up to Sync; it says nothing unasked; and a successful reset restores the
  post-startup state. `PoolBackend` is such a backend, with session settings, a transaction status, both kinds of copy-in and
  discarding to Sync, whatever its queries do. `PoolRefinement` simulates the pool by a system that dials a new backend for
  every transaction. `PoolExamples` has the runs that break these conclusions when an assumption is dropped.
* `Cancel`: the cancellation registry as critical sections, a cancel being two of them, and the objects that take them.
* `RoundRobin`: the wrapping replica counter.
* `ScramCrypto`, `ScramSecret`, `ScramMessages`, `ScramServer`, `ScramClient`, `ScramChain`: SCRAM-SHA-256 over an
  uninterpreted hash. Both sides are functions of the bytes the other side sends, and methods proved to compute them; `Talk`
  lets the two sides answer each other round by round.
* `Direct`: the direct forwarder's startup relay. `Connector`: establishing a pooled backend. `QueryText` and `Custom`: the text
  of a query, and the in-proxy query session with its cancel tokens.

Two facts about the code that the model records as it is. A pool's key leaves the startup frame out, so a reused backend may
have been started with another client's parameters: for any two frames there is a run in which it was
(`PoolExamples.StartupFramesCanMix`), and if clients of one user and database all bring one frame it never was, whatever else
happens (`PoolSafety.BackendsHaveOwnStartup`). An iteration count of 0 derives the same keys as 1
(`ScramCrypto.Pbkdf2HmacSha256`).

## Model

| member | source | states |
|---|---|---|
| `Codec.ParseAllSplit` | src/protocol/codec.rs:243-283 | after any number of whole frames, the rest of a stream parses to exactly the remaining frames and the same ending |
| `Codec.ParseAllConcat` | src/protocol/codec.rs:199-207 | whole frames sent back to back parse to themselves and a clean end |
| `Codec.FrameRoundTrip` | src/protocol/codec.rs:199-207 | a built frame is read back, tag, body and following bytes, if and only if body length + 4 is within the cap |
| `Codec.FramesExactly` | src/protocol/codec.rs:62-132 | a frame is at the front of a stream if and only if its length field is its own length without the tag, within the cap, and that many bytes are there |
| `Codec.ReadHeader` | src/protocol/codec.rs:62-74 | five bytes are consumed whether the length is accepted or not; a short stream is consumed whole |
| `Codec.ReadMessageCapped` | src/protocol/codec.rs:179-197 | for every pacing of reads, and whether the peer closes or the connection breaks, the result and the bytes left are those of the stream's own parse |
| `Codec.CopyBodyTo` | src/protocol/codec.rs:95-119 | copies exactly the body for any scratch size, and of a body cut short exactly the whole buffers that were there; an empty scratch fails only for a non-empty body |
| `Codec.ReadStreamed` | src/protocol/codec.rs:90-132 | header plus streamed body agrees with the stream's own parse, for any non-empty scratch, on streams that close or break |
| `Codec.FramedReader.ReadFrame` | src/protocol/codec.rs:244-283 | cancel-safe: buffered plus unread bytes change only by the returned frame, which is the first frame of the stream and leaves the buffer empty; failures say what is wrong with the stream, not how it was cut |
| `Codec.ReadAll` | src/protocol/codec.rs:244-283 | for every stream, chunking and set of calls dropped midway, the frames returned are the first of the stream's parse, and returned, buffered and unread bytes together are the stream |
| `Codec.ReadThreeWays` | src/protocol/codec.rs:62-283 | the three framing paths give the same frame and leave the same bytes, and differ only at a clean end of stream; a rejected header costs five bytes |
| `Startup.NegotiationSettles` | src/protocol/startup.rs:40-54 | negotiation keeps the major version, caps the minor, is idempotent, and leaves a version alone exactly when its minor is supported, negative codes included |
| `Startup.CStrRoundTrip` | src/protocol/startup.rs:319-330 | reading a C string returns s and rest exactly when the buffer is s, a NUL and rest, with s NUL-free |
| `Startup.ParseParameters` | src/protocol/startup.rs:305-317 | the loop computes the meaning of a parameter list, and ends |
| `Startup.ParsedIsPrintedPrefix` | src/protocol/startup.rs:225-330 | prefix theorem, both ways: a buffer parses to ps exactly when ps is printable and its wire form is a prefix of the buffer |
| `Startup.BuildStartupMessage` | src/protocol/startup.rs:225-240 | the builder's loop prints the parameter list behind version 3.0 and its length |
| `Startup.ReadStartupFrame` | src/protocol/startup.rs:259-273 | reads exactly one length-prefixed frame of 8 to 10000 bytes, or fails as the stream's own parse says |
| `Startup.StartupFrameExactly` | src/protocol/startup.rs:259-273 | a startup frame is at the front of a stream if and only if its first four bytes are its own length, from 8 to 10000, and that many bytes are there |
| `Startup.ReadStartupRequest` | src/protocol/startup.rs:214-220 | reads a frame and parses it; an invalid one is still consumed whole |
| `Startup.StartupRoundTrip` | src/protocol/startup.rs:225-302 | a startup message reads back with its parameters in order and its raw frame intact if and only if keys are non-empty, keys and values NUL-free and the frame within 10000 bytes |
| `Startup.AcceptedStartupReprints` | src/protocol/startup.rs:280-317 | whatever is accepted as a startup message re-prints to a prefix of its own frame, which is kept verbatim |
| `Startup.CancelRoundTrip` | src/protocol/startup.rs:245-295 | a cancel request reads back as its key if and only if the key has eight bytes or more and the frame is within the limit |
| `Startup.AcceptedRequestsAreExact` | src/protocol/startup.rs:280-302 | what is accepted as a cancel, SSL or GSS request is exactly the frame of such a request |
| `Startup.EncryptionRequestsOnTheWire` | src/protocol/startup.rs:57-60 | a completed frame is an SSLRequest if and only if it is the bytes 0 0 0 8 4 210 22 47, and a GSSENCRequest if and only if the last is 48 |
| `Startup.CancelRequestsOnTheWire` | src/protocol/startup.rs:280-295 | a completed frame is the CancelRequest of a key if and only if it is its own length, 4 210 22 46 and a key of 8 bytes or more |
| `Startup.StartupAcceptedExactly` | src/protocol/startup.rs:287-302 | any other frame is accepted as a startup message, of whatever version, if and only if a printable parameter list follows the version |
| `Startup.StartupOnTheWire` | src/protocol/startup.rs:225-240 | a built startup message is its length, the bytes 0 3 0 0 and the list |
| `PooledRelay.Task.RelayToNextRfq` | src/proxy/pooled.rs:283-330 | relays until the next ReadyForQuery and returns its status, a missing one counting as idle; otherwise the lease is on its way out |
| `PooledRelay.Task.Reset` | src/pool.rs:521-540 | succeeds exactly on an explicit idle status, fails on an error, any other status or a broken connection |
| `PooledRelay.Task.RunLease` | src/proxy/pooled.rs:212-267 | the lease is checked in only past an idle boundary and a clean reset; every other way out discards it or aborts |
| `PooledRelay.Task.RelayPooled` | src/proxy/pooled.rs:151-195 | leases for each transaction, sets and clears the slot around it, and always ends with nothing held |
| `PooledRelay.Task.StartupParams` | src/pool.rs:423-440 | a cache hit, or a lease that carries nothing and goes straight back |
| `PooledRelay.Task.Serve` | src/proxy/pooled.rs:75-147 | for every sequence of await outcomes, failures and aborts, a session does exactly the I/O that `Script` says these call for, await by await; that is a complete run of the session automaton, every lease is given back, and the frames routed to backends are a prefix of the frames taken from the client |
| `PooledRelay.DriveRuns` | src/proxy/pooled.rs:75-330 | from any state, whatever the awaits resolve to, the I/O completes a run of the automaton |
| `PooledRelay.PlanRuns` | src/proxy/pooled.rs:75-195 | for every script the I/O is what the script calls for and a complete run of the automaton, every lease is given back, and what was routed is a prefix of what was taken |
| `PooledRelay.Explain` | src/proxy/pooled.rs:75-330 | from any standstill, each await outcome leads to its own answer and to steps that await nothing, and to nothing else |
| `Script.OfferedIsTaken` | src/proxy/pooled.rs:151-330 | for every script, what a session takes from its client, and for it from its backends, is exactly what was offered while it was reading, in order |
| `Script.OfferedIsRelayed` | src/proxy/pooled.rs:283-330 | over whole scripts in which nothing breaks, in every mode: what is written to backends is exactly what the client offered at reads, and what is written to the client exactly what the backends offered outside resets, but for the one message in hand where the script stops |
| `Routing.FramesAreRoutedInOrder` | src/proxy/pooled.rs:169-327 | a session's frames split into contiguous segments, each sent in order and once to a single lease; a failing session loses at most one; no segment ends by check-in unless idle was reported last, and in statement mode no lease that ever reported a transaction is checked in |
| `Routing.LeasesEndExactly` | src/proxy/pooled.rs:229-267 | from the history alone: a lease is discarded if and only if the session was cut short on it, its reset failed, or in statement mode it was left in a transaction; the session ends if and only if something cut it short, so a failed reset does not end it |
| `Routing.TransactionsStayWhole` | src/proxy/pooled.rs:253-255 | in transaction mode every finished lease carried nothing, or held one whole transaction up to its only idle status, or was the last of a session cut short; no transaction is spread over two backends |
| `Routing.RepliesAreRelayedInOrder` | src/proxy/pooled.rs:297-312 | in every mode the client gets exactly what was read from its backends outside resets, in order, but for a message in hand; a session that ends loses at most one |
| `Routing.NothingIsLost` | src/proxy/pooled.rs:283-330 | without a failure nothing is lost in either direction, in any mode, even as the session ends |
| `Routing.TerminateIsPassedOn` | src/proxy/pooled.rs:317-320 | a Terminate from a client that holds a backend is passed on to that backend next, unless the write fails |
| `PoolSafety.PoolSafety` | src/pool.rs:451-563 | over every interleaving, failure and abort: each connection is idle, closed or held by exactly one session; open connections stay within capacity; idle ones carried nothing or had the reset as last write and an explicit idle as last ReadyForQuery |
| `PoolSafety.LeaseMatchesKey` | src/pool.rs:457-471 | a lease hands out a connection established for the very (user, database, replica) it is leased for, and that stays its key for the rest of the run |
| `PoolSafety.HolderMatchesKey` | src/pool.rs:457-467 | a session holds only connections of its own user and database |
| `PoolSafety.BackendsHaveOwnStartup` | src/pool.rs:458-467 | if clients of one user and database all come with one startup frame, then over every interleaving, failure and abort each is served by a backend started with its own frame |
| `PoolSafety.StepsOfAConnection` | src/pool.rs:545-562 | closed stays closed, keys and startup frames never change, and only a check-in makes a connection idle |
| `PoolSafety.ClosedStaysClosed` | src/pool.rs:555-562 | over whole runs, closed connections never come back |
| `PoolSafety.ClientsSeeTheirSessions` | src/proxy/pooled.rs:151-330 | over every interleaving each client's session is a run of its automaton that has read a prefix of what the client sent and given it exactly its replies, so what is proved of session histories holds of every client of the pool |
| `PoolSafety.ReplyDebt` | src/proxy/pooled.rs:229-267 | with nothing assumed: a pooled connection owes exactly the replies its clients pipelined past, and a successful reset leaves the debt unchanged |
| `PoolSafety.SlotsNameHeldBackends` | src/proxy/pooled.rs:179-190 | outside the windows after release, a client's cancel slot names the backend it holds or nothing, so no two slots name one backend |
| `PoolSafety.SessionModeClearsFirst` | src/proxy/pooled.rs:124-136 | in session mode a backend is discarded only after the slot has been cleared |
| `PoolDiscipline.PooledConnectionsAreFresh` | src/proxy/pooled.rs:291-294 | with half-duplex clients, a pooled connection, and one just leased, owes nothing, has empty wires and is in its post-startup state |
| `PoolDiscipline.RepliesAnswerOwnRequests` | src/proxy/pooled.rs:283-330 | with half-duplex clients, the ReadyForQuerys on the wire to a client and its connection's debt never exceed its own outstanding requests, which are at most one |
| `PoolRefinement.ReuseRefinesFreshDialling` | src/proxy/pooled.rs:151-330 | every half-duplex run of a transaction or statement pool gives each client the frames and replies of some run of a system that dials a new backend for each transaction, never resets or reuses one, and whose backends only answer what they are sent, with the same databases at the end |
| `PoolBackend.HonestServersExist` | src/pool.rs:513-540 | a backend with settings, a transaction status, copy-in by Query and by Execute, and discarding to Sync meets the assumptions, whatever its queries do |
| `PoolBackend.DiscardsToSync` | src/proxy/pooled.rs:291-294 | it does discard: after a failing Parse a Query goes unanswered and the Sync is answered |
| `PoolExamples.PipeliningPoolsADebt` | src/proxy/pooled.rs:242-252 | without half-duplex: one pipelined request, and the reset takes its reply for its own; the connection is pooled owing one |
| `PoolExamples.PipeliningMisdirectsAReply` | src/proxy/pooled.rs:283-330 | and the next client is answered before its request has reached the backend |
| `PoolExamples.SlotsOverlapInTheWindow` | src/proxy/pooled.rs:185-187 | inside the release window two clients' slots can name one backend, the exception of `PoolSafety.SlotsNameHeldBackends` |
| `PoolExamples.StartupFramesCanMix` | src/pool.rs:458-467 | for any two startup frames, a client that brought the one can be served by a backend started with the other; `PoolSafety.BackendsHaveOwnStartup` says when it cannot |
| `RoundRobin.ReplicaRing.NextReplica` | src/pool.rs:443-446 | returns the replica at the old counter modulo their number; the counter moves on and wraps |
| `RoundRobin.Balance` | src/pool.rs:443-446 | over any window of fewer than 2^64 counter values two positions differ by at most 1 without a wrap or when the number of replicas divides 2^64, and by at most 2 with one |
| `RoundRobin.PickMany` | src/pool.rs:443-446 | that many calls of `next_replica` pick each position exactly as often as the counter says, so the same bounds hold of the picks |
| `RoundRobin.WrapCanRepeatAReplica` | src/pool.rs:443-446 | the bound of 2 is reached |
| `Cancel.RegistryCancellation.Begin` | src/cancel.rs:202-224 | issues a key of 8 bytes, 32 from protocol minor 2 on, cut from the random bytes, and registers its slot |
| `Cancel.RegistryCancellation.LookUp` | src/cancel.rs:226-227 | the map read of a cancel |
| `Cancel.RegistryCancellation.ReadSlot` | src/cancel.rs:228-234 | the slot read of a cancel: the target to act on, if any |
| `Cancel.RegistryCancellation.Len` | src/cancel.rs:190-193 | the number of live sessions, in every state the registry can reach with distinct live keys |
| `Cancel.CancelHandle.SetTarget` | src/cancel.rs:132-134 | replaces the target of this session's slot alone |
| `Cancel.CancelHandle.ClearTarget` | src/cancel.rs:138-140 | empties this session's slot alone |
| `Cancel.CancelHandle.DropHandle` | src/cancel.rs:143-149 | removes the key this handle was begun with, and leaves every slot as it is |
| `Cancel.CancelRouting` | src/cancel.rs:202-235 | over every interleaving with distinct live keys, a cancel fires the target that, at the slot read, was the latest set and not cleared through the handle of the session the key was issued to; a key whose session had ended at the map read fires nothing |
| `Cancel.LenCountsLiveSessions` | src/cancel.rs:190-222 | with distinct live keys `len` counts live sessions, and a drop removes its own key and no other |
| `Cancel.CollisionLosesASession` | src/cancel.rs:210-216 | after a collision-free run, one more session keeps `len` right if and only if its key is not in use |
| `Cancel.CollisionDropsTheWrongSession` | src/cancel.rs:216-222 | after a collision, dropping the older handle deregisters the live newer session, whose cancels then fire nothing |
| `ScramCrypto.XorIsBitwise` | src/scram/crypto.rs:49-64 | the exclusive or used below is bitwise |
| `ScramCrypto.XorAllCancels` | src/scram/crypto.rs:46-64 | recovering inverts proving: key XOR signature is the proof exactly when proof XOR signature is the key |
| `ScramCrypto.XorKeys` | src/scram/crypto.rs:49-64 | the byte loop of `client_proof` and `recover_client_key` computes it |
| `ScramCrypto.HmacSha256` | src/scram/crypto.rs:73-98 | the array loops compute HMAC as section 2 of RFC 2104 defines it, for every key length |
| `ScramCrypto.Pbkdf2HmacSha256` | src/scram/crypto.rs:102-115 | the in-place loop computes U1 XOR ... XOR Ui, the Hi of section 2.2 of RFC 5802, for i of at least 1; 0 counts as 1 |
| `ScramCrypto.FromPassword` | src/scram/crypto.rs:29-44 | the keys of section 3 of RFC 5802: ClientKey and ServerKey are HMACs under Hi, StoredKey is the hash of ClientKey |
| `Base64.Base64RoundTrip` | src/scram/secret.rs:83-86 | decoding returns b exactly for the encoding of b: canonical padding, no stray bits |
| `Base64.QuadIsBigEndian` | src/scram/secret.rs:83-86 | three bytes are four sextets of the same 24 bits, most significant first |
| `Text.DecimalRoundTrip` | src/scram/secret.rs:50-52 | a printed number parses back exactly when it is below 2^32 |
| `ScramSecret.VerifierRoundTrip` | src/scram/secret.rs:35-81 | every verifier survives its own text |
| `ScramSecret.ParsesExactly` | src/scram/secret.rs:35-57 | a text parses to a verifier if and only if it is that verifier's layout with some accepted numeral for the iteration count |
| `ScramSecret.ReprintsWhenCanonical` | src/scram/secret.rs:72-81 | a parsed text is reprinted as it was exactly when its iteration count was written without sign or leading zeros |
| `ScramMessages.BuildAuthenticationSasl` | src/protocol/message.rs:44-53 | the builder's loop prints the mechanism list and its terminator |
| `ScramMessages.IsAuthExactly` | src/scram/client.rs:140-149 | the frames taken for an authentication sub-type are exactly those built for it |
| `ScramMessages.ParseMechanisms` | src/scram/client.rs:153-165 | the loop computes the list: names before the first empty or unterminated one, without those that are not UTF-8 |
| `ScramMessages.MechanismsRoundTrip` | src/scram/client.rs:153-165 | it reads back any list of non-empty UTF-8 names |
| `ScramMessages.SaslInitialExactly` | src/scram/mod.rs:280-292 | the initial response parses to a mechanism and response exactly when it is the mechanism, a NUL, any four bytes and the response |
| `ScramMessages.ClientFirstExactly` | src/scram/mod.rs:297-330 | a client-first-message is accepted exactly when it is a GS2 header of a legal flag and a comma-free identity, then a bare message whose first `r=` is the nonce |
| `ScramMessages.ParseClientFinal` | src/scram/mod.rs:334-355 | the loop keeps the last `c=` and the last `r=` before the proof |
| `ScramMessages.ClientFinalExactly` | src/scram/mod.rs:334-355 | the proof is what follows the last `,p=`, and the AuthMessage part is everything before it |
| `ScramServer.CheckFinal` | src/scram/mod.rs:171-205 | nonce, binding, proof and user are checked in the code's order, telling denials from errors, through the HMAC and XOR loops |
| `ScramServer.Authenticate` | src/scram/mod.rs:82-218 | verdict, bytes written and bytes left unread are those of `Serve`, for every client stream and every pacing |
| `ScramServer.BindsExactly` | src/scram/mod.rs:123-155 | the code's arms accept exactly the three channel-binding cases of section 6 of RFC 5802 |
| `ScramServer.AcceptedExactly` | src/scram/mod.rs:105-217 | acceptance if and only if the user is known and two SASL messages echo the full nonce, bind the channel in one of the three ways and carry k XOR HMAC(StoredKey, AuthMessage) for a k that hashes to the StoredKey; k is what the server keeps |
| `ScramServer.DeniedExactly` | src/scram/mod.rs:105-200 | denial if and only if the store answers and the first message asks for a mechanism not offered or binds in none of the three ways, or goes through and the second has the wrong nonce, a readable binding that is another, or a readable proof that proves nothing; everything else not accepted is an error |
| `ScramServer.OutputExactly` | src/scram/mod.rs:90-238 | besides its challenges the server writes, on denial, one ErrorResponse that reads FATAL, 28P01, password authentication failed, whatever was wrong; on acceptance one AuthenticationSASLFinal; on an error nothing |
| `ScramClient.RunScram` | src/scram/client.rs:61-122 | outcome, bytes written and bytes left unread are those of `Converse`, for every server stream and pacing |
| `ScramClient.SatisfiedExactly` | src/scram/client.rs:66-121 | the client succeeds if and only if SCRAM-SHA-256 is offered, the server-first-message extends its nonce and carries a salt and a number, and the server signs the exchange with the ServerKey the client's keys give |
| `ScramClient.ReauthUpstream` | src/scram/client.rs:31-37 | the same with keys reused whatever the salt |
| `ScramClient.AuthenticatePassword` | src/scram/client.rs:43-55 | the same with keys derived from the server's salt and iteration count |
| `ScramChain.PasswordAccepted` | src/scram/client.rs:43-122 | completeness: for every password, salt, iteration count, hash, binding offer and comma-free nonces within the size limits, both sides succeed, the server's keys are those of the password, and neither reads past its last message |
| `ScramChain.RecoveredKeysAccepted` | src/scram/mod.rs:187-217 | whatever a client sent to be accepted, the recovered keys are accepted upstream by any server with the same StoredKey and ServerKey, under any salt and iteration count |
| `ScramChain.ServerTexts` | src/scram/mod.rs:162-208 | the server says r=nonce,s=salt,i=count and v=signature |
| `ScramChain.ClientTexts` | src/scram/client.rs:66-105 | the client says n,,n=,r=nonce and c=biws,r=nonce,p=proof |
| `ScramChain.OfferOnTheWire` | src/scram/mod.rs:90-104 | the offer names SCRAM-SHA-256, and the -PLUS variant before it exactly when there is binding data |
| `ScramChain.GeneratedNonce` | src/scram/crypto.rs:13-17 | a generated nonce is 24 comma-free characters |
| `ScramChain.GeneratedNoncesFit` | src/protocol/codec.rs:47-52 | with generated nonces every message is within its reader's limit, for salts up to half a gigabyte |
| `Direct.GreetingIsUnique` | src/proxy/direct.rs:196-251 | a backend stream has at most one greeting |
| `Direct.Session.RelayStartup` | src/proxy/direct.rs:183-252 | startup completes if and only if the backend's messages start with a greeting and the client answers each of its challenges; on failure what was relayed is every message up to the one that ended it, an ErrorResponse included; always, keys are substituted, the backend gets one message a challenge other than Ok or SASLFinal, nothing later is read from either side, and the slot holds the last captured key |
| `Direct.AuthenticationKinds` | src/proxy/direct.rs:199-225 | an Authentication message is relayed if it has a sub-type, without interaction only sub-type 0; all but 0 and 12 take an answer |
| `Direct.ClientSeesIssuedKey` | src/proxy/direct.rs:226-243 | a client that parses what it was sent finds the backend's messages one for one, each BackendKeyData with the issued key and all others unchanged |
| `Direct.SlotIsLastKey` | src/proxy/direct.rs:226-238 | the slot is left with the last key the backend reported if keys are issued, and untouched otherwise |
| `Connector.RunAuthentication` | src/pool.rs:156-195 | the loop answers cleartext and SASL challenges with the role's password until AuthenticationOk, as `Authenticate` says of the backend's bytes; anything else fails |
| `Connector.Capture` | src/pool.rs:197-213 | succeeds if and only if the backend reports up to a ReadyForQuery without an error; then every ParameterStatus, in order, and the last cancel key have been captured and nothing further has been read |
| `Connector.Serve` | src/pool.rs:144-224 | the startup frame, then authentication, then the report, and nothing else is written |
| `Connector.ScramBackendAccepts` | src/pool.rs:170-173 | against a SCRAM backend with the role's verifier, authentication succeeds for every salt, iteration count and binding offer, and leaves the connection right after AuthenticationOk |
| `Connector.CleartextBackendAccepts` | src/pool.rs:163-169 | a backend that asks for the password in clear is sent one whole frame of tag p that reads as that C string and nothing after it, and the connection is left right after AuthenticationOk |
| `Connector.TrustBackendAccepts` | src/pool.rs:156-162 | a backend that asks for nothing is sent nothing |
| `Connector.OtherBackendsFail` | src/pool.rs:174-195 | any other next message, MD5 and truncated requests included, and any challenge without a password, fails with nothing more sent |
| `Connector.LastKeyExactly` | src/pool.rs:202-206 | the captured key is the last one reported |
| `BackendMessages.BuildRowDescription` | src/protocol/message.rs:81-94 | the builder's loop prints the column list |
| `BackendMessages.BuildDataRow` | src/protocol/message.rs:97-110 | the builder's loop prints the values |
| `BackendMessages.RowDescriptionReadBack` | src/protocol/message.rs:81-94 | a row description reads back name for name, every column of type text and in text format, if and only if the names are NUL-free and their number fits an i16 |
| `BackendMessages.DataRowReadBack` | src/protocol/message.rs:97-110 | a data row reads back value for value, NULL apart from the empty string, if and only if the number of values fits an i16 and each length an i32 |
| `BackendMessages.ErrorReadBackExactly` | src/protocol/message.rs:157-180 | an error response reads back as severity (twice), SQLSTATE and message if and only if none has a NUL in it |
| `QueryText.QuerySqlExactly` | src/proxy/custom.rs:149-152 | the SQL is the text before the first NUL, or all of it without one, and empty if that is not UTF-8 |
| `QueryText.WordIsFirst` | src/proxy/custom.rs:169-174 | the word a query goes by is its first, in capitals, whatever blanks surround it, with closing semicolons or none |
| `QueryText.TrimmedExactly` | src/proxy/custom.rs:169 | what the handler is given is the text without white space in front and, at the end, white space, semicolons and the white space before those; nothing else is dropped, and none of it is left |
| `Custom.QueryObeys` | src/proxy/custom.rs:175-228 | for every text and status: COMMIT, END, ROLLBACK, ABORT close the block and are answered by their tag, failed or not; a failed block answers all else with 25P02; BEGIN and START open one; anything else is the handler's, given the trimmed text, whose answer the client reads back if and only if it can be printed, and an error of which fails an open block |
| `Custom.BlockCommands` | src/proxy/custom.rs:169-200 | the block commands, in any letter case and between any blanks and closing semicolons: the status they leave and the tag they are answered with |
| `Custom.OthersAreRefused` | src/proxy/custom.rs:117-131 | a message that is no Query is answered with 0A000 and moves nothing |
| `Custom.ResponseReadBack` | src/proxy/custom.rs:204-222 | the client reads back columns, rows and tag, or code and message, if and only if the response has no NUL and fits the wire's counts |
| `Custom.RunQuery` | src/proxy/custom.rs:157-235 | one reply and one ReadyForQuery, with the status and handler calls of `Query` |
| `Custom.ServeCustom` | src/proxy/custom.rs:99-135 | everything before the Terminate is handled in order, the output is the session's, and each query's token is in the cancel slot while it runs and at no other time |
| `Custom.HandleMoves` | src/proxy/custom.rs:175-228 | how a message moves the status, by its word and the handler's answer; the handler is never called in a failed block |
| `Custom.StatusIsHistory` | src/proxy/custom.rs:169-232 | over every message sequence, from the words of the messages and the handler's answers: the status is Idle exactly outside a block and Failed exactly in a block in which the handler has answered with an error, and the handler has been asked exactly the other queries outside failed blocks |
| `Custom.OutputIsWellFormed` | src/proxy/custom.rs:169-235 | over every message sequence the output is one well-formed response and one ReadyForQuery a message, and these carry the statuses the messages and answers so far give |
| `Custom.OutputBytesReadBack` | src/proxy/custom.rs:169-235 | and a client that parses the bytes written finds exactly those frames, as long as each is within the message limit |
| `Custom.CancelFiresRunningQuery` | src/proxy/custom.rs:106-114 | over every interleaving, a cancel with the session's key fires the token of the query running at the slot read, and nothing when none is |

## Left out

- TLS, SNI, socket peeking, listeners, dialling and routing (src/proxy/mod.rs, src/connect.rs, src/route.rs): library and I/O plumbing; establishing a connection is one step that yields a connection with or without a cancel target.
- Lookup of backend credentials: a role has a password or not. In `PoolWorld` establishing a connection is one step, which `Connector` details.
- The cleartext mechanism of src/auth.rs: one comparison behind I/O.
- SHA-256, random generation and timing: the hash is a parameter, random bytes are inputs, constant-time equality is equality.
- Eviction and waiting order in the library pool: any idle connection may go at any time, and a lease waits as long as it likes.
- Codec.CopyBodyTo: writing to the destination does not fail.
- Writes are whole: a frame is written or not, and in `ScramServer`, `ScramClient`, `Connector`, `Direct` and `Custom` writes do not fail.
- The greeting synthesized for a pooled or custom client (ParameterStatus replay, key, ReadyForQuery) is one write and not part of the reply stream.
- PoolRefinement.ReuseRefinesFreshDialling: transaction and statement mode with a reset frame; session mode never reuses a backend, a pool without a reset frame is covered by `PoolSafety` only, and unsolicited backend messages, cancels included, are excluded by the half-duplex hypothesis. So is a client that sends a Sync into a copy-in begun by Execute and another after it: the backend ignores the first, so requests sent and ReadyForQuerys received no longer balance.
- PooledRelay.Task.Serve: the branches of `select!` are taken in the order the script gives, so the backend-first bias is one of the orders covered.
- Cancel.CancelHandle.SetTarget: a disabled handle, which records nothing, is not modelled.
- Custom.RunQuery: handlers that change the session state themselves are not modelled; a handler's answer may depend on everything it was asked before.
- Lookup of startup parameters (`get`, `user`, `database`, `pq_options`) and NegotiateProtocolVersion: they would add only easy members.
- The pgbouncer showcase, tracing and error texts.
