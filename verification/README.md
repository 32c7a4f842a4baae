# A verified model of a Thread commissioner

The repository is a Thread MeshCoP commissioner with its own DTLS 1.2 profile
(EC J-PAKE, AES-128-CCM-8) and its own CoAP engine. This project models its
protocol logic in Dafny and proves what holds over whole runs: of the handshake
between the client and the server driver, of a joiner session, of record
sessions, of the exchange engine behind a commissioner handle, and of the codecs
underneath. `dafny verify dfyconfig.toml` checks everything.

Code that updates fields or loops in the source is a class or a method here, and
each such method is proved equal to a function of the old state; the theorems are
about those functions and the state machines they form. The exchange engine's
methods are nondeterministic where the link, the clock or a peer decides, so they
are specified by invariants over the state and its history instead.

How the files follow the source:

- `Wire`, `Records`, `Framing`, `Reassembly`, `Hello`, `Tlv`, `Coap`: codecs.
- `Modular`, `EcJpake`, `EcJpakeCodec`: EC J-PAKE and Schnorr proofs over an
  abstract group of prime order (section 3 of RFC 8236, section 3 of RFC 8235).
- `Replay`, `Protection`, `Session`: record protection and sessions.
- `Handshake`, `ClientDriver`, `ServerDriver`: both sides of the handshake.
- `HandshakeScript`, `HandshakeClient`, `HandshakeServer`, `HandshakeSystem`,
  `HandshakeRecovery`: the two sides over a network. Every record ever sent may be
  delivered at any time, any number of times, in any grouping; that covers loss,
  duplication and reordering of datagrams. Besides safety, every run can still be
  completed after everything in transit is lost.
- `HandshakeNonces`: over those runs no side protects two records under one nonce.
- `Joiner`, `JoinerSession`, `JoinerRuns`, `JoinerCompletions`: the joiner session,
  the object, its runs, and how often a run completes the handshake.
- `Exchange`, `DriverStates`, `Drivers`, `Duplicates`: the exchange engine, timers,
  routing, and the record of answered messages.
- `DiagCollect`, `PrefixCache`: the adaptive diagnostic query and the
  generation-guarded prefix cache.
- `HandshakeExample`, `JoinerExample`: concrete setups, and runs that show where a
  claim fails.

Cryptography is uninterpreted: ciphers, hashes, key derivation and group operations
are function-valued fields of a datatype, with a predicate stating the laws used
(decrypting what was encrypted, group and encoding laws). `HandshakeExample` shows
on a toy curve that all assumptions of the handshake theorems can be met. Random
draws, clock readings, link results and the application's answers are parameters or
nondeterministic choices.

Where a claim is false as it stands, a failing input is given and the exact
condition is proved:

- Datagram parsing inverts encoding exactly for sequence numbers below 2^48; the
  header keeps 48 bits.
- Equal EC J-PAKE points do not imply equal secrets: x1+x2+x3+x4 may vanish, and
  the X coordinate adds one more case. Distinct secrets can also become the same
  scalar, because zero is replaced by one.
- A cached mesh-local prefix is stale exactly after a positive multiple of 2^64
  invalidations during the fetch that stored it.
- A joiner session reports a completed handshake once per Finished message in the
  one record it accepts, so more than once exactly when that record holds several.
- The documentation of the diagnostic collector says that a TLV refused alone is
  skipped on every later node. It is skipped there exactly when it is not requested
  of that node (`DiagCollect.AskedExactly`); `DiagCollect.RefusedIsAskedAgain` gives
  two nodes for which the claim fails.

The same documentation says that the whole set is tried first; the code starts with
chunks of six, and the model follows the code.

## Model

| member | source | states |
|---|---|---|
| `HandshakeSystem.EveryRunIsSafe` | crates/meshcop-dtls/src/client_driver.rs:334-563 | For honest sides with one secret there is one list of seven messages, the cookie-bearing ClientHello first, such that in every state of every run over a lossy, duplicating, reordering network both transcripts are prefixes of it; neither side has failed except by its deadline or an exhausted 2^48 counter; a finished client means a finished server with the same whole transcript and the same keys |
| `HandshakeRecovery.EveryRunCanComplete` | crates/meshcop-dtls/src/client_driver.rs:173-563 | After any run in which neither side has given up and both counters allow another record, and with everything in transit lost, some continuation over what is then sent establishes both sides |
| `HandshakeNonces.EveryRunKeepsNoncesApart` | crates/meshcop-dtls/src/client_driver.rs:334-563 | In every run all records one side protects, resent Finished messages and application data alike, are protected under the one write key of its session, and no two of them under the same nonce |
| `HandshakeNonces.LogsAreOnTheWay` | crates/meshcop-dtls/src/client_driver.rs:334-563 | The records that theorem speaks of are exactly those the network has carried |
| `HandshakeNonces.ClientDatagramDoes` | crates/meshcop-dtls/src/client_driver.rs:334-563 | Whatever arrives, forged records included, a client's session and keys stay once made, and what it protects in reply carries consecutive numbers from its counter on |
| `HandshakeNonces.ServerDatagramDoes` | crates/meshcop-dtls/src/server_driver.rs:135-160 | The same of the server, during the handshake and while it reads |
| `HandshakeSystem.StepGood` | crates/meshcop-dtls/src/server_driver.rs:204-405 | Every event (deliveries, timers, reads, application data, deadlines) keeps the joint invariant of both sides and of all records ever sent |
| `HandshakeSystem.RunFromGood` | crates/meshcop-dtls/src/server_driver.rs:204-405 | Every run from a good state can be taken and stays good |
| `HandshakeSystem.StartGood` | crates/meshcop-dtls/src/client_driver.rs:185-195 | The first ClientHello can be built and the start satisfies the joint invariant |
| `HandshakeClient.DatagramGood` | crates/meshcop-dtls/src/client_driver.rs:334-563 | On any datagram made of records the server has sent, in any order and number, the client keeps its invariant, never moves back, gets ahead of the server only as far as the server's records let it, and sends only its own records |
| `HandshakeClient.RecordsGood` | crates/meshcop-dtls/src/client_driver.rs:334-563 | The same for any sequence of records within one wait |
| `HandshakeClient.TimerGood` | crates/meshcop-dtls/src/client_driver.rs:283-332 | A timeout resends the same messages and keeps the invariant |
| `HandshakeClient.VerifyHandled` | crates/meshcop-dtls/src/client_driver.rs:283-332 | The HelloVerifyRequest makes the client send the one cookie-bearing ClientHello and start the second wait |
| `HandshakeClient.VerifyRepeated` | crates/meshcop-dtls/src/client_driver.rs:414-445 | A repeated HelloVerifyRequest only resends that ClientHello |
| `HandshakeClient.DoneTaken` | crates/meshcop-dtls/src/client_driver.rs:234-254 | The ServerHelloDone ends the second wait exactly when the rest of the flight was handled, with ClientKeyExchange, ChangeCipherSpec and protected Finished |
| `HandshakeClient.FinishedFlightBuilt` | crates/meshcop-dtls/src/client_driver.rs:586-607 | The third flight is built exactly while the 2^48 counter lasts |
| `HandshakeClient.FinishedTaken` | crates/meshcop-dtls/src/client_driver.rs:465-563 | After ChangeCipherSpec the server's protected Finished is accepted and establishes the client |
| `HandshakeServer.ServerDatagramGood` | crates/meshcop-dtls/src/server_driver.rs:204-405 | The server's counterpart of DatagramGood, before and after it is established |
| `HandshakeServer.CookieAccepted` | crates/meshcop-dtls/src/server_driver.rs:262-280 | The cookie-bearing ClientHello is answered with ServerHello, ServerKeyExchange and ServerHelloDone, in this order |
| `HandshakeServer.FirstHelloAnswered` | crates/meshcop-dtls/src/server_driver.rs:225-252 | A ClientHello without the cookie is answered with a HelloVerifyRequest and leaves no state |
| `HandshakeServer.FinishedAnswered` | crates/meshcop-dtls/src/server_driver.rs:336-397 | The client's Finished verifies and is answered with ChangeCipherSpec and the server's protected Finished |
| `HandshakeServer.EstablishedGood` | crates/meshcop-dtls/src/server_driver.rs:135-160 | While a read waits, answering a repeated client flight within the budget of that read, queueing the records and reading on keeps the invariant; only an exhausted counter makes it fail |
| `HandshakeServer.ReadGood` | crates/meshcop-dtls/src/server_driver.rs:135-160 | Starting a read, with a fresh budget, keeps keys and counter; while the client waits for the Finished nothing it sent can be read as data |
| `HandshakeScript.ScriptFor` | crates/meshcop-dtls/src/thread_handshake.rs:75-227 | Every honest setup with equal secrets and none of the three vanishing sums has a script of messages on which all handlers of both sides succeed |
| `HandshakeScript.CompleteWorks` | crates/meshcop-dtls/src/thread_server_handshake.rs:143-315 | A script whose messages carry the right contents takes both sides through all handshake stages, one transcript message at a time |
| `HandshakeScript.KeysAgree` | crates/meshcop-dtls/src/thread_server_handshake.rs:245-270 | Both sides derive the same premaster secret |
| `HandshakeScript.PushNext` | crates/meshcop-dtls/src/handshake.rs:284-287 | Recording the next message extends the packed transcript by exactly it |
| `ClientDriver.WaitForHelloVerify` | crates/meshcop-dtls/src/client_driver.rs:283-332 | The receive loop of the first wait computes OnRecords |
| `ClientDriver.WaitForServerFlight` | crates/meshcop-dtls/src/client_driver.rs:334-463 | The receive loop of the second wait, with its inner loop over messages, computes OnRecords |
| `ClientDriver.WaitForServerFinished` | crates/meshcop-dtls/src/client_driver.rs:465-563 | The receive loop of the third wait computes OnRecords |
| `ClientDriver.PhaseStays` | crates/meshcop-dtls/src/client_driver.rs:334-563 | As long as the rest of a datagram is read, the wait is the same |
| `ServerDriver.AcceptHello` | crates/meshcop-dtls/src/server_driver.rs:214-280 | The accept loop before the cookie is verified computes OnRecords, sends included |
| `ServerDriver.AwaitFlight` | crates/meshcop-dtls/src/server_driver.rs:310-405 | The loop over the client's flight computes OnRecords |
| `ServerDriver.HelloStays` | crates/meshcop-dtls/src/server_driver.rs:215-260 | The cookie exchange keeps no state about a client |
| `Flights.RenumberEpochZero` | crates/meshcop-dtls/src/flight.rs:21-31 | Renumbering in place equals the function Renumbered of the old slice |
| `Flights.RenumberedKeeps` | crates/meshcop-dtls/src/flight.rs:21-31 | The plaintext records get the consecutive numbers from the given one on, wrapping at 2^64, the returned number follows them, and nothing else changes |
| `JoinerRuns.NoncesNeverRepeat` | crates/meshcop/src/commissioner/joiner.rs:369-570 | Over every run of a session all epoch-1 records sent, wherever they stand in a transmission (first and repeated Finished, all JOIN_FIN responses), are numbered 0, 1, 2, ... below 2^48, with pairwise distinct nonces, all under one key set |
| `JoinerRuns.OneDecision` | crates/meshcop/src/commissioner/joiner.rs:502-570 | The finalize handler is asked at most once and its answer announced at most once; every JOIN_FIN.rsp carries that answer and follows a completed handshake; the KEK goes with accepting responses and nothing else |
| `JoinerCompletions.CompletedOnceExactly` | crates/meshcop/src/commissioner/joiner.rs:457-500 | Over every run at most one protected record holds a Finished, and the handshake is reported complete at most once per Finished in it, exactly once per Finished while the session lives; so at most once exactly when no record read holds two |
| `JoinerCompletions.FlightsBounded` | crates/meshcop/src/commissioner/joiner.rs:286-311 | The server flight goes out at most five times, Finished flights at most four times more often than the one accepted record holds Finished messages, and none after an authenticated application record |
| `JoinerCompletions.DoneOncePerFinished` | crates/meshcop/src/commissioner/joiner.rs:471-499 | One protected record completes the handshake once for every Finished message in it |
| `JoinerExample.TwoFinishedReportTwice` | crates/meshcop/src/commissioner/joiner.rs:457-500 | For every good setup a payload exists, the last record of which holds two Finished messages, that makes a new session live on and report more than one completed handshake |
| `JoinerExample.CompletedTwice` | crates/meshcop/src/commissioner/joiner.rs:471-499 | So "one completed handshake per session" fails: such a session and payload exist |
| `JoinerRuns.RunEvolves` | crates/meshcop/src/commissioner/joiner.rs:286-367 | From any point of a run on the phase never moves back, keys a record was protected with stay, a decision stays and the counter never decreases |
| `JoinerRuns.ReceivedKeeps` | crates/meshcop/src/commissioner/joiner.rs:286-367 | Every relayed payload keeps the invariant relating the state to the log of everything emitted, asked and authenticated |
| `JoinerRuns.PlaintextKeeps` | crates/meshcop/src/commissioner/joiner.rs:369-455 | Every plaintext handshake message keeps it |
| `JoinerRuns.EncryptedKeeps` | crates/meshcop/src/commissioner/joiner.rs:457-500 | Every protected handshake record keeps it |
| `JoinerRuns.AppDataKeeps` | crates/meshcop/src/commissioner/joiner.rs:502-570 | Every application record keeps it |
| `JoinerRuns.AnswerRepeatKeeps` | crates/meshcop/src/commissioner/joiner.rs:294-311 | Answering a repeated client flight keeps it |
| `JoinerSessions.JoinerSession.Receive` | crates/meshcop/src/commissioner/joiner.rs:286-367 | The receive loop returns the events of Received and ends in its state; a failure is reported exactly when Received fails |
| `JoinerSessions.JoinerSession.HandlePlaintextHandshake` | crates/meshcop/src/commissioner/joiner.rs:369-455 | Computes Plaintext on the fields |
| `JoinerSessions.JoinerSession.HandleEncryptedHandshake` | crates/meshcop/src/commissioner/joiner.rs:457-500 | Computes Encrypted on the fields, looping over the record's messages |
| `JoinerSessions.JoinerSession.HandleApplicationData` | crates/meshcop/src/commissioner/joiner.rs:502-570 | Computes AppData on the fields |
| `JoinerSessions.JoinerSession.SendResponse` | crates/meshcop/src/commissioner/joiner.rs:526-569 | Protects and counts the JOIN_FIN.rsp as Respond does |
| `JoinerSessions.JoinerSession.OpenRecord` | crates/meshcop/src/commissioner/joiner.rs:586-600 | Opens a record once; a failed or repeated one leaves the state alone |
| `JoinerSessions.JoinerSession.BuildServerFinishedFlight` | crates/meshcop/src/commissioner/joiner.rs:619-635 | Builds ChangeCipherSpec and Finished, moving the counters only for built records |
| `Session.ConsecutiveSequences` | crates/meshcop-dtls/src/driver.rs:182-236 | Every record a session returns, across any operations, carries the next consecutive sequence number; a failed protect does not advance the counter |
| `Session.NoncesNeverRepeat` | crates/meshcop-dtls/src/driver.rs:204-236 | No two returned records share a nonce |
| `Session.ExhaustedForever` | crates/meshcop-dtls/src/driver.rs:211-236 | At 2^48 protection fails forever instead of wrapping |
| `Session.ReadsFollowTheStream` | crates/meshcop-dtls/src/driver.rs:270-300 | However records are split into datagrams and reads interleave, what is read, with its sequence numbers, is a prefix of one filter over the concatenated record stream |
| `Session.EmptyReadHasDrained` | crates/meshcop-dtls/src/driver.rs:280-300 | A read that finds nothing has delivered that whole filtered stream |
| `Session.OpenedOnce` | crates/meshcop-dtls/src/driver.rs:242-300 | Over every run, the handshake's direct opens included, no sequence number is opened twice and none marked at the start is opened, and the window stands for exactly the numbers marked at the start and those opened since |
| `Session.DeliveredOnce` | crates/meshcop-dtls/src/driver.rs:242-268 | That filter delivers no sequence number twice, and only a delivery marks one |
| `Session.SessionState.ProtectRecord` | crates/meshcop-dtls/src/driver.rs:211-236 | Returns Protected and moves the counter only on success |
| `Session.SessionState.OpenProtectedRecord` | crates/meshcop-dtls/src/driver.rs:242-268 | A record that fails authentication leaves the window unchanged |
| `Session.SessionState.ReceiveDatagram` | crates/meshcop-dtls/src/driver.rs:270-273 | Appends the records to the unread queue |
| `Session.SessionState.OpenNextRecord` | crates/meshcop-dtls/src/driver.rs:280-300 | The loop computes OpenNext |
| `Replay.WindowRefinesSet` | crates/meshcop-dtls/src/replay.rs:24-58 | After any marks in any order, a number counts as seen exactly when some number at least as large is marked and it is marked itself or 64 or more below the maximum |
| `Replay.MarkRepresents` | crates/meshcop-dtls/src/replay.rs:36-58 | Marking keeps the 64-bit word in step with the set of marked numbers |
| `Replay.SeenStaysSeen` | crates/meshcop-dtls/src/replay.rs:24-58 | Once seen, always seen |
| `Replay.ReplayWindow.Mark` | crates/meshcop-dtls/src/replay.rs:36-58 | The method computes MarkSeen on the fields |
| `Replay.ReplayWindow.Seen` | crates/meshcop-dtls/src/replay.rs:24-33 | The query computes HasSeen on the fields |
| `Protection.OpenAfterProtect` | crates/meshcop-dtls/src/record_protection.rs:22-80 | What was protected opens to its plaintext under the same key and IV |
| `Protection.ProtectSucceedsExactly` | crates/meshcop-dtls/src/record_protection.rs:22-54 | Protection fails exactly on an oversized plaintext or a sequence number of 2^48 or more |
| `Protection.Nonce` | crates/meshcop-dtls/src/ccm.rs:108-129 | Fails exactly from 2^48 on; otherwise twelve bytes beginning with the fixed IV |
| `Protection.NonceInjective` | crates/meshcop-dtls/src/ccm.rs:108-129 | Distinct sequence numbers give distinct nonces |
| `EcJpake.SharedPointsAgreeExactly` | crates/meshcop-dtls/src/ecjpake/mod.rs:236-307 | When both sides finish an honest exchange, the shared points are equal exactly when the secrets are equal or x1+x2+x3+x4 vanishes modulo the order |
| `EcJpake.KeyMaterialAgreesExactly` | crates/meshcop-dtls/src/ecjpake/mod.rs:260-307 | The X coordinates agree in exactly one further case, which forgetting the sign adds |
| `EcJpake.EqualSecretsSucceedExactly` | crates/meshcop-dtls/src/ecjpake/mod.rs:204-288 | With equal secrets every identity check and proof passes on both sides exactly when none of x1+x3, x1+x2+x3, x1+x3+x4 vanishes, and both then hold (x1+x3)·x2·x4·s·G |
| `EcJpake.BasesHonest` | crates/meshcop-dtls/src/ecjpake/mod.rs:290-307 | Both sides compute the same second-round base in all four role cases |
| `EcJpake.FirstRoundHonest` | crates/meshcop-dtls/src/ecjpake/mod.rs:204-234 | An honest first round verifies |
| `EcJpake.SecondRoundHonest` | crates/meshcop-dtls/src/ecjpake/mod.rs:236-258 | An honest second round fails only on an identity base and otherwise verifies |
| `EcJpake.SharedHonest` | crates/meshcop-dtls/src/ecjpake/mod.rs:260-288 | The shared point in terms of the scalars, or failure exactly when it is the identity |
| `EcJpake.SecretsCollide` | crates/meshcop-dtls/src/ecjpake/mod.rs:341-356 | Distinct secret bytes can become one scalar: the empty secret, a zero byte and a one byte |
| `EcJpake.SecretsCollideExactly` | crates/meshcop-dtls/src/ecjpake/mod.rs:341-356 | Two secrets become the same scalar exactly when the numbers they stand for (the digest's number above 32 bytes) agree modulo the order or both reduce to at most one |
| `EcJpake.SecretBytesAgreeExactly` | crates/meshcop-dtls/src/ecjpake/mod.rs:173-196 | For parties made from secret bytes that both finish, the points are equal exactly when the bytes stand for matching numbers or x1+x2+x3+x4 vanishes; equal bytes always agree |
| `EcJpake.NewParty` | crates/meshcop-dtls/src/ecjpake/mod.rs:173-196 | A party is made from secret bytes exactly when both scalars are canonical and nonzero; its secret is then canonical and nonzero too, as the agreement theorems ask |
| `HandshakeExample.DifferentSecretsAgree` | crates/meshcop-dtls/src/ecjpake/mod.rs:260-307 | An honest exchange with the secrets one and two that ends with one shared point |
| `HandshakeExample.OppositePointsAgree` | crates/meshcop-dtls/src/ecjpake/mod.rs:260-307 | An honest exchange with the secrets one and six that ends with different points and one X coordinate |
| `HandshakeExample.SameSecretIsGood` | crates/meshcop-dtls/src/ecjpake/mod.rs:173-196 | Parties made from the same secret bytes meet the assumptions of the handshake theorems exactly when none of x1+x3, x1+x2+x3, x1+x3+x4 vanishes |
| `Schnorr.HonestProofVerifies` | crates/meshcop-dtls/src/ecjpake/schnorr.rs:19-66 | A generated proof verifies |
| `Schnorr.TwoProofsRevealTheScalar` | crates/meshcop-dtls/src/ecjpake/schnorr.rs:41-66 | Two accepted proofs with one commitment and different challenges yield the scalar |
| `EcJpakeCodec.KkppRoundTrip` | crates/meshcop-dtls/src/ecjpake/codec.rs:33-62 | Decoding an encoded first round gives it back, in at most 330 bytes |
| `EcJpakeCodec.KeyExchangeRoundTrip` | crates/meshcop-dtls/src/ecjpake/codec.rs:69-93 | Decoding an encoded key exchange gives it back, with or without curve parameters |
| `EcJpakeCodec.PaddedTrimmed` | crates/meshcop-dtls/src/ecjpake/codec.rs:119-125 | Trimming leading zeros of a scalar is undone by padding |
| `Reassembly.RunOfSlices` | crates/meshcop-dtls/src/handshake.rs:397-459 | Slices of one message of at most 64 KiB, in any order with overlaps, repeats and mixed sizes, are never rejected and complete exactly when they cover it |
| `Reassembly.SlicesReassemble` | crates/meshcop-dtls/src/handshake.rs:397-459 | The result is exactly that message |
| `Reassembly.RunKeeps` | crates/meshcop-dtls/src/handshake.rs:397-431 | For arbitrary pushes a filled byte never changes, also across rejected pushes |
| `Reassembly.OversizedNeverStarts` | crates/meshcop-dtls/src/handshake.rs:433-459 | A message over 64 KiB is refused |
| `Reassembly.FragmentThenReassemble` | crates/meshcop-dtls/src/handshake.rs:217-259 | Fragmenting a message with any fragment size and pushing the fragments gives it back |
| `Reassembly.HandshakeReassembler.Push` | crates/meshcop-dtls/src/handshake.rs:397-431 | The method on the byte and flag arrays computes Pushed |
| `Framing.ParseMessages` | crates/meshcop-dtls/src/handshake.rs:347-386 | The parse loop computes Messages |
| `Framing.UnpackAfterPack` | crates/meshcop-dtls/src/handshake.rs:347-386 | Parsing packed messages gives them back |
| `Framing.SingleRoundTrip` | crates/meshcop-dtls/src/handshake.rs:313-343 | A record with one message parses to it |
| `Framing.EncodeIsTranscriptForm` | crates/meshcop-dtls/src/handshake.rs:182-213 | The wire form is the transcript form, and encoding fails exactly above 24-bit lengths |
| `Framing.TranscriptInjective` | crates/meshcop-dtls/src/handshake.rs:277-292 | Transcripts are equal exactly when the recorded messages are |
| `Framing.FragmentRoundTrip` | crates/meshcop-dtls/src/handshake.rs:139-176 | Parsing an encoded fragment gives it back |
| `Records.DatagramRoundTripExactly` | crates/meshcop-dtls/src/record.rs:153-182 | Parsing an encoded datagram gives the records back exactly when all sequence numbers are below 2^48 |
| `Records.LargeSequenceIsLost` | crates/meshcop-dtls/src/record.rs:76-89 | A record numbered 2^48 encodes and comes back numbered zero |
| `Records.ParseAfterEncode` | crates/meshcop-dtls/src/record.rs:153-182 | In general it gives them back with sequence numbers modulo 2^48 |
| `Records.EncodeAfterParse` | crates/meshcop-dtls/src/record.rs:153-182 | Encoding parsed records gives the datagram back |
| `Records.ParseDatagram` | crates/meshcop-dtls/src/record.rs:153-173 | The loop computes Parsed |
| `Records.EncodeDatagram` | crates/meshcop-dtls/src/record.rs:176-182 | The loop computes Encoded |
| `Hello.ClientHelloRoundTrip` | crates/meshcop-dtls/src/hello.rs:195-258 | Decoding inverts encoding whenever encoding succeeds |
| `Hello.ServerHelloRoundTrip` | crates/meshcop-dtls/src/hello.rs:331-365 | Decoding inverts encoding whenever encoding succeeds |
| `Hello.HelloVerifyRoundTrip` | crates/meshcop-dtls/src/hello.rs:272-295 | Decoding inverts encoding whenever encoding succeeds |
| `Hello.AppendExtensions` | crates/meshcop-dtls/src/hello.rs:408-419 | The loop computes ExtensionBlock behind what is already there |
| `Hello.ReadExtensions` | crates/meshcop-dtls/src/hello.rs:472-488 | The loop computes TakeExtensions |
| `Coap.CoapRoundTrip` | crates/meshcop/src/meshcop/coap.rs:164-249 | Decoding an encoded message gives it back with its options stably sorted by number |
| `Coap.EncodesExactly` | crates/meshcop/src/meshcop/coap.rs:164-192 | Encoding succeeds exactly for tokens of at most 8 bytes and option values of at most 65535 |
| `Coap.HeaderIsNotMarker` | crates/meshcop/src/meshcop/coap.rs:275-295 | No option header byte is the 0xff payload marker |
| `Coap.ReencodeDecoded` | crates/meshcop/src/meshcop/coap.rs:164-249 | Whatever was decoded encodes, and decodes to the same message again |
| `Coap.StableSortedIsStable` | crates/meshcop/src/meshcop/coap.rs:174-177 | The sorted options are in order, and the options of each number keep their order |
| `Coap.StableOrderUnique` | crates/meshcop/src/meshcop/coap.rs:174-177 | There is only one such order |
| `Coap.Encode` | crates/meshcop/src/meshcop/coap.rs:164-192 | The method computes Encoded |
| `Coap.Decode` | crates/meshcop/src/meshcop/coap.rs:195-249 | The loop over the shrinking rest computes Decoded |
| `Coap.NibbleRoundTrip` | crates/meshcop/src/meshcop/coap.rs:286-317 | Decoding an encoded delta or length gives it back |
| `Tlv.ParseAfterEncode` | crates/meshcop/src/tlv.rs:69-91 | Parsing inverts encoding |
| `Tlv.EncodesExactly` | crates/meshcop/src/tlv.rs:85-91 | Encoding succeeds exactly for values of at most 65535 bytes |
| `Tlv.EncodeAfterParse` | crates/meshcop/src/tlv.rs:69-91 | Encoding what was parsed succeeds and is never longer than the input |
| `Tlv.NormalForm` | crates/meshcop/src/tlv.rs:69-91 | Encoding after parsing is idempotent |
| `Tlv.Parse` | crates/meshcop/src/tlv.rs:69-82 | The loop computes Parsed |
| `Tlv.Encode` | crates/meshcop/src/tlv.rs:85-91 | The loop computes Encoded |
| `Drivers.Driver.Run` | crates/meshcop/src/commissioner/client/driver/mod.rs:111-125 | After any sequence of operations every completion handed in is in exactly one place (queued, in flight or consumed), at most one application exchange is in flight, in-flight tokens are distinct, requests were first sent in submission order, each at most three times and within its 12 s, no queued request waits beside a free slot, and the loss of the session was published exactly when it ended other than by resigning: once, as the last event, with its reason; it returns the states after every operation, up to the one that ended the session |
| `Drivers.AnsweredOnce` | crates/meshcop/src/commissioner/client/driver/incoming.rs:20-60 | Over every run, every copy of an answered confirmable message that arrives before a reopening, before its reply expires and before 64 newer replies gets that same reply, completes nothing, publishes nothing and is not remembered anew; if the link breaks under the reply, only the loss is published |
| `Drivers.Driver.Submit` | crates/meshcop/src/commissioner/client/driver/exchange.rs:209-212 | Afterwards, with the session open, the queue is empty or the slot is full |
| `Drivers.Driver.Withdraw` | crates/meshcop/src/commissioner/client/driver/exchange.rs:217-222 | Reports whether the request was queued or in flight; afterwards the queue is empty or the slot is full |
| `Drivers.Driver.SendQueued` | crates/meshcop/src/commissioner/client/driver/exchange.rs:225-237 | Terminates although starting a request may complete it and send others; leaves the queue empty or the slot full, loses no completion and adds only exchanges that are not due |
| `Drivers.Driver.Start` | crates/meshcop/src/commissioner/client/driver/exchange.rs:240-278 | The completion ends in flight or consumed; a new exchange has a token no other uses |
| `Drivers.Driver.FailSend` | crates/meshcop/src/commissioner/client/driver/exchange.rs:283-288 | A transport failure ends the session before the request fails |
| `Drivers.Driver.Complete` | crates/meshcop/src/commissioner/client/driver/mod.rs:368-467 | Consumes the completion; a finished application request lets the next one go; an answered keep-alive is published with its code, and a rejected, pending or failed one or any resignation ends the session with that reason |
| `Drivers.Driver.EndSession` | crates/meshcop/src/commissioner/client/driver/mod.rs:482-505 | Closes the session with its reason, consumes everything in flight and queued, and publishes the loss unless it was resigned; a closed session is left alone |
| `Drivers.Driver.Finish` | crates/meshcop/src/commissioner/client/driver/mod.rs:476-505 | A session that ends for a reason outside the exchanges keeps that reason and all guarantees; ended before, it keeps the first reason and publishes nothing |
| `Drivers.Driver.FailAll` | crates/meshcop/src/commissioner/client/driver/mod.rs:508-514 | Consumes every drained completion |
| `Drivers.Driver.PeerClosed` | crates/meshcop/src/commissioner/client/driver/mod.rs:335-351 | Fails everything and leaves the queue empty |
| `Drivers.Driver.StartControl` | crates/meshcop/src/commissioner/client/driver/mod.rs:250-300 | Session-control exchanges start beside the queue and keep all guarantees |
| `Drivers.Driver.RunExchangeTimers` | crates/meshcop/src/commissioner/client/driver/exchange.rs:291-336 | The pass ends; if the session stays open nothing due at its time remains, each due retry was attempted exactly once, and each expired exchange was completed |
| `Drivers.Driver.AssignIdentity` | crates/meshcop/src/commissioner/client/driver/exchange.rs:371-392 | The next message ID and a token that no exchange in flight uses |
| `Drivers.Driver.Acknowledge` | crates/meshcop/src/commissioner/client/driver/exchange.rs:341-351 | Stops the retransmission of the first exchange acknowledged on its route, changes nothing else, and reports whether there was one |
| `Drivers.Driver.TakeAnswered` | crates/meshcop/src/commissioner/client/driver/exchange.rs:358-369 | Takes out exactly the first exchange a response or Reset answers on its route, the only one with that token, or none if none is answered |
| `Retransmission.SendsBounded` | crates/meshcop/src/commissioner/client/driver/exchange.rs:38-69 | A confirmable request is sent at most three times; with on-time timers within 9 s of the first; the retry after that would be due 14 s or more after it, past the 12 s deadline |
| `Retransmission.NextSend` | crates/meshcop/src/commissioner/client/driver/exchange.rs:65-68 | A retry that is due keeps the doubling schedule |
| `DriverStates.PassRetries` | crates/meshcop/src/commissioner/client/driver/exchange.rs:312-333 | In a pass a due retry is sent once and recorded, and every other exchange is left alone |
| `DriverStates.PassExpires` | crates/meshcop/src/commissioner/client/driver/exchange.rs:296-311 | In a pass an expired exchange is taken out and completed, and exchanges started meanwhile are not due |
| `DriverStates.Popped` | crates/meshcop/src/commissioner/client/driver/exchange.rs:225-232 | The request popped off the queue is the next in submission order and was never sent |
| `Drivers.Driver.Route` | crates/meshcop/src/commissioner/client/driver/incoming.rs:25-125 | A confirmable message among the newest 64 unexpired answered ones gets the same reply again, with no completion, no news and no new entry; any message gives the events of its notification, one keep-alive code or none, and the loss exactly when it ends the session |
| `Drivers.Driver.Conclude` | crates/meshcop/src/commissioner/client/driver/incoming.rs:61-78 | An answered exchange, acknowledged first if the answer is confirmable, publishes exactly its keep-alive code, if it is one, and the loss, if the session ends; a failed acknowledgement drops the completion and ends the session, and all guarantees are kept |
| `Drivers.Driver.Unsolicited` | crates/meshcop/src/commissioner/client/driver/incoming.rs:176-233 | Publishes exactly the events of the notification, and the loss if the link breaks under it; a confirmable one is answered through the record, and all guarantees are kept |
| `Drivers.Driver.LookUp` | crates/meshcop/src/commissioner/client/driver/incoming.rs:137-154 | Only confirmable messages are looked up; the answer is the log's |
| `Drivers.Driver.GiveReply` | crates/meshcop/src/commissioner/client/driver/incoming.rs:158-174 | A reply is remembered exactly when it was sent |
| `Drivers.Driver.Reopen` | crates/meshcop/src/commissioner/client/driver/mod.rs:215-223 | Reopening restarts the log with the mesh devices' entries |
| `Duplicates.LookupRefinesLog` | crates/meshcop/src/commissioner/client/driver/duplicates.rs:40-49 | Between reopenings, lookup is searching the newest 64 unexpired entries of the unbounded reply log |
| `Duplicates.RememberExtendsLog` | crates/meshcop/src/commissioner/client/driver/duplicates.rs:51-64 | Remembering a reply extends that log by it |
| `Duplicates.RememberedOnce` | crates/meshcop/src/commissioner/client/driver/duplicates.rs:51-64 | A reply remembered for a message not in the record keeps every (origin, message ID) at most once |
| `Duplicates.StillNewest` | crates/meshcop/src/commissioner/client/driver/incoming.rs:137-154 | An unexpired reply is among the newest 64 as long as fewer than 64 were given after it |
| `Duplicates.ReopenStartsOver` | crates/meshcop/src/commissioner/client/driver/duplicates.rs:66-72 | Exactly the border agent's entries are dropped, order and uniqueness kept |
| `Duplicates.AnsweredMessages.ReplyTo` | crates/meshcop/src/commissioner/client/driver/duplicates.rs:40-49 | Returns what the log answers, forgetting only expired entries |
| `Duplicates.AnsweredMessages.Remember` | crates/meshcop/src/commissioner/client/driver/duplicates.rs:51-64 | The record holds at most 64 entries, oldest dropped first |
| `Duplicates.AnsweredMessages.ForgetExpired` | crates/meshcop/src/commissioner/client/driver/duplicates.rs:74-82 | The loop computes Kept |
| `Duplicates.AnsweredMessages.ForgetBorderAgent` | crates/meshcop/src/commissioner/client/driver/duplicates.rs:66-72 | The filter computes MeshOnly |
| `DiagCollect.Collect` | crates/meshcop-netdiag/src/collect.rs:273-321 | With any answers the walk makes, after the p ≤ 4 primes of which all but the last stay silent, at most the sum of 2·len−1 over the initial chunks as batch queries, for requested TLVs only; every requested TLV but the primer ends in exactly one answered batch, refused alone, or in a batch with nothing to ask for, each answered or refused by a query made with exactly that mask; it is unreachable exactly when all four primes stay silent, and lost exactly on the first fatal reply, which is its last query |
| `DiagCollect.CollectAll` | crates/meshcop-netdiag/src/collect.rs:169-193 | Over the nodes of a network every walk keeps those promises, a fatal reply ends the whole, and every node whose walk finishes is asked for exactly the TLVs requested of it, whatever the nodes before it refused |
| `DiagCollect.AskedExactly` | crates/meshcop-netdiag/src/collect.rs:7-11 | A TLV refused alone by one node is skipped on a later node whose walk finishes exactly when it is not requested of that node: a finished walk asks for a TLV if and only if it was requested |
| `DiagCollect.RefusedIsAskedAgain` | crates/meshcop-netdiag/src/collect.rs:314-317 | Two nodes, the first of which refuses a TLV alone, and the second is asked for it all the same |
| `DiagCollect.WantedIsAsked` | crates/meshcop-netdiag/src/collect.rs:302-320 | A finished walk asked for every requested nonzero TLV but the primer |
| `DiagCollect.AskedIsWanted` | crates/meshcop-netdiag/src/collect.rs:302-320 | No walk, however it ends, asks for a TLV that was not requested |
| `DiagCollect.ObtainsWhatIsAnswerable` | crates/meshcop-netdiag/src/collect.rs:300-320 | If every part of an answerable set is answerable, the TLVs obtained are exactly those answerable alone |
| `DiagCollect.ChunkCosts` | crates/meshcop-netdiag/src/collect.rs:291-299 | The budget for a list: twice its length less one per chunk of six |
| `DiagCollect.Prime` | crates/meshcop-netdiag/src/collect.rs:323-333 | At most four attempts, stopping at the first that is not silent |
| `PrefixCache.CachedIsFresh` | crates/meshcop/src/commissioner/client/requests.rs:70-97 | Under any interleaving with fewer than 2^64 invalidations, a cached prefix comes from a fetch that began after the last invalidation |
| `PrefixCache.StoresExactly` | crates/meshcop/src/commissioner/client/requests.rs:91-95 | A fetch stores its prefix exactly when the invalidations since it began are a multiple of 2^64, so a stale one exactly when they are a positive multiple |
| `PrefixCache.WrapCachesStalePrefix` | crates/meshcop/src/commissioner/client/mod.rs:108-112 | A run of 2^64 invalidations during one fetch does cache a stale prefix |
| `PrefixCache.Cache.Lookup` | crates/meshcop/src/commissioner/client/requests.rs:70-77 | A hit comes from a fetch no invalidation has followed, save after a positive multiple of 2^64 of them; a miss starts a fetch under the current generation |
| `PrefixCache.Cache.Store` | crates/meshcop/src/commissioner/client/requests.rs:77-97 | Hands a usable prefix to the caller and caches it exactly when the invalidations since its fetch began are a multiple of 2^64; the object's history stays a run |
| `PrefixCache.Cache.Drop` | crates/meshcop/src/commissioner/client/mod.rs:108-112 | Afterwards nothing is cached and no fetch under way can store, until 2^64 invalidations have passed |

## Left out

- Sockets, timers and async plumbing: a timeout or deadline is an event that may happen at any time, so the doubling handshake timers of the DTLS drivers are not modelled.
- AES-CCM, SHA-256, HMAC, the TLS PRF, P-256 and SEC1 encodings: uninterpreted, with the laws stated in the datatypes; distinct secrets failing the handshake is therefore not claimed.
- Forged or corrupted records in the handshake system: the network delivers only what was sent. The joiner and session theorems hold for arbitrary input bytes.
- Fragmented handshake messages in the drivers: they use unfragmented records only, as the source does; the reassembler is modelled on its own.
- The record sequence kept by the client hello state: the driver's own counter is modelled.
- JoinerSessions.JoinerSession.Receive: does not describe the fields after a failure, because the driver then removes the session (crates/meshcop/src/commissioner/client/driver/relay.rs:127-134).
- The relay driver around joiner sessions (expiry, KEK derivation, RLY_TX encapsulation): it would only add short computations.
- Drivers.Driver.AssignIdentity: does not fix the token length of four bytes; tokens are arbitrary byte strings, so an unused one always exists and the retry loop ends.
- Drivers.Driver.Complete: does not parse responses; the state a petition or keep-alive response reports is a parameter, and the session ID of a petition is not kept.
- Drivers.Driver.Route: does not model UDP_RX decapsulation or notification parsing; the decoded message, its origin, the state it reports and its kind of notification are parameters.
- Drivers.Driver.SendReply: only a broken link makes it fail, since an acknowledgement always encodes and the session is open when a message is routed.
- Petition, keep-alive scheduling and session status: only their effect on the exchange queue, the events and the close reason appears.
- UTF-8 validity in JOIN_FIN requests: an uninterpreted check.
- PSKc derivation, steering data, dataset accessors, diagnostic TLV decoders, the topology model, the CLI and the embedded demo: fixed layouts and output that would only add easy members.
- Error values: one failure value per error, without message texts.
- The node list of the diagnostic collector: which nodes are queried is a parameter, and merging answers into the topology is left out.
