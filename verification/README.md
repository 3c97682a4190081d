# A Dafny model of dig-message

dig-message is a sealed messaging protocol: every message is compressed, signed and sealed to one
recipient, replays are refused by a sliding window, and long exchanges ride ordered, credit-controlled
streams multiplexed over one peer. This project models its state machines, its byte formats and its
seal/open pipeline, and proves what they promise over every input and every run. Cryptography and zstd
enter as a record of functions (`Crypto.Primitives`) of which only four laws are assumed: Diffie-Hellman
commutes and verify accepts sign, for keys that pass the subgroup check, AEAD open inverts seal, and zstd
inverts. `LawsAreConsistent` exhibits an instance, so the laws contradict nothing.

## Main results

* **In-order delivery over a hostile network.** Whatever the network loses, repeats or reorders, what an
  endpoint delivers on a stream is a prefix of what its peer passed to `send_data` (`Lossy.PrefixDelivery`).
  Delivery is complete on a live stream if and only if every DATA frame was sealed, within the size cap and
  admitted (`Lossy.LossyComplete`); a CLOSE does not tell, as `Witnesses.LostTailIsSilent` shows.
* **Credit safety and RESET termination** over the same network (`Lossy.CreditSafety`,
  `Lossy.ResetsBounded`, `Lossy.ReflectionTerminates`).
* **Reliable first-in-first-out links.** Every timely frame is admitted, and `accept` answers RESET if and
  only if an OPEN finds the endpoint at its cap or a CLOSE finds its session still opening
  (`Fifo.FifoResetExactly`); if applications close only established streams, the cap is the only reason left
  (`Fifo.FifoNoReset`). Credit is conserved to the unit (`Fifo.FifoCreditConserved`), delivered payloads
  followed by those in flight are those sent, and a delivered CLOSE means everything was delivered
  (`FifoDelivery.FifoDelivers`, `FifoDelivery.FifoCloseMeansAll`).
* **The same of the real calls**: parties that seal and `accept` envelopes, on a wire that may also inject
  anything that does not authenticate as the peer, simulate the frame-level network
  (`SealedNetwork.Simulate`), so prefix delivery, credit safety, both RESET bounds, and on a reliable wire
  the exact RESET condition and the meaning of CLOSE hold end to end (module `EndToEnd`).
* **Endpoints.** The cap holds in every run whichever seals fail (`EndpointRuns.CapHolds`), and a finished
  session is left stored exactly by a RESET or second CLOSE whose seal fails (`EndpointRuns.ReachableOk`).
* **The replay window** held in sixteen 64-bit words is a 1024-bit shift register and refines a plain set
  of accepted counters; the guard table around it admits a counter at most once between evictions.
* **Seal/open** is an exact case analysis from the primitives alone: which key, associated data and
  plaintext, which signature over which fields, which error first (`Seal.SealExactly`,
  `Seal.DecryptExactly`, `Seal.OpenExactly`), with the full round trip, the self-addressed case included.
  The byte formats are big-endian, inverse in both directions, self-delimiting and injective.
* **Outcomes spelled out.** Every refusal with its reason, every frame with its header, every event with its
  content, every session it leaves, and to whom each envelope is addressed (module `Outcomes`,
  `EndToEnd.EndToEndAddressed`); over the lossy network the credit announced to an application is exactly
  that of the CREDIT frames its side admitted (`CreditEvents.AnnouncedIsAdmitted`).

## Layout

`Types`, `Bits`, `Codec` hold the machine integers, the `u64` bit operators and the byte-level primitives.
`ReplayWindow` and `ReplayGuard` model src/replay.rs; `Envelope`, `Transcript`, `Compression` and `Seal`
the files of those names; `Session`, `Endpoint`, `Outcomes` and `EndpointRuns` src/stream.rs. `Network` puts
two endpoints on one network; `Lossy`/`CreditEvents`, `Channel`/`Fifo`/`FifoDelivery` and
`SealedNetwork`/`EndToEnd` prove the system theorems, and `Witnesses` holds the runs that mark their edges.
Files that change state in place are classes (`SenderWindow`, `ReplayGuard`, `StreamSession`,
`StreamEndpoint`) whose methods are proved against value-level functions; the theorems are about those
functions. `dafny verify dfyconfig.toml` checks everything.

## Modelling decisions

* Integers are unbounded with explicit `u8`/`u32`/`u64` subsets. `+= 1` on `send_seq`, `recv_seq` and
  `send_counter` wraps as in a release build; saturating operations saturate. `usize` is 64-bit, so the
  casts in src/replay.rs:53-69 and 103 lose nothing.
* `[u64; 16]` is inline data in the Rust struct, hence a value field of `SenderWindow`; the loop of
  `shift_left` fills a real array.
* Clocks, entropy for the ephemeral key, the DID resolver and the order in which the hash map offers
  eviction candidates are parameters. A victim is any least-recently-seen entry.
* `Streamable` comes from a derive macro whose code is not in the repository. The model takes its known
  rules: big-endian integers, a 0/1 option tag with any other tag refused, a four-byte length before byte
  vectors, no bytes left over. The lengths 183 and 196 at tests/kat.rs:70 and tests/kat.rs:103 agree
  (`EnvelopeLayout` with a 24-byte ciphertext).
* Error texts become constructors of `Violation`, one per distinct refusal.
* The header comment at src/stream.rs:13-14 says a failed verify RESETs the stream; the body of `accept`
  drops the frame (src/stream.rs:614-629), and the model follows the body.
* Network theorems assume: fewer than 2^64 frames per endpoint; the correlation id of the stream in
  question is opened once (ids are random per stream); the peer's guard entry is not evicted; the cap is
  fixed. A frame whose sealing fails is never handed over, grants nothing and provokes nothing. The first-in-first-out
  theorems also assume that seals succeed and that no granted window passes 2^64. Application resets, closing
  before the handshake is complete (src/stream.rs:291-297 does not check it) and reaching the cap are allowed.
* `build_data` does not look at the reset flag (src/stream.rs:252-270): a reset session that stays stored
  because its RESET could not be sealed still stamps DATA (`Session.StatePredictsData`,
  `EndpointRuns.UnsealedResetSends`).

## Model

| member | source | states |
|---|---|---|
| `Bits.ShlBit` | src/replay.rs:76-76 | bit j of `w << s` is bit j-s of w, and bits past 63 are lost |
| `Bits.ShrBit` | src/replay.rs:78-78 | bit j of `w >> s` is bit j+s of w |
| `ReplayWindow.ShiftedWordBit` | src/replay.rs:73-82 | bit j of output word i is the input bit d places lower, across word boundaries |
| `ReplayWindow.ShiftedOffsets` | src/replay.rs:62-84 | the sixteen words together are the 1024-bit shift, bit for bit |
| `ReplayWindow.SenderWindow.constructor` | src/replay.rs:43-50 | a new window is unstarted with no offset seen |
| `ReplayWindow.SenderWindow.GetBit` | src/replay.rs:52-55 | true exactly when the offset is in the seen set |
| `ReplayWindow.SenderWindow.SetBit` | src/replay.rs:57-60 | adds exactly that offset to the seen set |
| `ReplayWindow.SenderWindow.ShiftLeft` | src/replay.rs:62-84 | every seen offset grows by diff, those reaching 1024 fall off, for every diff |
| `ReplayWindow.SenderWindow.Admit` | src/replay.rs:86-110 | performs the window step on the seen set; a refusal changes nothing |
| `ReplayWindow.AdmitRefines` | src/replay.rs:86-110 | with the window standing for a set of accepted counters, accepts iff the counter is new and no accepted one is 1024 or more ahead, and records exactly it |
| `ReplayWindow.WindowRefinesSet` | src/replay.rs:31-40 | after any sequence of calls, bit i is set iff highest-i was accepted |
| `ReplayWindow.VerdictIsAcceptable` | src/replay.rs:88-110 | the verdict on every call of any sequence is the set specification's |
| `ReplayWindow.NeverTwice` | src/replay.rs:8-11 | no counter is accepted twice in any sequence |
| `ReplayWindow.ReorderLosesNothing` | src/replay.rs:9-10 | distinct counters reordered by less than 1024 are all accepted |
| `ReplayGuard.FreshIsDistance` | src/replay.rs:147-152 | despite saturation, fresh means within FRESHNESS_WINDOW_MS either way |
| `ReplayGuard.ReplayGuard.LeastRecent` | src/replay.rs:174-178 | finds a key whose last_seen_ms is minimal |
| `ReplayGuard.ReplayGuard.EvictIfFull` | src/replay.rs:167-182 | at the cap removes exactly one least-recently-seen entry, below it nothing |
| `ReplayGuard.ReplayGuard.CheckAndAdmit` | src/replay.rs:133-165 | performs the whole guard step on the table value |
| `ReplayGuard.GuardStepKeeps` | src/replay.rs:139-182 | every step keeps the cap and started windows; a refusal leaves the table as it was; only an LRU entry is ever dropped |
| `ReplayGuard.AdmitsUnlessBlocked` | src/replay.rs:139-165 | admits iff fresh and the sender's window does not block the counter |
| `ReplayGuard.GuardMovesIffAdmitted` | src/replay.rs:133-137 | the table changes exactly on admission |
| `ReplayGuard.ReachableTable` | src/replay.rs:113-118 | the table invariant holds after any sequence of arrivals |
| `ReplayGuard.AtMostOnce` | src/replay.rs:133-165 | admitting a counter of a sender twice takes an eviction of that sender in between, from any table, and both clocks are within the window |
| `ReplayGuard.LastSeenIsGreatest` | src/replay.rs:158-160 | last_seen_ms is the greatest timestamp admitted since the last eviction |
| `ReplayGuard.IncreasingIsAdmitted` | src/replay.rs:95-100 | timely counters arriving in increasing order are always admitted |
| `Codec.BigEndianDigit` | src/transcript.rs:57-72 | byte i of a w-byte integer is its base-256 digit of weight 256^(w-1-i), for every integer |
| `Envelope.KindBytes` | src/envelope.rs:84-105 | exactly the bytes 0 to 6 name frame kinds, one each |
| `Envelope.SealedFlags` | src/envelope.rs:34-57 | the flag byte carries the shape and the sealed bit without interference |
| `Envelope.WireValues` | src/envelope.rs:24-107 | the byte of every frame kind and shape, and the sealed bit, as values |
| `Envelope.HeaderBytes` | src/envelope.rs:177-189 | the appended buffer is the header encoding |
| `Envelope.HeaderLayout` | src/envelope.rs:148-166 | the position of every header field |
| `Envelope.HeaderRoundTrip` | src/envelope.rs:170-189 | the header reads back exactly whatever follows it |
| `Envelope.HeaderPrefixFree` | src/envelope.rs:177-189 | no header is a prefix of another |
| `Envelope.EnvelopeLayout` | src/envelope.rs:345-352 | the encoding is header_bytes followed by the sealed region, with exact lengths |
| `Envelope.DecodeInvertsEncode` | src/envelope.rs:192-229 | decode accepts exactly the encodings of envelopes of version at most 1 within 16 MiB, and returns that envelope |
| `Envelope.DecodeErrors` | src/envelope.rs:210-229 | over 16 MiB is too large, bytes that encode no envelope are truncated, and an encoding of a version above 1 is unsupported |
| `Envelope.EncodeErrors` | src/envelope.rs:192-208 | encoding fails only for a length that does not fit its prefix or a size over 16 MiB |
| `Envelope.InnerLayout` | src/envelope.rs:119-144 | the position of every inner-message field |
| `Envelope.InnerRoundTrip` | src/envelope.rs:119-144 | the inner message reads back exactly |
| `Envelope.InnerCanonical` | src/envelope.rs:119-144 | the inner parser accepts exactly the encodings, no bytes left over |
| `Transcript.SigningBytes` | src/transcript.rs:54-76 | the appended buffer is the domain tag and the transcript, always 25 + 224 bytes |
| `Transcript.TranscriptLayout` | src/transcript.rs:9-14 | the domain tag and the position of all sixteen fields; frame kind and sequence number of the stream header, zeros without one |
| `Transcript.SigDomainIsText` | src/constants.rs:42 | the domain tag is the ASCII text |
| `Transcript.SignedBindsFields` | src/transcript.rs:51-76 | where the hash does not collide, equal signed bytes iff all fields are equal, of the stream header its frame kind and sequence number |
| `Transcript.SignedAndHeaderBindAll` | src/transcript.rs:41-76 | together with equal header bytes, iff all fields are equal |
| `Transcript.WindowIsNotSigned` | src/transcript.rs:67-69 | the window alone is outside the signature |
| `Compression.CompressRoundTrip` | src/compression.rs:38-106 | what compression emits decompresses to the payload up to 64 MiB and is a bomb beyond; never larger than the payload; zstd only when it shrinks |
| `Compression.CompressChooses` | src/compression.rs:38-60 | zstd exactly when the payload has 64 bytes or more and zstd shrinks it, else raw; both failures exactly |
| `Compression.DecompressExactly` | src/compression.rs:62-106 | the outcome of decompression iff by iff, with each error |
| `Compression.DecompressBounded` | src/compression.rs:62-106 | any success has a known codec and exactly the declared length within the cap |
| `Seal.KemAgrees` | src/seal.rs:321-349 | AuthEncap and AuthDecap derive the same secret, self-addressed included |
| `Seal.KdfInfoLayout` | src/seal.rs:360-364 | label, encapsulation, sender key, recipient key, in that order |
| `Seal.KdfLabelIsText` | src/seal.rs:41 | the key-schedule label is the ASCII text |
| `Seal.SealWithEphemeral` | src/seal.rs:118-187 | the step-by-step construction returns the sealed envelope or the first failure |
| `Seal.SealExactly` | src/seal.rs:118-187 | sealing from the primitives alone: HKDF over the ephemeral then the static DH value and the info, AEAD over the header as associated data and the inner message, signed over header, encapsulation and inner fields; each failure in order |
| `Seal.DecryptExactly` | src/seal.rs:201-256 | key agreement, AEAD open, parsing and signature from the primitives alone, the same key from the recipient's side, each failure in order |
| `Seal.OpenExactly` | src/seal.rs:258-304 | header match, expiry, freshness and dedup in order, guard untouched by each refusal; then exactly the header's and inner message's fields and the decompressed payload |
| `Seal.ExpiryMeaning` | src/seal.rs:306-319 | passes iff no expiry, or now <= expires_at <= timestamp + 30 days |
| `Seal.OpenMessage` | src/seal.rs:201-304 | the checks in order, with the guard moved in place as the value-level `Open` says |
| `Seal.OpenSealed` | src/seal.rs:118-304 | opening a sealed message is exactly expiry, guard step, size cap, then the very fields and payload sealed |
| `Seal.SealOpenRoundTrip` | src/seal.rs:118-304 | the sealed message comes back iff expiry is live, timestamp fresh, counter acceptable and payload within 64 MiB |
| `Seal.GuardMovesLast` | src/seal.rs:231-282 | the guard moves exactly when authentication passed and the guard step admits |
| `Seal.OpenSuccessMeans` | src/seal.rs:208-304 | success implies subgroup checks, a verified signature over this header, header match, freshness and live expiry |
| `Seal.ReopenFails` | src/seal.rs:270-282 | an opened envelope never opens again unless its sender was evicted in between |
| `Session.StreamSession.AsInitiator` | src/stream.rs:171-185 | the fresh initiator session |
| `Session.StreamSession.AsResponder` | src/stream.rs:187-201 | the fresh responder session |
| `Session.StreamSession.State` | src/stream.rs:203-217 | the observable state of the flags |
| `Session.StreamSession.OpenAckFrame` | src/stream.rs:231-245 | the OPEN_ACK transition or its refusal |
| `Session.StreamSession.DataFrame` | src/stream.rs:247-270 | the DATA transition: one credit, one sequence number, or its refusal |
| `Session.StreamSession.CreditFrame` | src/stream.rs:272-285 | the CREDIT transition or its refusal |
| `Session.StreamSession.CloseFrame` | src/stream.rs:287-297 | the CLOSE transition or its refusal |
| `Session.StreamSession.ResetFrame` | src/stream.rs:299-303 | the RESET transition |
| `Session.StreamSession.Receive` | src/stream.rs:305-386 | the inbound transition; an illegal frame changes nothing |
| `Session.LedgerBalances` | src/stream.rs:153-161 | along every run, stamped + credit <= received and taken + window <= granted, with equality while totals fit 64 bits |
| `Session.RunMovesForward` | src/stream.rs:59-72 | the state only moves forward and never swaps half-closed sides |
| `Session.StatePredictsData` | src/stream.rs:252-270 | we may stamp DATA iff there is credit and the state is Open or HalfClosedRemote, or the session is reset but established and not closed by us; the peer's DATA is accepted iff Open or HalfClosedLocal, in sequence and within the window |
| `Endpoint.StreamEndpoint.constructor` | src/stream.rs:434-462 | no sessions, counter 0, empty guard, the given cap |
| `Endpoint.StreamEndpoint.OpenStream` | src/stream.rs:476-503 | refuses a used id or a full endpoint, else adds an initiator and seals OPEN |
| `Endpoint.StreamEndpoint.OpenAckStream` | src/stream.rs:505-522 | builds and seals OPEN_ACK on the named stream alone |
| `Endpoint.StreamEndpoint.SendData` | src/stream.rs:524-539 | stamps and seals one DATA frame on the named stream alone |
| `Endpoint.StreamEndpoint.GrantCredit` | src/stream.rs:541-554 | grants and seals CREDIT on the named stream alone |
| `Endpoint.StreamEndpoint.CloseStream` | src/stream.rs:556-571 | closes our half; the session goes only after sealing, when both halves are closed |
| `Endpoint.StreamEndpoint.ResetStream` | src/stream.rs:573-588 | resets; the session goes only after sealing |
| `Endpoint.StreamEndpoint.SealFrame` | src/stream.rs:761-790 | takes one counter whether or not sealing succeeds |
| `Endpoint.StreamEndpoint.DropIfClosed` | src/stream.rs:799-808 | removes the session iff it is closed |
| `Endpoint.StreamEndpoint.AcceptOpen` | src/stream.rs:708-741 | duplicate OPEN and a full endpoint are answered with RESET, else a responder starts |
| `Endpoint.StreamEndpoint.ResetResponse` | src/stream.rs:743-759 | seals one RESET and reports the cause |
| `Endpoint.StreamEndpoint.AcceptEnvelope` | src/stream.rs:590-706 | open, peer check, frame checks and dispatch, as the value-level `Accept` says |
| `Outcomes.CallExactly` | src/stream.rs:482-588 | a call is refused exactly for its listed reason and changes nothing, else builds exactly its header, bytes included |
| `Outcomes.CallEffect` | src/stream.rs:231-303 | the session an accepted call leaves, one counter taken, no other stream touched |
| `Outcomes.SendExactly` | src/stream.rs:761-790 | the frame is sealed under the identity key and next counter and addressed to the peer: version 1, type, flags 7, id, own DID, peer DID, epoch, stream header |
| `Outcomes.EventIsLiteral` | src/stream.rs:811-822 | each delivered frame yields the event its kind names, CREDIT with its window and DATA with its payload |
| `Outcomes.DispatchExactly` | src/stream.rs:313-386 | the reaction to every frame in every state, with the reason of each drop and each reset |
| `Outcomes.DispatchEffect` | src/stream.rs:664-741 | the session a frame leaves or removes; only an abort takes a counter |
| `Outcomes.AcceptExactly` | src/stream.rs:605-759 | `accept` end to end: drops with their reasons, events, and RESETs sealed for the peer under the next counter without expiry |
| `EndpointRuns.AcceptOutcomes` | src/stream.rs:112-144 | what Event, Dropped and Reset each leave unchanged; only the authenticated peer's stream frames act; a RESET is never answered |
| `EndpointRuns.CapHolds` | src/stream.rs:494-500 | live sessions never exceed the cap in any run, whichever seals fail |
| `EndpointRuns.StepOkExactly` | src/stream.rs:561-588 | one step leaves a finished session stored iff it is a RESET or second CLOSE whose seal fails |
| `EndpointRuns.ReachableOk` | src/stream.rs:398-401 | no state of a run stores a finished session iff no step of the run is such an unsealed finish |
| `EndpointRuns.UnsealedFinishLingers` | src/stream.rs:561-588 | after any run, an unsealed finish leaves its session stored and closed |
| `EndpointRuns.UnsealedResetSends` | src/stream.rs:584-587 | a run in which the session reset without a seal lingers and still stamps DATA |
| `EndpointRuns.UnsealedCloseLingers` | src/stream.rs:567-570 | a run in which an unsealed CLOSE answering the peer's leaves the session |
| `EndpointRuns.InvokeIsActs` | src/stream.rs:482-706 | every sending call is one local act and every `accept` a guard update and at most one frame; an envelope goes out only under the counter the act stamps |
| `EndpointRuns.CallsKeepCap` | src/stream.rs:482-706 | no sequence of real calls exceeds the cap |
| `EndpointRuns.CountersIncrease` | src/stream.rs:772-773 | counters are 0, 1, 2, ... over all streams and frame kinds, automatic RESETs included |
| `EndpointRuns.StreamsAreIndependent` | src/stream.rs:482-588 | any run seen from one correlation id is a run of that one stream with the same outputs |
| `EndpointRuns.SlotIsOneSession` | src/stream.rs:676-705 | a live stream moves by session transitions only and starts only as initiator or responder |
| `Network.ScreenRefines` | src/stream.rs:620-629 | a genuine frame passes the guard only if its counter was never admitted |
| `Lossy.RunKeepsStream` | src/stream.rs:605-706 | the stream invariant over every run of two endpoints |
| `Lossy.PrefixDelivery` | src/stream.rs:329-351 | delivered payloads are a prefix of those sent, over loss, repetition and reordering |
| `Lossy.CreditSafety` | src/stream.rs:352-360 | DATA stamped never exceeds credit granted by sealed frames, each grant counted once |
| `Lossy.LossyComplete` | src/stream.rs:329-374 | a live session has delivered everything sent iff every DATA frame was sealed, within the size cap and admitted |
| `CreditEvents.AnnouncedIsAdmitted` | src/stream.rs:352-360 | while a session lives, the credit announced to the application sums to the windows of the CREDIT frames its side admitted |
| `Lossy.ResetsBounded` | src/stream.rs:664-706 | automatic RESETs are at most the non-RESET frames the peer sealed |
| `Lossy.ReflectionTerminates` | src/stream.rs:743-759 | once applications stop, at most as many frames are ever produced as sealed non-RESET frames were unadmitted |
| `Channel.AcceptsExactlyTakes` | src/stream.rs:313-386 | any session accepts any frame iff it is not reset and the independent inbox automaton can take the frame and it is no early CLOSE; CLOSE_ACK iff we closed; a refusal changes nothing |
| `Channel.StartedTakes` | src/stream.rs:313-386 | in step, the next frame in flight is refused iff it is a CLOSE at an opening session, and both sides stay in step either way |
| `Channel.StartedSends` | src/stream.rs:236-303 | in step, any successful call whose window fits keeps both sides in step, a CLOSE before the handshake included |
| `Channel.CreditConserved` | src/stream.rs:153-161 | agreement of the two sides gives the conservation equations |
| `Fifo.FifoResetExactly` | src/stream.rs:605-741 | every timely frame is admitted, and RESET answers exactly an OPEN at a full endpoint and a CLOSE at a session still opening |
| `Fifo.FifoNoReset` | src/stream.rs:361-374 | when only established streams are closed, RESET answers exactly an OPEN at a full endpoint |
| `Fifo.FifoCreditConserved` | src/stream.rs:252-285 | receiver window = sender credit + DATA in flight + credit in flight back |
| `FifoDelivery.FifoDelivers` | src/stream.rs:252-270 | while the receiver's session lives, delivered payloads followed by those in flight are those sent |
| `FifoDelivery.FifoCloseMeansAll` | src/stream.rs:361-374 | once the peer's CLOSE is delivered, everything ever sent on the stream was delivered |
| `Witnesses.EarlyCloseRaces` | src/stream.rs:291-297 | closing before the handshake completes is refused over reliable links if the responder is still opening, and accepted if it answered first |
| `Witnesses.LostTailIsSilent` | src/stream.rs:361-374 | over a lossy network a CLOSE can be delivered on a healthy stream whose DATA was lost |
| `SealedNetwork.GenuineAccept` | src/stream.rs:605-706 | accepting a genuine envelope is the frame-level delivery, same endpoint and same outcome |
| `SealedNetwork.Simulate` | src/stream.rs:605-790 | every permitted run with real envelopes and injected ones is a legal run of the frame-level network, step by step |
| `EndToEnd.EndToEndAddressed` | src/stream.rs:774-788 | in any run, with any primitives and injections, every envelope a party posts is its own sealed stream frame addressed to its peer |
| `EndToEnd.EndToEndPrefix` | src/stream.rs:530-539 | prefix delivery for the sealed calls |
| `EndToEnd.EndToEndCredit` | src/stream.rs:352-360 | a party stamps no more DATA than the credit on its peer's envelopes |
| `EndToEnd.EndToEndResets` | src/stream.rs:664-706 | automatic RESETs are at most the non-RESET envelopes on the peer's wire |
| `EndToEnd.EndToEndTerminates` | src/stream.rs:743-759 | once applications stop, the wires grow by at most the non-RESET envelopes not yet answered |
| `EndToEnd.EndToEndResetExactly` | src/stream.rs:605-741 | over a reliable wire `accept` answers RESET iff an OPEN meets the cap or a CLOSE meets an opening session |
| `EndToEnd.EndToEndCloseMeansAll` | src/stream.rs:361-374 | over a reliable wire a delivered CLOSE means everything sent was delivered |

## Left out

- src/registry.rs: type bands and dispatch are one match and a map over opaque closures.
- BLS, G1 subgroup arithmetic, HKDF, ChaCha20Poly1305, SHA-256, zstd and randomness: functions with the laws named above; confidentiality and forward secrecy are not claimed.
- Rules of the protocol document that the code does not implement: a session-wide expiry taken from OPEN, the per-chunk size cap, and waiting for CLOSE_ACK before full close.
- Sending CLOSE_ACK: there is no builder for it; only the receive branch is modelled.
- Debug builds, where an integer overflow panics instead of wrapping, and 32-bit targets.
- Transport reassembly, wasm and JavaScript bindings, identity resolution, release tooling.
- Reflection of an endpoint's own frames back to it when both ends share one identity: network deliveries are of the peer's frames.
- Credit conservation over reliable links is stated on frames in flight; the other first-in-first-out results are carried to the sealed calls.
