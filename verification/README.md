# Nomad verification project

A Dafny model of the parts of the Nomad server and client whose correctness spans many
steps, with proofs of what those parts promise. Run `dafny verify dfyconfig.toml`.

The model has five parts.

**Secret sharing.** `Fields` lists the laws of a field of characteristic 2 and what follows from
them; `Cyclic` shows that a structure generated by one element of full order is such a field;
`GF256` defines multiplication of bytes by shift and reduce, bit by bit, and proves that 3
generates the nonzero bytes. `GaloisTables` holds the log and exp tables as the object whose
constructor fills them. `Interpolation` proves Lagrange recombination and uniqueness over
any such field. `Shamir` and `ThresholdSig` split, combine and select shares on top.

**The imperial cipher stack.** `Scytale`, `Egyptian`, `Masks`, `PersianSeal` and `Chaos` are
the byte layers, each with the loop of the source proved against a specification function
and a round trip. `ImperialStack` composes them in every derived order, `RecordLayer` wraps the
stack in authenticated encryption.

**The channel.** `Framing` is the length-prefixed stream and its chunking; `Pipes` turns one TCP
direction into a queue of messages. `ServerConnection` has the server's handlers as functions and
what holds of them under arbitrary messages; `PQCServer` is the connection as the object whose
methods update its fields and call its replay guard, its record layer, the key rotation and the
ticket store. `ClientConnection`, `ClientRuns` and `PQCClient` are the same for the client.
`HonestChannel` puts one server, any number of clients, KEM rotation and ticket
redemption into one step machine whose steps interleave freely. `ChannelInvariant`,
`ChannelSteps` and `ChannelRecords` show that every step keeps the invariant of a session,
`ChannelTheorems` draws the conclusions, and `ChannelProgress` shows that a clean session can always
take its next step and stay clean. `Admission` is the slot accounting of new connections.

**Guards.** `ReplayGuard`, `SessionStore`, `RateLimiter` and `DistributedRateLimiter` forget
history to bound their memory; the proofs relate them to the full history of a run.

**Organism and logs.** `OrganRegistry` is the depth-first activation order,
`SovereignOrganism` the pulse, `ChainedLog` the hash-linked log behind both the audit log and the
certificate transparency log, and `SignedFields` what each of the two signs of an entry.

Class methods are proved against specification functions of the old state, and the theorems are
about those functions and about runs of them. The methods of the two connection classes also state
what one step may do, which is what the theorems about runs rest on.

## Where the code does less than it seems to promise

- Replays: with the shipped defaults the nonce memory lasts exactly twice the clock skew, and a
  message stamped ahead by the full skew can be accepted again in the millisecond its nonce
  expires. `ReplayGuard.ReplaySafeExactly` gives the exact condition on the two settings.
- Cartouche: `wrapCartouche` writes headers up to 65535 bytes and `unwrapCartouche` refuses
  those over 4096. `Egyptian.CartoucheRoundTrip` and `ImperialStack.DecipherUndoesEncipher` say
  exactly when a message comes back.
- Slots: when the distributed limiter refuses a handshake, only the connection slot is
  given back; and when a peer leaves while a distributed check is awaited that is then granted, no
  listener ever hears the close and both slots stay taken. `Admission.SlotsConserved` says that
  the counters are right exactly in the runs without these; `Admission.RefusalLeaksSlot` and
  `Admission.DepartureLeaksSlots` are such runs.
- Distributed limits: an increment that reaches Redis after its counter has expired starts a new
  count for the old window, and one that reaches it in a later window joins that window's grants.
  `DistributedRateLimiter.SlotLimitExactly` and `IntervalLimitExactly` give the deadlines
  for increments at which each bound begins to fail.
- More than 255 shares: the log table has 256 entries, so every product with a larger share number is
  undefined. Such a share is the secret itself, and a quorum that contains one combines to
  zeros. `Shamir.QuorumRecoversSecret` and `Shamir.FewSharesFixNothing` are equivalences for
  that reason.
- Combining shares: a participant listed twice makes the recombination divide by zero.
  `ThresholdSig.QuorumRecoversKey` is an equivalence for that reason too.
- Tamper detection: the audit log signs neither the peer nor the channel of an entry, and the
  certificate log neither the subject nor the signature. `SignedFields.AuditTampering` and
  `SignedFields.CertificateTampering` say exactly which alterations are noticed;
  `SignedFields.PeerUnsigned` and `SignedFields.SubjectUnsigned` are the ones that are not.
- Empty messages: `frameMessage` frames an empty message and `parseMessages` refuses it
  (`Framing.SingleFrame`).

## What is assumed

Key encapsulation, signatures, AES-GCM, HMAC, HKDF, certificates, ticket encryption and JSON
are parameters. `Protocol.Suite.Sound`, `Primitives.Primitives.Sound` and
`RecordLayer.Sealing.Sound` list what is assumed of them where it matters: matching keys work,
opening inverts sealing, parsing inverts printing, and keys, signatures and ciphertexts of keys
are not empty. Digests are 32 bytes by type. Lemmas about what a code or a tag binds name what
they need: `RecordLayer.Sealing.Binds` that decryption fails under any other key, nonce or additional
data, `Primitives.Primitives.Legible` that texts and numbers are written without loss and numbers
without colons, `ChainedLog.Separates` and `SignedFields.Keyed` that different texts have
different codes. Otherwise nothing is assumed about collisions. Clocks,
nonces, randomness, allowlists, certificate validity and the router's answers are inputs
of each step and may be anything, except that in the honest channel clocks are positive
and nonces are not empty. Every endpoint has its own replay guard with the shipped defaults.

In the honest channel a session is called clean while nothing from its surroundings has gone wrong:
no nonce was used twice on one stream, every message was handled within the clock skew of its
timestamp, no allowlist or certificate refused a key, no frame was over the limit, no router failed,
no timer or close came, no cartouche header exceeded 4096 bytes. The delivery theorems are about
clean sessions and conclude, among other things, that the guards refuse nothing and that no failure
of any other kind can have happened. Agreement and tickets are proved for every honest session,
clean or not.

## Model

| member | source | states |
|---|---|---|
| `GF256.GfMultiply` | src/crypto/shamir.ts:9-19 | the eight-round shift-and-reduce loop computes the field product, which is defined bit by bit |
| `GF256.Distributive` | src/crypto/shamir.ts:9-19 | multiplication distributes over exclusive or, for all bytes |
| `GF256.ByteGenerates` | src/crypto/shamir.ts:21-27 | 3 has order exactly 255 among the 255 nonzero bytes, and products with it associate |
| `GF256.ByteField` | src/crypto/shamir.ts:31-44 | bytes under exclusive or and this product are a field: both operations commute and associate, product distributes, every nonzero byte has an inverse |
| `Cyclic.PowerInjective` | src/crypto/shamir.ts:21-27 | the powers of a generator of order 255 below exponent 255 are all different |
| `Cyclic.Logarithm` | src/crypto/shamir.ts:21-27 | every nonzero element is such a power, so the table loop visits all of them |
| `Cyclic.CyclicField` | src/crypto/shamir.ts:21-44 | a structure whose 255 nonzero elements are the powers of one generator is a field: commutativity, associativity and inverses follow from adding exponents |
| `GaloisTables.InitGf256` | src/crypto/shamir.ts:21-29 | the exp table holds the powers of 3 at all 512 positions and the log table inverts it on every nonzero byte |
| `GaloisTables.Tables.constructor` | src/crypto/shamir.ts:6-29 | the tables are filled before any use |
| `GaloisTables.Tables.GfMul` | src/crypto/shamir.ts:35-38 | on bytes the table product is the shift-and-reduce product; a factor past the end of the log table makes it undefined unless the other is 0 |
| `GaloisTables.Tables.GfDiv` | src/crypto/shamir.ts:40-44 | division throws exactly for a zero divisor; on bytes the quotient times the divisor is the dividend, past the end of the table it is undefined |
| `Interpolation.Recombine` | src/crypto/shamir.ts:78-98 | over any field of characteristic 2, Lagrange interpolation at 0 through distinct points, at least as many as coefficients, gives the constant coefficient |
| `Interpolation.PartitionOfUnity` | src/crypto/shamir.ts:85-92 | the basis values of any nonempty set of distinct points sum to one |
| `Interpolation.FitUnique` | src/crypto/shamir.ts:46-52 | coefficients are determined by as many values at distinct nonzero points |
| `Interpolation.Secrecy` | src/crypto/shamir.ts:66-74 | for any constant term exactly one choice of the other coefficients gives the values at distinct nonzero points |
| `Shamir.EvalPoly` | src/crypto/shamir.ts:46-52 | Horner evaluation over the tables is polynomial evaluation at a field element, and leaves only the constant coefficient at any larger point |
| `Shamir.SplitSecret` | src/crypto/shamir.ts:59-76 | the threshold and count errors, else shares numbered 1 to n whose bytes are evaluations, at those numbers, of one polynomial per byte: constant the secret's byte, the rest the drawn coefficients |
| `Shamir.CombineShares` | src/crypto/shamir.ts:78-98 | no shares, and two shares of one number unless the secret is empty, are the only errors; one share comes back as it is; otherwise the loops interpolate every byte column at 0, to zeros as soon as one number exceeds 255 |
| `Shamir.QuorumRecoversSecret` | src/crypto/shamir.ts:59-98 | any list of at least threshold different issued shares, in any order, combines to exactly the secret if and only if all their numbers fit in a byte or the secret is all zeros |
| `Shamir.FewSharesFixNothing` | src/crypto/shamir.ts:59-76 | for threshold minus one different issued shares and every candidate byte, exactly one redraw of the coefficients of that position makes splitting the secret with the candidate in place issue these very shares again, if and only if all their numbers fit in a byte |
| `Shamir.OutsideShowsSecret` | src/crypto/shamir.ts:46-76 | an issued share numbered above 255 is the secret itself |
| `ThresholdSig.ThresholdSigCoordinator.DistributeShares` | src/crypto/threshold_sig.ts:35-51 | errors change nothing; otherwise the last place of a name decides which share its node holds, and nodes not named keep theirs |
| `ThresholdSig.ThresholdSigCoordinator.BeginSigning` | src/crypto/threshold_sig.ts:53-68 | the errors in the order of the source with nothing stored, else one partial code per node asked for, keyed with its share over message and share number, and older requests untouched |
| `ThresholdSig.ThresholdSigCoordinator.CombineKey` | src/crypto/threshold_sig.ts:70-84 | each refusal exactly in its case and in this order: unknown request, too few participants, unknown node among the first threshold; otherwise the key combined from the shares of the first threshold participants |
| `ThresholdSig.QuorumRecoversKey` | src/crypto/threshold_sig.ts:70-84 | the combined key of a known request is the master secret if and only if the first threshold participants are distinct and their share numbers fit in a byte (an empty secret needs neither, a zero secret only the first) |
| `Scytale.ScytaleEncipher` | src/imperial/scytale.ts:6-28 | the nested loops read the padded grid column by column under its length; a length of 2^32 or more is refused and fewer than two columns leave the data as it is |
| `Scytale.ScytaleDecipher` | src/imperial/scytale.ts:30-54 | the nested loops write the columns back and cut to the prefixed length, with both error cases |
| `Scytale.RoundTrip` | src/imperial/scytale.ts:6-54 | deciphering undoes enciphering for every number of columns and every length under 2^32 |
| `Scytale.ColumnsRead` | src/imperial/scytale.ts:6-28 | in the enciphered form the byte of row and column stands row places into its column after the big-endian length, and zeros fill the grid |
| `Scytale.DeciphersExactly` | src/imperial/scytale.ts:30-54 | a frame deciphers to a text if and only if its length field says so, the body holds the whole grid and each byte of the text stands in its column |
| `Egyptian.BuildHieroglyphSbox` | src/imperial/egyptian.ts:9-20 | the in-place exchanges compute the key schedule: from the identity, 256 exchanges whose second position moves on by the entry and by the key byte of the round |
| `Egyptian.SboxPermutes` | src/imperial/egyptian.ts:9-20 | the S-box is a permutation of 0..255 for every key |
| `Egyptian.HieroglyphDecipher` | src/imperial/egyptian.ts:28-34 | the inverse table built by overwriting equals looking up the last index |
| `Egyptian.SubstitutionRoundTrip` | src/imperial/egyptian.ts:22-34 | substitution and its inverse cancel for every key and text |
| `Egyptian.CartoucheRoundTrip` | src/imperial/egyptian.ts:36-74 | unwrapping gives the data back for headers of at most 4096 bytes and the length error for all others |
| `Egyptian.CartoucheBinds` | src/imperial/egyptian.ts:36-74 | under the header made for some data another text is accepted if and only if the two keyed digests of label, subject, channel and text are equal |
| `Egyptian.UnwrapsExactly` | src/imperial/egyptian.ts:49-74 | an envelope yields exactly the text behind a header of 1 to 4096 bytes whose seal is the keyed digest of label, subject, channel and that text |
| `Masks.AugustanEncipher` | src/imperial/augustan.ts:6-13 | the loop adds the key-dependent rotation to every byte |
| `Masks.AugustanDecipher` | src/imperial/augustan.ts:15-22 | the loop subtracts it |
| `Masks.RotationRoundTrip` | src/imperial/augustan.ts:6-22 | rotation back undoes rotation for every key |
| `Masks.TorchMask` | src/imperial/aeneas_torch.ts:17-23 | the loop masks byte i with the key byte for i |
| `Masks.OccultVeilTransform` | src/occult/aureon_veil.ts:47-54 | the loop masks byte i with key byte and position |
| `Masks.MaskInvolution` | src/occult/aureon_veil.ts:47-54 | masking twice is the identity, for both masks |
| `PersianSeal.SealedExactly` | src/imperial/persian_seal.ts:10-29 | verification succeeds exactly on the sealed form of the body it yields |
| `PersianSeal.AlteredBodyRefused` | src/imperial/persian_seal.ts:10-29 | a body put under another body's seal is refused unless the keyed digests of the two are equal |
| `PersianSeal.SealedLayout` | src/imperial/persian_seal.ts:10-13 | the sealed form is the four letters, the keyed digest of label and body, and the body |
| `Chaos.PaddingRoundTrip` | src/chaos/entropy_engine.ts:46-87 | stripping gives back what was padded, for any random bytes |
| `Chaos.PaddedLayout` | src/chaos/entropy_engine.ts:46-61 | both lengths big-endian, the first random bytes, the body, the last random bytes, each in place |
| `Chaos.StripsExactly` | src/chaos/entropy_engine.ts:63-87 | stripping accepts exactly what carries the key's two lengths in its header and around its body |
| `Chaos.DeriveShuffledOrder` | src/chaos/entropy_engine.ts:89-106 | the in-place shuffle computes the specified order |
| `Chaos.OrderPermutes` | src/chaos/entropy_engine.ts:89-106 | the derived order is a permutation of its input for every seed |
| `Chaos.ThreeShuffled` | src/chaos/entropy_engine.ts:89-106 | which of the six orders each pair of seed values selects for three layers |
| `ImperialStack.ImperialCipherStack.Encipher` | src/imperial/imperial_cipher_stack.ts:51-101 | for the message's slot, the loops over the derived orders compute the composition that the lemmas below spell out |
| `ImperialStack.ImperialCipherStack.Decipher` | src/imperial/imperial_cipher_stack.ts:103-160 | the loops over the reversed orders compute the specified plaintext or its error |
| `Primitives.KeyInfosSeparate` | src/imperial/key_derivation.ts:3-17 | the texts that layer keys derive from are equal only for the same layer, channel, sequence number and timestamp |
| `Primitives.SecretsOf` | src/imperial/key_derivation.ts:19-29 | the rod diameter, torch, veil, salt, order and fingerprint secrets, each as its own keyed digest of its own text |
| `ImperialStack.LayersUsed` | src/imperial/imperial_cipher_stack.ts:38-84 | substitution, rotation and transposition are each applied once, the torch always and the veil exactly when it is on; without chaos in the fixed order, with chaos in the order the seed gives |
| `ImperialStack.EncipheredForm` | src/imperial/imperial_cipher_stack.ts:51-101 | envelope, three body layers in the derived order, seal, masks, and in chaos mode fingerprint and padding, each error as it arises |
| `ImperialStack.EncipheredWithoutChaos` | src/imperial/imperial_cipher_stack.ts:51-101 | without chaos the ciphertext is the torch, and when on the veil, mask of the seal of the transposed, rotated, substituted envelope |
| `ImperialStack.DeciphersExactly` | src/imperial/imperial_cipher_stack.ts:103-161 | a ciphertext deciphers to a plaintext if and only if it carries, under the padding, fingerprint, masks and seal of its slot, a body whose layers undo to an envelope of that plaintext |
| `ImperialStack.LayersRoundTrip` | src/imperial/imperial_cipher_stack.ts:73-75 | undoing the layers in reverse restores the body, for every list of layers |
| `ImperialStack.EncipherSucceeds` | src/imperial/imperial_cipher_stack.ts:51-101 | enciphering succeeds if and only if header and body fit their length fields |
| `ImperialStack.DecipherUndoesEncipher` | src/imperial/imperial_cipher_stack.ts:51-160 | deciphering an enciphered message gives the plaintext exactly when the header is at most 4096 bytes or the stack is off, else the cartouche error; any key, slot, order, configuration and randomness |
| `ImperialStack.CiphertextLength` | src/imperial/imperial_cipher_stack.ts:60-100 | the exact length, and the bounds p+h+78..p+h+467 with chaos and p+h+42..p+h+57 without |
| `RecordLayer.OpenUndoesSeal` | src/crypto/record_layer.ts:50-80 | opening a sealed record gives the payload exactly when its cartouche header fits |
| `RecordLayer.BoundToPosition` | src/crypto/crypto_service.ts:86-106 | a sealed record presented as another number, type or channel or under another key fails to decrypt, and as it was sealed it does not: an equivalence |
| `RecordLayer.OpensInPlaceOnly` | src/crypto/record_layer.ts:52-81 | on its own channel a sealed record opens to its payload if and only if number and type are its own and its header fits |
| `RecordLayer.RecordProtector.SetImperialChannel` | src/crypto/record_layer.ts:19-24 | the channel is set, a disabled configuration keeps an older stack, an enabled one replaces it with one for this key, channel and configuration |
| `RecordLayer.RecordProtector.Seal` | src/crypto/record_layer.ts:50-64 | a missing channel is refused; otherwise the serialised payload, enciphered for its number and timestamp when there is a stack, is encrypted under channel, number and type as additional data; the same layer opens it to the same payload exactly when the cartouche header fits |
| `RecordLayer.RecordProtector.Open` | src/crypto/record_layer.ts:66-80 | decryption fails exactly when it fails under channel, number and type; a record this layer sealed with a header that fits opens to its payload |
| `Framing.FrameMessage` | src/utils.ts:14-21 | refused exactly for its length; a receiver that finds a frame first in its buffer, whatever follows, takes exactly the message out again |
| `Framing.ParseMessages` | src/utils.ts:23-39 | the cursor loop delivers the parsed messages and returns the rest, or throws at a bad length after the messages before it |
| `Framing.FrameReader.OnData` | src/pqc_server_service.ts:147-160 | one chunk is parsed together with the kept buffer, which stays whole when parsing throws |
| `Framing.ChunkingIrrelevant` | src/pqc_server_service.ts:147-160 | messages delivered, failure and leftover depend only on the concatenated bytes |
| `Framing.FramedMessagesArrive` | src/utils.ts:14-39 | framed messages of length 1 to the limit, fed in any chunks, are delivered exactly |
| `Framing.ParseInverse` | src/utils.ts:23-39 | a scan splits its buffer into complete frames and a remainder without one, and reports a bad length if and only if the remainder begins with the length 0 or one over the limit |
| `Framing.SingleFrame` | src/utils.ts:14-39 | one frame comes back as one message, except that the frame of an empty message is refused |
| `Pipes.WriteCarries` | src/utils.ts:14-21 | writing a frame appends one message to what a stream carries |
| `Pipes.ArriveCarries` | src/utils.ts:23-39 | arrival of any number of bytes changes nothing about what a stream carries and never meets a bad length |
| `Pipes.PopCarries` | src/utils/message_queue.ts:6-12 | the next message handled is the first one carried |
| `Pipes.AllArrived` | src/utils/message_queue.ts:6-12 | once all bytes have arrived, all messages are queued in order |
| `KeyRotation.KeyRotationManager.GetActiveKeys` | src/security/key_rotation.ts:29-34 | the pair handed out is younger than its lifetime or made just now; it changes exactly when the old one has reached that age, and then the old one becomes the previous one |
| `KeyRotation.KeyRotationManager.Rotate` | src/security/key_rotation.ts:51-56 | the current key becomes the previous one and a new pair is generated |
| `KeyRotation.KeyRotationManager.ResolveByPublicKey` | src/security/key_rotation.ts:37-49 | of all key pairs ever generated the latest resolves, the one before it for the grace period, and no other |
| `KeyRotation.SameKeyWithinLifetime` | src/security/key_rotation.ts:29-34 | asking at times that never go back, two calls get the same pair if and only if the later one comes within the lifetime of the pair, counted from when it was made |
| `KeyRotation.RotationKeepsPrevious` | src/security/key_rotation.ts:37-56 | one rotation keeps the old key resolvable exactly for the grace period, a second one forgets it |
| `SessionStore.SessionStore.Issue` | src/session/session_store.ts:66-88 | the issued string redeems to channel, key and both signing keys exactly while its lifetime lasts and it is not remembered as consumed |
| `SessionStore.SessionStore.Redeem` | src/session/session_store.ts:90-124 | payload exactly for a ticket that parses, has not expired and is not remembered; only a consuming success is remembered, and a list of 50000 forgets its oldest |
| `SessionStore.IssuedRedeems` | src/session/session_store.ts:66-124 | an issued ticket redeems to what was issued exactly while unexpired and not remembered as consumed |
| `SessionStore.ConsumedBounded` | src/session/session_store.ts:113-118 | never more than 50000 consumed tickets are remembered, in any run |
| `SessionStore.ReuseIsSpaced` | src/session/session_store.ts:90-120 | two consuming redemptions of one ticket have at least 50000 others between them |
| `Protocol.SchemaExactly` | src/schema.ts:25-107 | the tests of the schema pass exactly on messages of a known kind and version that have every field a table gives their kind and no unknown one |
| `PQCServer.PQCConnection.OnData` | src/pqc_server_service.ts:147-160 | complete messages join the queue in order; a bad length fails, keeps the buffer and writes at most a handshake error |
| `PQCServer.PQCConnection.RunNext` | src/pqc_server_service.ts:179-441 | one message: one that fails a test before its handler changes nothing but the guard and is answered by its failure; the phase moves only forwards, to an end only if the client key passed the allowlist and signed for the channel; a record is accepted exactly when it is the next one of an open channel, and service, body and timestamp handed to the router are those it opens to; pings get their own number back; failures that blame allowlist or frame length are justified; guard, ticket store and key rotation change exactly as their own methods say |
| `PQCServer.PQCConnection.RouteSettled` | src/pqc_server_service.ts:443-467 | each failure exactly in its case; without one, a single reply under the next number that opens, on the same channel, to the router's answer for the service that was asked |
| `ServerConnection.PhasesOnlyAdvance` | src/pqc_server_service.ts:219-386 | under arbitrary messages the phase only moves idle to hello sent to established, or idle to resumed |
| `ServerConnection.RunAuthenticated` | src/pqc_server_service.ts:246-386 | a connection in an end phase passed, at some earlier message, the allowlist check and the signature over its key, channel and that message's nonce and time |
| `ServerConnection.SequencesAreStrict` | src/pqc_server_service.ts:409-447 | in every run the accepted sequence numbers are exactly 1, 2, 3, ..., and no more replies are counted than records received |
| `PQCClient.PQCClientService.OnData` | src/pqc_client_service.ts:176-189 | the client's stream reassembly: complete messages join the queue in order, a bad length fails and keeps the buffer |
| `PQCClient.PQCClientService.RunNext` | src/pqc_client_service.ts:248-461 | one message: one that fails a test before its handler changes nothing but the guard; a channel key is taken only from a hello whose valid certificate names both server keys, the end is reached only by an answer signed under the server's key for this channel; a record is accepted exactly when it is the next one of an open channel and handed on exactly as it opens; pings and goodbyes are answered; failures that blame certificate or frame length are justified |
| `PQCClient.PQCClientService.SendClientHello` | src/pqc_client_service.ts:224-246 | the hello of a client without a ticket is written exactly if its frame fits, and the phase moves if and only if it was |
| `PQCClient.PQCClientService.SendRaw` | src/pqc_client_service.ts:467-489 | each failure exactly in its case and the number used up either way; without one, a record under the next number that opens, on the same channel, to the body for the same service |
| `ClientRuns.PhasesOnlyAdvance` | src/pqc_client_service.ts:288-411 | under arbitrary messages the client's phase only moves forward through the handshake |
| `ClientRuns.RunKeyed` | src/pqc_client_service.ts:288-411 | under arbitrary messages any channel key a client holds was encapsulated to a key that a valid certificate in its run named, and a finished client holds a server key under which an answer for its channel was signed |
| `ClientRuns.RunCertified` | src/pqc_client_service.ts:288-411 | if no frame of the run was too long, a client that authenticated or finished knows its server from one valid certificate, which named the signing key and the key behind the channel key |
| `ClientRuns.SequencesAreStrict` | src/pqc_client_service.ts:422-440 | in every run the records accepted carry exactly the numbers 1, 2, 3, ... |
| `ChannelInvariant.FreshTaken` | src/security/replay_guard.ts:20-35 | the next message of a stream without repeated nonces, handled within the clock skew, is admitted and then remembered |
| `ChannelSteps.Connects` | src/pqc_client_service.ts:224-246 | connecting puts the hello on the way, or leaves the session where it was |
| `ChannelSteps.HelloArrives` | src/pqc_server_service.ts:219-244 | the arrival of a client hello keeps the invariant and leaves the session answered with the pinned key, or stalled by something from outside |
| `ChannelSteps.AnswerArrives` | src/pqc_client_service.ts:288-334 | the arrival of a server hello leaves the client keyed for the pinned key and its signed answer on the way, or the session stalled |
| `ChannelSteps.AuthArrives` | src/pqc_server_service.ts:316-386 | the arrival of an honest authentication leaves the server with the client's channel key and a good ticket on the way, whatever rotations came before, or the session stalled |
| `ChannelSteps.TicketArrives` | src/pqc_client_service.ts:336-411 | the arrival of the server's answer leaves both ends running with the same key and a good ticket, or the session stalled |
| `ChannelRecords.RecordArrives` | src/pqc_server_service.ts:409-443 | both ends keep running, and on a clean session the router runs on exactly the next body, for the service it was sent to |
| `ChannelRecords.RouteSettles` | src/pqc_server_service.ts:443-467 | both ends keep running, and on a clean session the router's answer is the next reply, for the service that was asked, and on the way |
| `ChannelRecords.BodySent` | src/pqc_client_service.ts:467-489 | both ends keep running, and on a clean session the body is the next record and on the way |
| `ChannelRecords.ReplyArrives` | src/pqc_client_service.ts:422-461 | both ends keep running, and on a clean session the handler gets exactly the next reply |
| `ChannelTheorems.ActKeepsInv` | src/pqc_server_service.ts:179-217 | every step of a session, at either end or in between, keeps the session's invariant |
| `ChannelTheorems.RunKeepsInv` | src/pqc_server_service.ts:219-386 | every session of every honest run satisfies its invariant, and the rotating key comes from the generator |
| `ChannelTheorems.Agreement` | src/pqc_client_service.ts:308-333 | in every honest run, with rotations and other connections anywhere, a finished client and its server have the same correlation id, record layer and each other's signing key, and any channel key still held is the one derived from the secret encapsulated to the pinned key |
| `ChannelTheorems.TicketRedeems` | src/pqc_server_service.ts:347-384 | the ticket of a finished client redeems, to its channel, key and client, exactly until the configured lifetime after its issue is over and while it is not remembered as consumed |
| `ChannelTheorems.TicketResumes` | src/pqc_server_service.ts:246-314 | a resume with that ticket succeeds on a fresh connection if and only if clock skew, ticket, lifetime, key, allowlist, signature and size checks pass, and then restores the same key, channel and client; otherwise the connection stays idle |
| `ChannelTheorems.HandshakeCompletes` | src/pqc_client_service.ts:224-411 | on a clean session the handshake cannot get stuck: a connected client with nothing left on the way is established at both ends with one key |
| `ChannelTheorems.DisturbedExactly` | src/pqc_server_service.ts:95-124 | a step of the server disturbs a session exactly by a failure of policy, size, sealing, router or timer, by a nonce used before, or by its own condition |
| `ChannelTheorems.DeliveredInOrder` | src/pqc_server_service.ts:409-467 | while nothing from outside goes wrong nothing fails and no guard refuses a message, the router ran on a prefix of the bodies sent, each for its service, the client's handler got a prefix of the replies, each for the service of its request, once and in order, with all four counters exact |
| `ChannelTheorems.DeliveredExactly` | src/pqc_client_service.ts:422-489 | when both streams have drained, the router ran on exactly the bodies sent, each for its service, and the handler got exactly one reply for each, for the same service |
| `ChannelProgress.CanConnect` | src/pqc_client_service.ts:224-246 | on a clean session, a client that has not connected can put its hello on the way: with a clock within a minute of the message's timestamp and a new nonce the step is possible, reaches the next stage and leaves the session clean |
| `ChannelProgress.CanAnswerHello` | src/pqc_server_service.ts:219-244 | on a clean session, the server can answer a hello: with a clock within a minute of the message's timestamp and a new nonce the step is possible, reaches the next stage and leaves the session clean |
| `ChannelProgress.CanAuthenticate` | src/pqc_client_service.ts:288-334 | on a clean session, the client can answer a server hello with a valid certificate: with a clock within a minute of the message's timestamp and a new nonce the step is possible, reaches the next stage and leaves the session clean |
| `ChannelProgress.CanIssue` | src/pqc_server_service.ts:316-386 | on a clean session, the server can answer an allowed client's authentication: with a clock within a minute of the message's timestamp and a new nonce the step is possible, reaches the next stage and leaves the session clean |
| `ChannelProgress.CanFinish` | src/pqc_client_service.ts:336-411 | on a clean session, the client can finish: with a clock within a minute of the message's timestamp the step is possible, reaches the next stage and leaves the session clean |
| `ChannelProgress.CanSend` | src/pqc_client_service.ts:467-489 | on a clean session, a running client can send a body that seals and fits: with a clock within a minute of the message's timestamp and a new nonce the step is possible, reaches the next stage and leaves the session clean |
| `ChannelProgress.CanRoute` | src/pqc_server_service.ts:409-443 | on a clean session, the server can hand the next record to the router: with a clock within a minute of the message's timestamp the step is possible, reaches the next stage and leaves the session clean |
| `ChannelProgress.CanReply` | src/pqc_server_service.ts:443-467 | on a clean session, an answer that seals and fits can be sent back: with a clock within a minute of the message's timestamp and a new nonce the step is possible, reaches the next stage and leaves the session clean |
| `ChannelProgress.CanHandle` | src/pqc_client_service.ts:422-461 | on a clean session, the client can take the next reply: with a clock within a minute of the message's timestamp the step is possible, reaches the next stage and leaves the session clean |
| `Admission.PQCServerService.AcceptConnection` | src/pqc_server_service.ts:552-568 | a server that is not vital, is shutting down or is full turns the socket away; otherwise a connection slot is taken before the distributed check is awaited |
| `Admission.PQCServerService.OnConnectionAnswer` | src/pqc_server_service.ts:569-582 | a refused socket is over and holds no slot; a granted one takes a handshake slot exactly when the last minute has fewer grants than the limit, and is over otherwise; only a socket turned away gives its connection slot back |
| `Admission.PQCServerService.OnHandshakeAnswer` | src/pqc_server_service.ts:583-589 | refusal gives back the connection slot and keeps the handshake slot; a grant opens the connection even if its socket has closed unheard |
| `Admission.PQCServerService.OnFailure` | src/pqc_server_service.ts:95-105 | a failing connection gives its handshake slot back, at most once, and keeps its connection slot |
| `Admission.PQCServerService.OnError` | src/pqc_server_service.ts:172-176 | a socket error gives the connection slot back, at most once, and keeps the handshake slot |
| `Admission.PQCServerService.OnClose` | src/pqc_server_service.ts:162-170 | closing gives each slot back at most once |
| `Admission.SlotsConserved` | src/pqc_server_service.ts:552-622 | in every interleaving the connection counter counts the slots that will be given back if and only if no check of a socket already gone was granted, and the handshake counter if and only if, besides, the distributed limiter never refused a handshake |
| `Admission.LeaksStay` | src/pqc_server_service.ts:552-622 | however a run goes on, both counters stay at least at what has leaked |
| `Admission.OpenWasGranted` | src/pqc_server_service.ts:569-622 | in every run a handshake slot is held only after the first check was granted, and a connection is open only after both were, in this order |
| `Admission.RefusedStaysOut` | src/pqc_server_service.ts:569-589 | a socket that either check refused holds no slot and never opens, however the run goes on |
| `Admission.ConnectionsBounded` | src/security/rate_limiter.ts:11-17 | the connection counter never exceeds its limit |
| `Admission.RefusalLeaksSlot` | src/pqc_server_service.ts:583-589 | a concrete run with no socket left and one handshake still counted |
| `Admission.DepartureLeaksSlots` | src/pqc_server_service.ts:569-622 | a concrete run in which a peer leaves during the awaited check takes both slots although no event is left that could free them |
| `ReplayGuard.ReplayGuard.Validate` | src/security/replay_guard.ts:20-35 | outside the skew exactly for a time that is not positive or more than the skew away; a replay only of a remembered key that has not expired; an accepted key is remembered last and for its lifetime, and nothing expired stays |
| `ReplayGuard.ReplayGuard.Purge` | src/security/replay_guard.ts:37-44 | exactly the expired entries are forgotten |
| `ReplayGuard.MemoryBounded` | src/security/replay_guard.ts:20-35 | the memory never exceeds its capacity, in any run |
| `ReplayGuard.RefusedWhileLive` | src/security/replay_guard.ts:30-34 | an accepted key is refused again until it expires or is evicted |
| `ReplayGuard.ReplaySafeExactly` | src/security/replay_guard.ts:20-44 | over all runs with a monotone clock no message is accepted twice without an eviction of its key, if and only if nonces are kept for more than twice the skew (or the skew is negative and nothing is accepted) |
| `ReplayGuard.DefaultsAllowLateReplay` | src/security/replay_guard.ts:14-18 | the shipped defaults do not meet that condition |
| `ReplayGuard.RepeatsAreSpaced` | src/security/replay_guard.ts:20-35 | two acceptances of one key, the first not expired, have at least capacity minus one others between them |
| `RateLimiter.RateLimiter.TryAcquireHandshake` | src/security/rate_limiter.ts:23-33 | granted exactly when fewer than the limit were granted in the last 60 seconds; older timestamps are dropped either way |
| `RateLimiter.DecisionsAgree` | src/security/rate_limiter.ts:23-33 | under a monotone clock pruning decides as the full history does |
| `RateLimiter.GrantedExactly` | src/security/rate_limiter.ts:23-33 | in every run with a monotone clock an attempt is granted if and only if the minute up to it holds fewer than the limit of earlier grants |
| `RateLimiter.WindowBound` | src/security/rate_limiter.ts:23-33 | no closed 60-second interval holds more grants than the limit |
| `DistributedRateLimiter.SlotLimitExactly` | src/security/distributed_rate_limiter.ts:32-40 | over all interleavings of instances whose increments come less than d milliseconds after their window began, no window grants more than its limit if and only if d is at most the fewest whole seconds that cover two windows (or the limit grants nothing) |
| `DistributedRateLimiter.WindowGrantsExactly` | src/security/distributed_rate_limiter.ts:32-40 | with increments that timely a window grants exactly its first ones, up to the limit |
| `DistributedRateLimiter.GrantsAnswer` | src/security/distributed_rate_limiter.ts:32-40 | in every run a grant is the increment of a request of its own address that read the clock in its own window before |
| `DistributedRateLimiter.IntervalLimitExactly` | src/security/distributed_rate_limiter.ts:32-40 | no closed interval of one window's length grants an address more than twice the limit if and only if d is at most one window (or the limit grants nothing) |
| `DistributedRateLimiter.LateIncrement` | src/security/distributed_rate_limiter.ts:32-40 | for any later deadline a run that grants one more than the limit in one window |
| `DistributedRateLimiter.ThreeWindowsMeet` | src/security/distributed_rate_limiter.ts:32-40 | for any deadline past the window a run that grants three times the limit in one interval |
| `OrganRegistry.OrganActivationOrder` | src/organism/organ_registry.ts:62-74 | for every acyclic graph the recursion ends and lists each node exactly once, after its dependencies |
| `OrganRegistry.ShippedGraphAcyclic` | src/organism/organ_registry.ts:33-45 | the shipped dependencies are acyclic |
| `SovereignOrganism.SovereignOrganism.Pulse` | src/organism/sovereign_organism.ts:91-134 | after a pulse an organ is critical if its check threw or anything among its transitive dependencies was unsound, and otherwise exactly as its check says, whatever the statuses before; vital exactly when all checks were sound; lockdown exactly when a check threw or a dependency was not up |
| `SovereignOrganism.PassSettles` | src/organism/sovereign_organism.ts:96-116 | one pass in dependency order settles the exact status of every organ regardless of stale statuses |
| `SovereignOrganism.PulseOutcome` | src/organism/sovereign_organism.ts:91-128 | the same for every order that lists each organ once, dependencies first |
| `SovereignOrganism.AllUpExactly` | src/organism/sovereign_organism.ts:246-251 | all organs rest on sound checks exactly when every check is sound |
| `ChainedLog.ChainedLog.Record` | src/ops/audit_log.ts:64-78 | one signed entry is appended that points at the last one |
| `ChainedLog.ChainedLog.LoadFromDisk` | src/ops/audit_log.ts:45-56 | the lines that parse are appended in order |
| `ChainedLog.ChainedLog.VerifyChain` | src/ops/audit_log.ts:80-95 | an error is reported if and only if some entry has a code that is not its own or a link to something else than the entry before it, and valid means none |
| `ChainedLog.OnlyPrefixesVerify` | src/crypto/ct_log.ts:62-77 | a list whose correctly coded entries were all recorded verifies if and only if it is a prefix of the recorded log: dropping, repeating, reordering and altering are all noticed |
| `ChainedLog.TamperingDetected` | src/ops/audit_log.ts:58-95 | with a signer that differs on different arguments a recorded log with one entry altered under its old code verifies if and only if nothing was altered, and an altered identifier, time, body or written predecessor is reported as that entry's code |
| `ChainedLog.AlteredVerifies` | src/ops/audit_log.ts:58-95 | for any signer: exactly when the signer cannot tell, the predecessor is the same, and so is the identifier unless the entry is the last |
| `ChainedLog.RecordedVerifies` | src/ops/audit_log.ts:58-95 | every recorded log verifies, whatever its identifiers |
| `ChainedLog.ReloadedVerifies` | src/ops/audit_log.ts:45-56 | a recorded log whose file has unreadable lines verifies after loading if and only if no readable line follows an unreadable one |
| `SignedFields.AuditTampering` | src/ops/audit_log.ts:58-62 | an audit entry altered under its old code verifies if and only if identifier, time, type, detail and predecessor are unaltered, for identifiers, times and types without a bar |
| `SignedFields.PeerUnsigned` | src/ops/audit_log.ts:58-62 | whatever peer and channel are written into a recorded audit entry, the log still verifies |
| `SignedFields.CertificateTampering` | src/crypto/ct_log.ts:38-42 | a certificate entry altered under its old code verifies if and only if identifier, time, fingerprint and predecessor are unaltered, for those without a bar |
| `SignedFields.SubjectUnsigned` | src/crypto/ct_log.ts:38-42 | whatever subject and signature are written into a recorded certificate entry, the log still verifies |

## Left out

- The value of a threshold signature: the source signs fresh random bytes, so of combining only the key is modelled.
- Internals of Kyber, Dilithium, AES-GCM, HMAC, HKDF, Argon2 and JSON: parameters, with the assumptions listed above.
- Planetary epoch and veil key derivation: floating point; the veil key is an arbitrary function of key, channel and time.
- Records without a timestamp: seal and serialise read the clock twice then; in the channel a timestamp is always given.
- Client-side resume and the session cache: the cached key is the buffer that closing zeroes; resumption is modelled on the server.
- Agreement against an active attacker: the signed client data does not cover the encapsulated key; agreement is proved for honest runs.
- Timestamp 0: it passes the schema and skips the replay guard; the handlers model this, and honest clocks are positive.
- Exclusive or of share numbers: modelled on unbounded numbers; JavaScript's 32-bit view of numbers from 2^31 on differs only in values that no table holds either.
- `PQCServer.PQCConnection.Close`: zeroing of key buffers and the behaviour of a closed socket; a write after close is a write that never arrives.
- `SovereignOrganism.SovereignOrganism.Pulse`: overlapping pulses, a pulse that throws, the fingerprint and status details; a pulse is one atomic step.
- The service id that an encrypted message repeats outside its record: nothing reads it.
- Heartbeat timers, jitter, logging, metrics, audit entries of the handlers, file writes, environment parsing and the network.
- The certificate authority: whether a certificate is valid is an input; that it names the keys of the hello is checked as in the source.
- Console login, roles, vaults, attestation, the privacy export and the research corpus: input and output around the parts above.
