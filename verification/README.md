# Verified model of a Signal protocol library

A Dafny model of the protocol code of this Zig library, with proofs of what its parts are for. It
follows the code branch by branch, error cases and traps included. Code that updates state is a class
or a method with a loop, proved against a specification function; what the protocol promises is then
proved of those functions, over all inputs, all runs or all splits of a stream.

The primitives that the library takes from Zig's standard library (X25519, XEdDSA, HMAC, the AES block,
AES-GCM-SIV, ML-KEM, SHA-512, Ristretto) are parameters with laws (`Crypto`, `Ristretto`): agreement is
symmetric, genuine signatures verify, the block cipher is a permutation, opening undoes sealing,
decapsulation undoes encapsulation, points form an abelian group of the known order. `ToyIsLawful` and
`IntegersAreGroup` show that the laws can be met together. Random values are parameters. An arithmetic
or enum trap is the result `Err(Panic)`.

## The parts

- `Gf16`, `Gf16Division`, `Gf16Field`: the table-driven arithmetic of SPQR is the field
  GF(2)[x]/(x^16+x^12+x^3+x+1). `Interpolation`, `PolyCodec`: the chunk codec on top of it is an
  erasure code.
- `Proto`, `Curve` (with `Kdf`), `Messages`, `Wire`: the wire codec, key encodings and derivations,
  messages and their bytes.
- `Cbc`, `Ctr`, `IncrementalMac`: block modes and streaming MACs equal their batch forms.
- `Group`: sender keys, one sender and many receivers, as a state machine over byte-level stores;
  distribution messages are made and processed in steps of their own.
- `X3dh`, `Ratchet`, `SessionBytes`, `Session`: key agreement, the Double Ratchet state and its stored
  form, session building and the session cipher. `Ledger`, `Delivery`, `TwoParty`, `Runs`: two parties in
  every run. The ledger is the sequence of all ratchet keys of a session with the root and chain derived
  at each; the history is the messages whose acceptance was stored. At every moment both stored states
  are the ones that the last two entries of the ledger and the history determine. `Eviction`: a run in
  which a chain is dropped. `KeySchedule`, `Authenticity`: the keys by HMAC alone, and what acceptance of
  a message, a bundle or a pre-key message proves.
- `SealedSenderV1`, `SealedSenderV2`: certificates, contents and both sealed forms.
- `Ristretto`, `Username`, `Soundness`: username numbers, hashes and proofs, and what verification
  decides.

## What the proofs found

The model follows the code. Where a promise of its comments or of the protocol fails, the exact
condition is proved:

- Stored sessions lose the cached keys of skipped messages, since `SessionState.serialize` does not
  write them and every store serializes (`StateRoundTrip`, `ForgottenKeys`). In every run a message
  whose chain can be reached, at most 25000 ahead, is therefore accepted exactly when its counter exceeds
  those of all messages of its chain stored before (`AcceptedIff`): a skipped message delivered later is
  a duplicate.
- A cached key is derived without the post-quantum key (`TakeFollows`). This concerns only a live state
  that was not stored since, which the session cipher never uses; there a skipped message opens only if
  its sender's key and the cached one give it the same MAC (`CachedOpensOnly`).
- A pre-key stays pending, so the initiator's messages stay pre-key messages; in a session that exists
  the responder's decryptPreKeyMessage decrypts them and stores nothing. A message so accepted is
  accepted again, unless its new ratchet key meets the identity element, and no other is
  (`AcceptedAgain`, `AtMostOnce`). A responder who never unwraps the inner messages gets the session no
  further than four ratchet keys (`FourEpochs`).
- A first pre-key message that fails after agreement still uses up the one-time pre-key: the session can
  then not be started with it (`Expected`, `ToBobFirst`, `BadStep`).
- A message of an epoch older than the peer's last five finds no chain (`FoundIff`) and makes the party
  ratchet from the wrong root (`Evicted`). It is refused and nothing is stored, unless an eight-byte MAC
  collides (`EvictedOpensOnly`); runs get there (`EvictionHappens`).
- Dispatch of a version-2 sealed message gives a listed device the right bytes if and only if no id is
  excluded (`DispatchedExactly`). With excluded ids it refuses every device exactly when the sealed
  message has fewer than 50 bytes for each of them (`ExcludedMisread`); otherwise it takes the suffix
  from so many bytes further on (`ExcludedShifts`), and the first excluded id is itself dispatched a
  message (`ExcludedDispatched`).
- Decryption of a version-1 sealed message never looks at the static part, although encryption says it
  proves that the sender used the identity key (`OpensWithAnyStatic`).
- `decodeVarint` never returns `Overflow`: its shift counter traps first (`VarintOutcome`).
- A username proof verifies unless one of the verifier's multiplications gives the identity
  (`Complete`, with the condition `Verifiable`).

## Model

| member | source | states |
|---|---|---|
| Gf16.BuildReduceBytes | src/spqr/gf16.zig:8-24 | the 256-entry table built bit by bit holds, at i, the remainder of i x^16 modulo the field polynomial (`ReduceByte`) |
| Gf16.ReduceEntry | src/spqr/gf16.zig:13-21 | the inner loop clears bits 23 down to 16 and leaves the remainder |
| Gf16.PolyReduceIsRem | src/spqr/gf16.zig:26-31 | two table look-ups reduce every 32-bit value to its remainder by bit-by-bit division (Horner form `Rem`) |
| Gf16.PolyMul | src/spqr/gf16.zig:33-43 | the shift-and-xor loop computes the carry-less product |
| Gf16.MulIsTimes | src/spqr/gf16.zig:49-51 | `mul` is multiplication in the polynomial ring modulo x^16+x^12+x^3+x+1, for all inputs |
| Gf16Division.MulByDivision | src/spqr/gf16.zig:26-51 | the carry-less product is a multiple of 0x1100b plus `mul(a, b)`: division with that remainder |
| Gf16Division.RemainderUnique | src/spqr/gf16.zig:26-51 | any 16-bit r that differs from the product by a multiple of the polynomial is `mul(a, b)` |
| Gf16Division.MultipleVanishes | src/spqr/gf16.zig:26-31 | multiples of the polynomial reduce to 0 |
| Gf16Field.Ring | src/spqr/gf16.zig:45-51 | `add` and `mul` are associative and commutative, distribute, have 0 and 1 as units, and every element is its own negative |
| Gf16Field.SquareTimes | src/spqr/gf16.zig:49-62 | squaring is multiplicative |
| Gf16Field.SquareAdd | src/spqr/gf16.zig:45-51 | squaring is additive |
| Gf16Field.FrobPeriod | src/spqr/gf16.zig:49-51 | sixteen squarings are the identity on every sum of powers of x |
| Gf16Field.Fermat | src/spqr/gf16.zig:53-65 | a^65536 = a for every a |
| Gf16Field.UnitPower | src/spqr/gf16.zig:53-65 | a^65535 = 1 for every nonzero a |
| Gf16Field.Inv | src/spqr/gf16.zig:54-65 | the square-and-multiply loop computes a^65534, and 0 for 0 |
| Gf16Field.InverseWorks | src/spqr/gf16.zig:49-65 | mul(a, inv(a)) = 1 for every nonzero a |
| Gf16Field.NoZeroDivisors | src/spqr/gf16.zig:49-51 | a product is 0 exactly when a factor is |
| Interpolation.Division | src/spqr/poly_codec.zig:19-33 | dividing a polynomial by (x + r) leaves its value at r |
| Interpolation.TooManyRoots | src/spqr/poly_codec.zig:19-33 | a polynomial with as many distinct roots as coefficients vanishes everywhere |
| Interpolation.Unique | src/spqr/poly_codec.zig:19-33 | two polynomials that agree at as many distinct points as they have coefficients agree everywhere |
| Interpolation.Lagrange | src/spqr/poly_codec.zig:19-33 | the nested loops compute the sum of the Lagrange terms |
| Interpolation.ThroughPoints | src/spqr/poly_codec.zig:19-33 | at a given point, interpolation returns the given value |
| Interpolation.Exact | src/spqr/poly_codec.zig:19-33 | interpolating through any enough distinct points of one curve gives that curve at every x |
| PolyCodec.Add | src/spqr/poly_codec.zig:44-57 | a point is stored once, in the order of arrival, when it is needed |
| PolyCodec.GetY | src/spqr/poly_codec.zig:59-69 | a stored point is looked up; otherwise enough points interpolate, and too few give nothing |
| PolyCodec.NecessaryPointsMeaning | src/spqr/poly_codec.zig:73-77 | the count of a stream is the number of message symbols at its positions |
| PolyCodec.PolyEncoder.GetElement | src/spqr/poly_codec.zig:102-126 | symbol k of a stream: the message below its length, the extrapolated curve above (its value there: `ElementIsValue`) |
| PolyCodec.ElementOnCurve | src/spqr/poly_codec.zig:102-126 | both cases are points of the one curve through the message symbols |
| PolyCodec.ElementIsValue | src/spqr/poly_codec.zig:102-126 | element k is p(k) for the one polynomial p with at most as many coefficients as the stream has symbols and p(j) = symbol j |
| PolyCodec.ChunkHolds | src/spqr/poly_codec.zig:102-145 | the bytes of every chunk: at 2i its big-endian symbol is p(k), for the one polynomial p whose values at 0, 1, ... are the symbols of stream i in the bytes of the message |
| PolyCodec.PolyEncoder.NextChunk | src/spqr/poly_codec.zig:128-145 | the bytes of one symbol of each stream, and the index moves on; for every index whose interpolations fit the arrays of 80 points |
| PolyCodec.PolyDecoder.AddChunk | src/spqr/poly_codec.zig:162-171 | each big-endian symbol goes to its stream |
| PolyCodec.PolyDecoder.HasEnough | src/spqr/poly_codec.zig:173-178 | whether every stream has its necessary points |
| PolyCodec.PolyDecoder.Reconstruct | src/spqr/poly_codec.zig:179-194 | the bytes of the message in order |
| PolyCodec.PolyDecoder.DecodedMessage | src/spqr/poly_codec.zig:173-194 | the message once, as soon as every stream has enough points, and nothing before or afterwards |
| PolyCodec.SymbolsBytes | src/spqr/poly_codec.zig:106-142 | symbols read back from their big-endian bytes |
| PolyCodec.BytesSymbols | src/spqr/poly_codec.zig:164-191 | and the bytes of whole symbols from the symbols |
| PolyCodec.DecoderFor | src/spqr/poly_codec.zig:152-159 | an odd length is refused; otherwise an empty decoder for half as many symbols |
| PolyCodec.ErasureCode | src/spqr/poly_codec.zig:79-194 | for every message of even length: from any chunks of an encoder, lost, repeated or reordered, the decoder returns its bytes exactly when the number of different chunks reaches the length of the longest stream, which the decoder's arrays limit to 80 |
| Crypto.HkdfV2 | src/sealed_sender.zig:548-567 | writes the first L bytes of T(1), T(2), ... joined, of section 2.3 of RFC 5869 for every L up to 254*32; beyond that, and only then, the counter traps |
| Crypto.BlocksPrefix | src/sealed_sender.zig:548-567 | longer outputs extend shorter ones |
| Crypto.ExpandIs | src/sealed_sender.zig:548-567 | outputs of one to three blocks are HMACs of each block before, the label and 1, 2, 3 |
| Cbc.EncryptLoop | src/aes.zig:10-29 | the loop over the padded text computes c_j = E(p_j xor c_(j-1)) |
| Cbc.DecryptLoop | src/aes.zig:31-60 | the loop and the padding check compute the decryption, with every error case |
| Cbc.UnpadLoop | src/aes.zig:45-57 | accepts exactly a last byte 1..16 repeated that many times |
| Cbc.RoundTrip | src/session_builder.zig:157-208 | decryption undoes encryption on every plaintext, for every block permutation |
| Cbc.Bijection | src/aes.zig:10-60 | a ciphertext decrypts to a plaintext if and only if it is that plaintext encrypted |
| Cbc.ChainUnchain | src/aes.zig:19-42 | chaining is undone, block by block |
| Cbc.UnchainChain | src/aes.zig:19-42 | and undoing it is undone |
| Cbc.ChainBlocks | src/aes.zig:19-29 | every ciphertext block is the encryption of its plaintext block xored with the block before |
| Cbc.PadUnpad | src/aes.zig:11-15 | padding is removed to what was padded |
| Cbc.UnpadPad | src/aes.zig:45-57 | whatever unpads is the padding of its result |
| Ctr.Increment | src/aes.zig:71-77 | the carry loop over the counter array |
| Ctr.IncrementedIsSuccessor | src/aes.zig:71-77 | the carry loop adds 1 modulo 2^128 (any width) |
| Ctr.CounterNext | src/aes.zig:66-77 | incrementing the i-th counter block gives the (i+1)-th, which is iv+i+1 |
| Ctr.CtrEncrypt | src/aes.zig:64-84 | byte i is masked with byte i mod 16 of E(iv + i/16); the rest of the output is untouched |
| Ctr.SelfInverse | src/aes.zig:64-84 | encrypting twice gives the input back |
| Ctr.Ctr32.Process | src/ffi/crypto.zig:50-75 | masks exactly the given range in place and moves the 32-bit counter on by the blocks used; a range outside the buffer changes nothing |
| Ctr.Ctr32.KeystreamBlock | src/ffi/crypto.zig:59-67 | the counter block is nonce and big-endian counter |
| Ctr.Resume32 | src/ffi/crypto.zig:50-75 | every call starts at a fresh block: the next piece is encrypted as after the filled last block |
| Ctr.SplitIndependent | src/ffi/crypto.zig:50-75 | any split whose pieces but the last are whole blocks gives the bytes of one call, across 32-bit wrap |
| Ctr.SelfInverse32 | src/ffi/crypto.zig:50-75 | CTR32 is its own inverse |
| Ctr.Ctr32IsCtr | src/ffi/crypto.zig:50-75 | below the wrap CTR32 is counter mode from nonce and counter |
| IncrementalMac.BatchLength | src/incremental_mac.zig:18-27 | the MAC list has macBytesForSize bytes |
| IncrementalMac.BatchIs | src/incremental_mac.zig:54-88 | the list is the MACs of the full chunks and that of the zero-padded rest |
| IncrementalMac.Incremental.Update | src/incremental_mac.zig:55-67 | however data is cut, the object stands for everything fed to it |
| IncrementalMac.Incremental.FlushChunk | src/incremental_mac.zig:78-87 | one MAC of the chunk, zero-padded when it is the last |
| IncrementalMac.Incremental.Finalize | src/incremental_mac.zig:71-76 | the batch MAC list of everything fed, of the promised length; the object is then as new |
| IncrementalMac.FfiIncremental.Update | src/ffi/crypto.zig:272-285 | returns the MACs completed since the last call; a bad range is an error without effect |
| IncrementalMac.FfiIncremental.Finalize | src/ffi/crypto.zig:287-304 | what the updates and finalize returned concatenates to the batch list |
| IncrementalMac.Validating.Update | src/incremental_mac.zig:123-135 | succeeds iff the full chunks so far match the expected list; a mismatch leaves the object stuck |
| IncrementalMac.Validating.Finalize | src/incremental_mac.zig:138-142 | succeeds iff the whole padded list is a prefix of the expected one |
| IncrementalMac.Validating.VerifyChunk | src/incremental_mac.zig:144-160 | compares one padded chunk with the expected MAC; a failure keeps the buffer |
| IncrementalMac.AcceptsIff | src/incremental_mac.zig:91-161 | a stream, cut in any way, is accepted iff its MAC list is a prefix of expected_macs |
| IncrementalMac.StuckForEver | src/incremental_mac.zig:123-161 | after a full chunk failed, no non-empty update and no finalize succeeds |
| IncrementalMac.SenderAccepted | src/incremental_mac.zig:30-161 | the receiver accepts what the sender computed, however the stream is cut |
| IncrementalMac.FfiValidating.Update | src/ffi/crypto.zig:343-353 | the counts returned add up to the full chunks validated |
| IncrementalMac.FfiValidating.Finalize | src/ffi/crypto.zig:355-362 | with the last count they add up to the number of chunks of the stream |
| Proto.EncodeVarint | src/proto.zig:45-58 | writes the base-128 form, in at most 10 bytes |
| Proto.DecodeVarint | src/proto.zig:31-43 | reads a varint at a position |
| Proto.VarintLength | src/proto.zig:45-58 | all of u64 takes at most 10 bytes |
| Proto.VarintRoundTrip | src/proto.zig:31-58 | a varint decodes to its value and leaves any suffix untouched |
| Proto.VarintOutcome | src/proto.zig:31-43 | it fails exactly when the input ends inside it or a tenth byte still continues; `Overflow` is never returned |
| Proto.NextField | src/proto.zig:61-89 | one field, or the error or trap of malformed input |
| Proto.FieldProgress | src/proto.zig:61-89 | a field takes at least one byte and stays inside the input |
| Proto.ScanLoop | src/proto.zig:61-89 | a loop over nextField folds its switch over the fields up to the first error |
| Proto.Encoder.WriteVarintField | src/proto.zig:111-119 | the output is the encoding of one field more |
| Proto.Encoder.WriteBytesField | src/proto.zig:121-130 | the output is the encoding of one field more |
| Proto.Encoder.WriteFixed64Field | src/proto.zig:132-140 | the output is the encoding of one field more |
| Proto.FieldRoundTrip | src/proto.zig:61-140 | a written field is read back, whatever follows |
| Proto.FieldsRoundTrip | src/proto.zig:61-140 | repeated nextField over the output of an Encoder yields exactly its fields and consumes every byte |
| Proto.ScanWritten | src/proto.zig:61-140 | parsing what was written is folding over the fields |
| Curve.PublicRoundTrip | src/curve.zig:27-39 | a serialized public key reads back |
| Curve.PrivateRoundTrip | src/curve.zig:64-71 | a private key reads back |
| Messages.SerializePreKeyMessage | src/messages/pre_key_signal_message.zig:29-53 | the bytes of the fields in their order, after the version byte |
| Messages.DeserializePreKeyMessage | src/messages/pre_key_signal_message.zig:55-125 | parsing with every error case |
| Messages.PreKeyRoundTrip | src/messages/pre_key_signal_message.zig:29-125 | a message reads back with the low four bits of its version, optional fields preserved; below version 3 it is refused |
| Messages.SerializeSenderKeyMessage | src/messages/sender_key_message.zig:24-45 | version byte, fields and signature over both |
| Messages.DeserializeAndVerify | src/messages/sender_key_message.zig:47-105 | length, version and signature are checked before the body is parsed |
| Messages.SenderKeyReads | src/messages/sender_key_message.zig:24-105 | a written message with any signature reads back iff the signature verifies |
| Messages.SenderKeyRoundTrip | src/messages/sender_key_message.zig:24-105 | a genuinely signed message reads back |
| Messages.SerializeDistributionMessage | src/messages/sender_key_distribution_message.zig:39-56 | version byte and fields |
| Messages.DeserializeDistributionMessage | src/messages/sender_key_distribution_message.zig:58-105 | parsing with every error case |
| Messages.DistributionRoundTrip | src/messages/sender_key_distribution_message.zig:39-105 | a distribution message reads back |
| Messages.SerializeSenderKeyRecord | src/group_session_builder.zig:21-48 | fields and two nested messages |
| Messages.DeserializeSenderKeyRecord | src/group_session_builder.zig:50-111 | the nested loops update the same locals |
| Messages.RecordRoundTrip | src/group_session_builder.zig:21-111 | a stored record reads back |
| Wire.SignalOnWire | src/messages/signal_message.zig:55-76 | the bytes of a message before its MAC, field by field with tags and lengths |
| Wire.PreKeyOnWire | src/messages/pre_key_signal_message.zig:29-53 | the bytes of a pre-key message |
| Wire.SenderKeyOnWire | src/messages/sender_key_message.zig:24-45 | the bytes of a group message before its signature |
| Wire.DistributionOnWire | src/messages/sender_key_distribution_message.zig:39-56 | the bytes of a distribution message |
| Group.GroupCipher.Encrypt | src/group_cipher.zig:34-69 | the signed message under the present chain key, and the next record stored; the last iteration traps |
| Group.GroupCipher.Decrypt | src/group_cipher.zig:71-114 | fast-forward, decrypt and store; every error leaves the store as it was |
| Group.GroupSessionBuilder.CreateSession | src/group_session_builder.zig:125-174 | the existing record if it is readable, else a new chain |
| Group.GroupSessionBuilder.ProcessSession | src/group_session_builder.zig:177-196 | the chain stored without a private key, under the message's own id |
| Group.LoadSaved | src/group_session_builder.zig:21-111 | a saved record is loaded again; others are untouched |
| Group.OthersUnchanged | src/group_cipher.zig:34-114 | a failure changes nothing, a success its own record only |
| Group.FastForwardTo | src/group_cipher.zig:90-94 | fast-forwarding reaches the n-fold successor chain key |
| Group.Receive | src/group_cipher.zig:71-114 | a receiver at m decrypts message n of the chain to what was sent and moves to n+1, or refuses it as a duplicate when n < m |
| Group.DecryptDecides | src/group_cipher.zig:71-114 | for every record and all data: length, version, the signature of the record's key, chain and iteration decide in this order; what opens, opens with the chain key of its iteration, and the record then stands after it |
| Group.ExpectedIsMaximum | src/group_cipher.zig:90-96 | a message is not behind iff it is a strict running maximum at or above the start |
| Group.InitInv | src/group_session_builder.zig:147-174 | a new chain starts at iteration 0 |
| Group.SendStep | src/group_cipher.zig:34-69 | after n encryptions the stored record is (n-fold next of the first chain key, n) |
| Group.IssueStep | src/group_session_builder.zig:125-174 | a distribution message made at any time is that of the sender's present iteration, and changes nothing |
| Group.ProcessStep | src/group_session_builder.zig:176-197 | processing one, at any later time or again, through its bytes, makes the receiver expect the message that was next when it was made, whatever it had received |
| Group.DeliverStep | src/group_cipher.zig:71-114 | a delivery is accepted with its plaintext iff it is a new maximum, else refused without effect |
| Group.ForgedStep | src/group_cipher.zig:78-82 | what does not verify changes nothing |
| Group.RunInv | src/group_cipher.zig:34-114 | the invariant holds in every state of every run |
| Group.EveryRun | src/group_cipher.zig:34-114 | under any loss, reordering, duplication and forgery, of messages and of distribution messages, those accepted by a receiver are exactly the strict running maxima since the distribution message it last processed, with the plaintexts sent |
| Ratchet.FindChain | src/state/session_state.zig:159-167 | the first chain under the key, or none |
| Ratchet.SessionState.AddReceiverChain | src/state/session_state.zig:146-157 | the chain goes last; beyond five the oldest is dropped |
| Ratchet.SessionState.FindReceiverChain | src/state/session_state.zig:159-167 | finds the first chain under the key |
| Ratchet.SessionState.GetOrComputeMessageKeys | src/state/session_state.zig:170-212 | cache, duplicate, jump limit and forward loop |
| Ratchet.SessionState.Step | src/session_cipher.zig:403-427 | the DH ratchet in place: receiving half-step, new chain, fresh key, sending half-step |
| Ratchet.SessionState.MessageKeysFor | src/session_cipher.zig:389-431 | stored chain, or a DH ratchet step and then the new chain |
| Ratchet.TakeFollows | src/state/session_state.zig:170-212 | a chain that follows the sender's yields the sender's keys of a message at most once, exactly when it is cached or not behind and within 25000; a cached key ignores the post-quantum key |
| Ratchet.SwapRemoveOnce | src/state/session_state.zig:178-187 | a taken key is gone from the cache |
| Ratchet.SkipToFollows | src/state/session_state.zig:195-207 | the forward loop caches right keys, each once |
| Ratchet.SkipToCaches | src/state/session_state.zig:195-207 | moving forward caches exactly the keys passed, in order, the last two thousand |
| Ratchet.SkippedReadable | src/state/session_state.zig:170-212 | so each of up to two thousand skipped messages is read from the live state once, and then a duplicate |
| Ratchet.ForgottenKeys | src/state/session_state.zig:170-190 | a skipped message is readable while its key is cached and a duplicate once it is not |
| X3dh.AliceInitialize | src/ratchet/alice.zig:28-83 | the secret is FF..FF and the agreements in order, with the optional ones |
| X3dh.BobInitialize | src/ratchet/bob.zig:28-78 | the responder's counterpart, with its ciphertext checks |
| X3dh.SameKeys | src/ratchet/alice.zig:28-83 | with matching keys both sides derive the same root, chain and post-quantum keys in all four one-time and Kyber cases, and fail together |
| KeySchedule.AgreedKeysAre | src/ratchet/alice.zig:28-83 | root, chain and post-quantum key are HMACs over FF..FF and the agreements identity-prekey, base-identity, base-prekey, then base-one-time and the encapsulated secret if any |
| KeySchedule.RespondedKeysAre | src/ratchet/bob.zig:28-78 | the responder's secret, and exactly when it fails: for an identity element, or a Kyber pre-key without a ciphertext of 1568 bytes |
| KeySchedule.SessionKeysAre | src/kdf.zig:33-59 | two or three blocks from one secret, by the label of the kind of session |
| KeySchedule.RootStepIs | src/kdf.zig:20-31 | a ratchet step gives HMACs under HMAC(root, agreement), and fails exactly for the identity element |
| KeySchedule.MessageKeysAre | src/kdf.zig:61-90 | message n: n times HMAC of 2 from the first chain key, once of 1, and three blocks, with the post-quantum key as salt |
| KeySchedule.GroupKeysAre | src/kdf.zig:92-117 | message n of a sender key: n derivations from the first chain key, and one with the iteration |
| SessionBytes.SerializeSessionState | src/state/session_state.zig:216-306 | all fields and nested messages in order, without cached message keys |
| SessionBytes.DeserializeSessionState | src/state/session_state.zig:308-477 | parsing with every error case |
| SessionBytes.WriteChains | src/state/session_state.zig:251-269 | one field a chain |
| SessionBytes.StateRoundTrip | src/state/session_state.zig:216-477 | a stored session reads back as it was if and only if it had no cached message keys; otherwise those, and only those, are lost |
| SessionBytes.SenderParsed | src/state/session_state.zig:355-390 | the sender chain reads back |
| SessionBytes.ReceiverParsed | src/state/session_state.zig:392-423 | a receiver chain reads back without its cache |
| SessionBytes.PendingParsed | src/state/session_state.zig:425-456 | a pending pre-key reads back |
| SessionBytes.KyberParsed | src/state/session_state.zig:458-477 | a pending Kyber pre-key reads back |
| Session.SerializeSignalMessage | src/messages/signal_message.zig:43-85 | version byte, fields, and the first eight bytes of the MAC over both identities and the message (`EncryptedWithMac`) |
| Session.SignalScan | src/messages/signal_message.zig:55-66 | the parsing loop of decryption finds the fields that were written |
| Authenticity.EncryptedWithMac | src/session_cipher.zig:67-167 | what encryption sends ends in the MAC of both identities and all bytes before, under the next keys of the chain |
| Session.PromoteState | src/state/session_record.zig:49-61 | the current state is archived first, and at most forty archived states stay so |
| Session.Archived | src/state/session_record.zig:49-61 | the former state comes first in the archive and loads as it was stored; only the oldest can be gone |
| Session.DeserializeSessionRecord | src/state/session_record.zig:94-114 | reads the current and the archived states |
| Session.SessionRecordRoundTrip | src/state/session_record.zig:77-114 | a stored record reads back with its archived states, its current state without cached keys |
| Session.SessionBuilder.ProcessPreKeyBundle | src/session_builder.zig:47-150 | trust, signatures, agreement, first sending step, receiver chain under the signed pre-key, pending pre-keys |
| Session.EncryptOn | src/session_cipher.zig:72-161 | the message under the next sender keys, wrapped while a pre-key is pending |
| Session.SessionCipher.Encrypt | src/session_cipher.zig:67-167 | the same on the stored state, which is then stored again |
| Session.SessionCipher.DecryptMessage | src/session_cipher.zig:170-190 | the state is stored only when the message decrypts |
| Session.SessionCipher.DecryptPreKeyMessage | src/session_cipher.zig:193-315 | an existing session decrypts and stores nothing; a new one uses up its pre-keys even when it then fails |
| Session.DecryptWhisperMessage | src/session_cipher.zig:318-387 | parsing, keys, MAC over the identities and message, then CBC |
| Authenticity.MacDecides | src/session_cipher.zig:318-387 | for every state and all data: once keys are taken, a message opens iff its last eight bytes are that MAC and its padding is right; otherwise InvalidMessage |
| Authenticity.ForgedRefused | src/session_cipher.zig:170-235 | a message whose MAC does not fit is refused by both decryptions and changes no store |
| Authenticity.BundleDecides | src/state/bundle.zig:54-67 | a bundle makes a session iff its identity is trusted and signed its signed pre-key and its Kyber pre-key, and agreement succeeds; each failure has its error and changes nothing |
| Authenticity.AgreementFails | src/session_builder.zig:59-106 | agreement fails exactly for an identity element among the products, or a Kyber pre-key without number |
| Authenticity.UntrustedRefused | src/session_cipher.zig:206-214 | a pre-key message from an identity that is not trusted changes nothing |
| Authenticity.KeysFound | src/session_cipher.zig:237-261 | which pre-keys are looked up, and that a missing one is InvalidKeyIdentifier |
| Authenticity.PreKeysUsed | src/session_cipher.zig:237-315 | a message that gets as far as agreement uses up exactly the pre-keys it names, decrypted or not; any other uses up none |
| Authenticity.OneTimeOnce | src/session_cipher.zig:237-298 | a one-time pre-key starts at most one session |
| Ledger.RatchetStep | src/session_cipher.zig:403-427 | the receiving half-step yields the root and chain the peer derived when it made its key; the sending half-step adds an epoch |
| Ledger.KeysFromStored | src/session_cipher.zig:398-401 | a message of a stored epoch gets the sender's keys, or is a duplicate or too far ahead |
| Ledger.KeysFromNew | src/session_cipher.zig:403-430 | so does the first message of the peer's newest epoch, after the ratchet step |
| Ledger.AddNewest | src/state/session_state.zig:146-157 | the chains kept are those of the peer's last five epochs |
| Ledger.FindStored | src/state/session_state.zig:159-167 | each is found under its own ratchet key |
| Ledger.ReloadOk | src/state/session_state.zig:216-477 | storing keeps every chain and forgets cached keys |
| Ledger.FoundIff | src/state/session_state.zig:159-167 | the chain of an epoch is found if and only if it is one of the peer's last five |
| Ledger.Evicted | src/session_cipher.zig:403-430 | for an epoch that is not: a ratchet step from the present root, which fails exactly for an identity element; beyond 25000 an error; otherwise the keys of a chain the peer never had |
| Delivery.ReadSignal | src/session_cipher.zig:325-363 | decryption starts with exactly the fields that were sent |
| Delivery.Opened | src/session_cipher.zig:370-386 | for any state, a genuine message gives the error of taking its keys, nothing when the keys taken give another MAC, and with the sender's own keys its plaintext |
| Delivery.CachedOpensOnly | src/state/session_state.zig:178-198 | a message whose key is cached opens only if the key without a post-quantum part gives it the same MAC as the sender's; always if the sender used none |
| Delivery.FollowingIsMaximum | src/state/session_state.zig:189-191 | a counter is not behind iff it exceeds all counters stored for its epoch |
| Delivery.EvictedOpensOnly | src/session_cipher.zig:318-430 | a message of a dropped epoch: an identity error, or InvalidMessage unless the two keys give it the same eight-byte MAC |
| Delivery.Delivered | src/session_cipher.zig:318-430 | the exact outcome of delivering a genuine message of any epoch, by ledger and history, and a state that the grown ledger and history explain |
| TwoParty.FirstLedger | src/session_builder.zig:97-111 | the two initial states are those of the first two epochs |
| TwoParty.FirstDerived | src/session_cipher.zig:251-281 | the responder's state has the initiator's agreed keys |
| TwoParty.FirstMatch | src/session_cipher.zig:251-281 | the two first states name each other's identity and registration, and share version and base key; the message between them names the bundle's pre-keys |
| TwoParty.FirstRatchet | src/session_cipher.zig:251-281 | the responder's first ratchet step yields the initiator's root and initial sender chain |
| TwoParty.FirstPq | src/session_builder.zig:113-118 | without a Kyber pre-key neither side has a post-quantum state |
| TwoParty.InitInv | src/session_builder.zig:47-150 | processing a valid bundle establishes the invariant |
| TwoParty.Encrypts | src/session_cipher.zig:67-167 | encryption makes the message of its epoch and counter; it fails exactly with the post-quantum step or at the last counter |
| TwoParty.AliceStep | src/session_cipher.zig:67-167 | the initiator's n-th message of an epoch has counter n; a failure changes nothing |
| TwoParty.BobStep | src/session_cipher.zig:67-167 | so has the responder's |
| TwoParty.CountersDiffer | src/session_cipher.zig:67-167 | no two messages of a session have the same epoch and counter |
| TwoParty.IsGenuine | src/session_cipher.zig:365-369 | in every state of a session without Kyber pre-key the receiver's post-quantum step agrees with the sender's |
| TwoParty.ToAliceStep | src/session_cipher.zig:170-190 | a delivery to the initiator returns what ledger and history say; a failure changes nothing |
| TwoParty.InnerToBobStep | src/session_cipher.zig:170-190 | so does one to the responder |
| TwoParty.ToBobFirst | src/session_cipher.zig:237-315 | so does the message that starts the responder's session, unless an earlier failure used up its one-time pre-key |
| TwoParty.ToBobAgain | src/session_cipher.zig:216-235 | in an existing session a pre-key message has the same outcome and nothing is stored |
| TwoParty.BadStep | src/session_cipher.zig:193-315 | a refused message changes nothing, except that one to decryptPreKeyMessage may use up pre-keys |
| Runs.RunInv | src/session_cipher.zig:67-431 | the invariant holds in every state of every run |
| Runs.EveryRun | src/session_cipher.zig:67-431 | in every run every delivery of a genuine message returns exactly what ledger and history say: the plaintext sent, a duplicate, a jump beyond 25000, a dropped chain, an identity error or a missing pre-key; a failure leaves both stores of sessions unchanged |
| Runs.Ahead | src/state/session_state.zig:189-191 | in every run the counter expected next exceeds exactly those of the messages of the epoch whose acceptance an earlier step stored |
| Runs.AcceptedIff | src/session_cipher.zig:67-431 | in every run a message is accepted, with its plaintext, iff its chain can be reached, its counter exceeds those of all messages of its epoch stored before, and it is at most 25000 ahead of them |
| Runs.AtMostOnce | src/session_cipher.zig:170-315 | in every run a message whose acceptance was stored is refused for ever after, as a duplicate while its chain is kept |
| Runs.AcceptedAgain | src/session_cipher.zig:216-235 | an accepted message is accepted again exactly when decryptPreKeyMessage accepted it in a session that existed already (and a new ratchet key can be made) |
| Runs.FourEpochs | src/session_cipher.zig:216-235 | unless the responder is given the inner messages, no run makes more than four ratchet keys |
| Eviction.EvictionHappens | src/state/session_state.zig:146-157 | some run leads to a state where a message still on its way is of a dropped epoch |
| Runs.RootsInStep | src/session_cipher.zig:389-431 | the party that ratcheted last holds root and chain = KDF(other's root, DH of their current ratchet keys) |
| Runs.ChainsFollow | src/session_cipher.zig:389-431 | every stored receiver chain starts from the chain key its peer derived with that ratchet key, and stands after the stored messages of that epoch |
| SealedSenderV2.DeriveEphemeral | src/sealed_sender.zig:615-620 | the derived key, clamped |
| SealedSenderV2.AppendEntries | src/sealed_sender.zig:648-669 | one 68-byte entry a recipient; the first failing agreement is the error |
| SealedSenderV2.AppendExcluded | src/sealed_sender.zig:671-676 | 18 bytes an excluded id |
| SealedSenderV2.Encrypt | src/sealed_sender.zig:604-684 | version, count, entries, excluded ids, ephemeral key, ciphertext |
| SealedSenderV2.ReadRecipientCount | src/sealed_sender.zig:772-782 | the count and where the entries start; a tenth continuation byte traps |
| SealedSenderV2.V2Dispatch | src/sealed_sender.zig:762-814 | the first entry of the device, or the error of its absence |
| SealedSenderV2.Decrypt | src/sealed_sender.zig:687-756 | secret, ephemeral check, ciphertext, authentication tag |
| SealedSenderV2.AcceptanceProves | src/sealed_sender.zig:687-756 | for all data: a message opens iff its secret determines its ephemeral key, its ciphertext opens, and its tag is that of the agreement with the claimed sender; each failure has its error |
| SealedSenderV2.OtherSender | src/sealed_sender.zig:736-753 | a genuine message opens under another sender's identity only if both give its entry the same tag |
| SealedSenderV2.EntryOpens | src/sealed_sender.zig:569-756 | an entry opens with its recipient's key: both checks pass |
| SealedSenderV2.SearchIs | src/sealed_sender.zig:788-799 | searching the bytes is searching the recipient list |
| SealedSenderV2.Dispatched | src/sealed_sender.zig:762-814 | what dispatch makes of every recipient list |
| SealedSenderV2.EndToEnd | src/sealed_sender.zig:569-814 | encryption, dispatch and decryption compose to the identity for every listed device; others get InvalidKeyIdentifier |
| SealedSenderV2.DispatchedExactly | src/sealed_sender.zig:671-814 | a listed device is dispatched what it would be without excluded ids if and only if there are none |
| SealedSenderV2.ExcludedMisread | src/sealed_sender.zig:671-786 | with excluded ids dispatch answers InvalidMessage if and only if the sealed message is shorter than 50 bytes for each of them |
| SealedSenderV2.ExcludedShifts | src/sealed_sender.zig:671-814 | otherwise a listed device gets its own entry with the rest of the message from 50 bytes further on for each of them |
| SealedSenderV2.ExcludedDispatched | src/sealed_sender.zig:671-814 | and the first excluded id is itself dispatched a message, for device 0 |
| SealedSenderV1.MakeServerCertificate | src/sealed_sender.zig:59-80 | the signed fields |
| SealedSenderV1.DeserializeServerCertificate | src/sealed_sender.zig:98-139 | parsing with every error case |
| SealedSenderV1.ServerRoundTrip | src/sealed_sender.zig:90-139 | a server certificate reads back iff its fields are those it signs |
| SealedSenderV1.NewServerBuilt | src/sealed_sender.zig:59-80 | as those of a new one are |
| SealedSenderV1.MakeSenderCertificate | src/sealed_sender.zig:154-195 | the signed fields, with the signer nested |
| SealedSenderV1.DeserializeSenderCertificate | src/sealed_sender.zig:218-294 | parsing with every error case |
| SealedSenderV1.SenderRoundTrip | src/sealed_sender.zig:210-294 | a sender certificate made by `new` reads back, optional number included |
| SealedSenderV1.GenuineValidates | src/sealed_sender.zig:204-208 | a genuine chain of certificates validates exactly until it expires |
| SealedSenderV1.ValidatesIff | src/sealed_sender.zig:204-208 | every certificate validates iff it has not expired, the trust root signed its signer, and its signer signed it |
| SealedSenderV1.AcceptedIsSigned | src/sealed_sender.zig:98-294 | of whatever is read and validates, every field is in the bytes that were signed |
| SealedSenderV1.SerializeMessageContent | src/sealed_sender.zig:332-345 | the default hint is not written |
| SealedSenderV1.DeserializeMessageContent | src/sealed_sender.zig:347-392 | parsing with every error case; unknown types trap |
| SealedSenderV1.ContentRoundTrip | src/sealed_sender.zig:332-392 | a content reads back through all nested encodings |
| SealedSenderV1.SealedSenderEncrypt | src/sealed_sender.zig:406-475 | ephemeral layer, static layer bound to it, three fields |
| SealedSenderV1.SealStatic | src/sealed_sender.zig:433-466 | the static layer |
| SealedSenderV1.SealedHolds | src/sealed_sender.zig:406-475 | what both layers of a sealed message decrypt to, under keys told by HMAC, and the MAC of the static one |
| SealedSenderV1.SealedSenderDecrypt | src/sealed_sender.zig:493-529 | the ephemeral layer only |
| SealedSenderV1.V1RoundTrip | src/sealed_sender.zig:406-529 | decrypting an encryption returns the same content |
| SealedSenderV1.OpensWithAnyStatic | src/sealed_sender.zig:493-529 | it does so whatever the static part is: the sender binding is not checked |
| Ristretto.TimesReduced | src/username.zig:128-137 | only a scalar modulo the group order matters |
| Ristretto.TimesProduct | src/username.zig:128-137 | multiplying twice is multiplying by the product |
| Ristretto.TimesAdd | src/username.zig:128-137 | multiplication distributes over points |
| Ristretto.CombineIs | src/username.zig:226-229 | the three-term sum, with its optional term, or exactly the identity error |
| Username.MakeS2 | src/username.zig:154-171 | Horner's rule with reductions gives the exact radix 27 and 37 number, as 32 little-endian bytes |
| Username.NoWrap | src/username.zig:154-171 | for at most 32 characters no reduction takes effect and nothing overflows |
| Username.NicknameInjective | src/username.zig:118-171 | the number determines a lower-cased nickname whose first character is no digit |
| Username.S3Is | src/username.zig:174-178 | the third scalar is the discriminator |
| Username.ScalarsDetermine | src/username.zig:154-178 | the second and third scalars determine nickname and discriminator |
| Username.SameScalars | src/username.zig:200-224 | so two valid usernames with the same scalars differ at most in letter case and in how the discriminator is written |
| Username.Sho.AbsorbAndRatchet | src/username.zig:88-91 | absorb, then ratchet |
| Username.Sho.SqueezeAndRatchet | src/username.zig:93-113 | the first bytes of the counted MAC blocks, then ratchet |
| Username.ComputeHash | src/username.zig:200-232 | validation, lower-casing and the hash point |
| Soundness.HashIs | src/username.zig:200-232 | exactly which usernames have a hash, and that it is s1 G1 + number G2 + discriminator G3 |
| Username.UsernameProof | src/username.zig:260-332 | transcript, synthetic nonces, commitment, challenge, responses |
| Username.UsernameVerify | src/username.zig:335-371 | recomputed commitment and challenge |
| Soundness.ChallengeIs | src/username.zig:355-369 | the challenge in terms of HMAC over domain, statement, generators, hash and commitment |
| Soundness.OneCommitment | src/username.zig:349-353 | the equation R + c hash = r1 G1 + r2 G2 + r3 G3 has exactly one solution R |
| Soundness.VerifyDecides | src/username.zig:335-371 | for every proof and hash: accepted iff its first part is the challenge of that R, refused if not; false for a wrong length or no point, an error for an identity |
| Soundness.Extracts | src/username.zig:335-371 | two proofs for one commitment with different challenges determine three scalars whose combination is the hash |
| Username.SameCommitment | src/username.zig:312-353 | the recomputed commitment is the prover's |
| Username.SecretsVerify | src/username.zig:260-371 | a proof verifies against the hash of its secrets, exactly unless one of the verifier's multiplications is the identity |
| Username.Complete | src/username.zig:200-371 | so it does for every valid username and randomness |

## Left out

- The SPQR state machine (`src/spqr/state.zig`, `chain.zig`, `authenticator.zig`): sending and receiving
  are functions of the state; sessions with a Kyber pre-key are proved for every post-quantum key that
  the receiver's step yields equal to the sender's (`PqAgrees`). Without one nothing is assumed.
- PolyCodec.ErasureCode: the serialized form of encoder and decoder is not modelled, nor are chunk indices from
  65536 on, which trap. Joining and splitting big-endian symbols is written as arithmetic.
- Runs.EveryRun: deliveries of dropped epochs are those for which the two MACs differ (`NoCollision`);
  what a collision of eight-byte MACs leads to is not followed further. Messages not made in the session
  enter a run as refused ones; one that were accepted would be a forgery, or would start another session.
- Complete: the error `InvalidArgument` of decimal parsing comes from the parameter `parse`; the accepted
  spellings of a discriminator are those of Zig's standard library, which is not part of this model.
- Internals of the primitives, among them failures of signing and key generation that happen only for
  degenerate random values.
- The stores' callbacks: sender-key stores are maps from address and id to bytes, session stores maps
  from address to a record as `SessionRecordRoundTrip` leaves it; a missing pre-key is
  `InvalidKeyIdentifier`. The identity store's trust decision is a parameter, and saving identities is
  not modelled.
- The byte size of what is read and written is assumed to fit the address space, where that matters as a
  precondition.
- `decryptPreKeyMessage` is not atomic: its pre-keys are used up before decryption, as modelled.
- The address binding of `SignalMessage`, which the session cipher never sets.
- `GroupCipher` and `SessionCipher` load and store through objects of this project instead of the
  library's callback tables; allocation failures do not occur.
- `writeBoolField`, `DecryptionErrorMessage` and `PlaintextContent`: codecs as easy as those modelled.
- AES-GCM, the streaming GCM objects, GCM-SIV beyond its law, `signal_hkdf_derive`: calls into the
  standard library.
- FFI handles, error objects, null parameters, `c_api.zig` and the language bindings. FfiIncremental and
  FfiValidating model the arithmetic of their calls only.
- FfiIncremental: use after finalize, where the count of returned MACs is no longer valid and the next
  slice traps.
- Fingerprints, UUIDs and service ids, account keys, addresses, archived-session look-up: easy members.
- Timing, memory wiping and secrecy.
