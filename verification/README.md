# robot-go, modelled and proved in Dafny

robot-go drives game servers with simulated players: a master splits a case over agents, each agent schedules its
accounts over workers under a rate limit, every call travels through an encrypted gateway session, and the latencies
come back as per-second records that the master merges into one report. This project models the parts of it whose
correctness is not visible from one function, and proves what they promise.

`dafny verify dfyconfig.toml` checks everything.

| files | what they model |
|---|---|
| `Xxtea`, `BlockAlign`, `IvChain`, `Ciphers` | the XXTEA cipher down to its in-place word loops, padding, IV chains, and the suites over abstract library primitives |
| `Framing`, `GatewaySession`, `GatewayHandshake`, `GatewayRehandshake`, `GatewayRefusals`, `GatewayStream`, `LiveSession` | frames on a byte stream, the session as a value with its whole-run theorems, what it refuses, the handshake with the server's side of it, and the session object with fields and IV arrays updated in place |
| `Scheduler`, `SchedulerRuns`, `CaseRun` | the token scheduler as atomic steps in arbitrary interleaving, its runs, and the object whose methods are those steps |
| `BalanceSplit`, `Fleet`, `CaseLines` | the master's split of an account range, the fleet-wide run count, and the barriers between case lines |
| `Tracer`, `MemoryTracer`, `TracerSteps`, `Moments`, `Grouping`, `TracingRecords`, `TracingCompact`, `TracingTotals`, `TracingOrder`, `TracingLaws`, `TracingPipeline`, `TracingReport` | the double-banked tracer, the merging of its records, and the path from recorded call to final report |
| `Pressure`, `PressureRates`, `PressureController` | the adaptive rate controller as a state machine, its rates over whole runs, and the object |
| `TokenBucket`, `QpsController` | the rate limiter as atomic steps and as an object |
| `TaskFinish`, `TaskFinishRuns`, `TaskAction` | competing `Finish` and `InitOnFinish` calls, and a task object |
| `RpcRing`, `RpcRingBuffer`, `RpcRingSteps` | the ring of pending calls, the plain map it stands for, and one slot under overlapping calls |
| `Wrappers`, `Bytes`, `DivMod`, `Masks` | shared types and arithmetic |

Where the source updates fields or arrays in place the model is a class or an array method, and each method is proved
equal to a step function on values; the theorems about whole runs are about those step functions. Where goroutines
share state the model is a set of atomic steps, and a run is any sequence of enabled steps.

## Findings

Some promises fail on some inputs. Each failure is shown by a lemma, and a lemma (in some cases the same) says exactly
when it happens.

- A payload that is empty when it reaches a CBC cipher is encrypted to nothing, and the receiver refuses it: exactly
  this payload is not delivered (`GatewaySession.PostRoundTrip`, `Ciphers.SuiteRoundTrip`).
- A second handshake that selects no compression keeps the compressor of the first. Posts are then compressed without
  saying so, and without padding no compressed payload is delivered (`GatewayRehandshake.StalePayloadIsLost`; exactly
  when: `GatewayRehandshake.StaleDelivery`, `GatewayRehandshake.HandshakeDelivers`).
- A later handshake that fails because its cipher cannot be made takes the session's cipher away, and its posts go on
  in the clear (`GatewayRehandshake.FailedHandshakeUnseals`; exactly when: `GatewayRehandshake.SealedExactly`).
- The session token is never cut to its length, so a client keeps the padding of CBC and XXTEA, and a token whose IV
  is not announced is dropped (`GatewayHandshake.ShortTokenIsPadded`, `GatewayHandshake.UnannouncedTokenIsDropped`;
  exactly when: `GatewayHandshake.TokenExact`).
- A frame of 2^32 bytes or more announces a wrong length (exactly when: `Framing.WireRoundTrip`).
- XXTEA divides by the low 32 bits of the number of words (`Xxtea.FourGigaWordsPanic`; exactly when:
  `Xxtea.DecryptUndoesEncrypt`).
- Merging records reads a negative minimum as "unset", so that it is lost and the result can depend on the order of
  the records (`TracingOrder.NegativeMinimumDependsOnOrder`; exactly when: `TracingTotals.MinimumKept`,
  `TracingOrder.OrderIndependent`).
- Truncated variances can cost the merged variance one, never more (`TracingPipeline.TruncationCanCostOne`; exactly
  when: `TracingPipeline.GatheredSummary`).
- A callback registered between the winning swap and the store of the result is called without the result
  (`TaskFinishRuns.LateCallbackSeesNoResult`; exactly when: `TaskFinishRuns.DirectCallResult`).
- Refunds that arrive after a refill lift the bucket of the rate limiter over its burst cap, by up to one token per
  worker (`TokenBucket.RefundsExceedCap`; exactly when: `TokenBucket.CapExact`).
- A positive rate below a millionth per second is stored as a target of zero, which means no limit (exactly when:
  `TokenBucket.RateHeld`).
- A tick of the rate limiter that is due less than one unit adds nothing, and what it was due is lost: with ticks of a
  millisecond a rate from a millionth to below a thousandth per second grants one token and then none
  (`TokenBucket.OneTokenOnly`; exactly when: `TokenBucket.SleepersServed`, `TokenBucket.SlowRatesStarve`).
- Easing off under strain raises the rate when earlier cuts have left it below four fifths of the safe rate
  (`PressureRates.TwoCutsThenRise`; exactly when: `PressureRates.StrainRaises`).
- A call whose writer is overtaken by a flush's swap and harvest between reading the active index and locking the bank
  is thrown away by the next flush, if it locks the bank before that clears it (`TracerSteps.OvertakenCallIsLost`;
  exactly when: `TracerSteps.CountedExactly`).

The code is followed where its comments differ: slow start multiplies by 1.3 (a comment says 1.8), probing adds 2% (a
comment says 4%), and the CBC cipher pads to the next block with bytes that hold the padding's length, but adds no
block to aligned data and never takes padding off (its heading says PKCS7).

## Model

| member | source | states |
|---|---|---|
| `XxteaRounds.StepsCancel` | conn/atgateway/crypto_cipher.go:265-307 | for any arithmetic in which subtraction undoes addition, updating one word and taking the update back are inverse in both orders |
| `XxteaRounds.RoundCancels` | conn/atgateway/crypto_cipher.go:273-306 | one whole pass over the words and the reverse pass are mutual inverses, for any number of words from two on |
| `XxteaRounds.RoundEquations` | conn/atgateway/crypto_cipher.go:276-283 | an independent description of a pass: each word is its old value plus the mix of its already updated left and not yet updated right neighbour, cyclically |
| `XxteaRounds.SumByCounting` | conn/atgateway/crypto_cipher.go:274-305 | the running sum after r rounds is the r-fold delta, however the two loops reach it |
| `XxteaRounds.RoundsCancel` | conn/atgateway/crypto_cipher.go:265-307 | any number of encryption rounds and as many decryption rounds are mutual inverses |
| `XxteaRounds.EncryptLoop` | conn/atgateway/crypto_cipher.go:272-284 | the in-place loop over an array computes the rounds defined on sequences |
| `XxteaRounds.DecryptLoop` | conn/atgateway/crypto_cipher.go:294-306 | the in-place loop counting the sum down to zero computes the inverse rounds |
| `Xxtea.Uint32Cancels` | conn/atgateway/crypto_cipher.go:265-311 | 32-bit wrap-around addition and subtraction cancel, whatever the key mixes in |
| `Xxtea.SumIsProduct` | conn/atgateway/crypto_cipher.go:293-293 | the initial sum of decryption, the product of rounds and delta modulo 2^32, is the final sum of encryption |
| `Xxtea.WordsInverse` | conn/atgateway/crypto_cipher.go:265-307 | encrypting and decrypting words are mutual inverses under any cancelling arithmetic, with the same number of rounds chosen from the same length |
| `Xxtea.BlocksInverse` | conn/atgateway/crypto_cipher.go:265-307 | for every key and every length on which the code does not panic, block decryption and block encryption are mutual inverses |
| `Xxtea.EncryptBlock` | conn/atgateway/crypto_cipher.go:265-285 | the in-place block encryption equals the function proved invertible |
| `Xxtea.DecryptBlock` | conn/atgateway/crypto_cipher.go:287-307 | the in-place block decryption equals the inverse function |
| `Xxtea.MixReadsOneWord` | conn/atgateway/crypto_cipher.go:309-311 | step p under a sum reads the key word whose number is p turned by two bits of the sum, and no other: two keys give the same amount if and only if they agree on that word |
| `Xxtea.MixAtZero` | conn/atgateway/crypto_cipher.go:309-311 | between neighbours of zero a step adds the sum and that key word modulo 2^32 |
| `Xxtea.MixWithoutSum` | conn/atgateway/crypto_cipher.go:309-311 | a sum equal to the right neighbour cancels it, and the amount is the shifted neighbours joined with the key word and the left neighbour; the shifts are division by 32 and 8 and multiplication by 4 and 16 modulo 2^32 |
| `Xxtea.MixWithoutKey` | conn/atgateway/crypto_cipher.go:309-311 | a key word equal to the left neighbour cancels it, and the amount is the shifted neighbours joined with the sum and the right neighbour |
| `Xxtea.DeltaIsGolden` | conn/atgateway/crypto_cipher.go:219-219 | the step constant is the golden section of 2^32 rounded down, and no other number is |
| `Xxtea.RoundsEnough` | conn/atgateway/crypto_cipher.go:270-270 | beyond six passes there are as many as make at most 52 word updates |
| `Xxtea.NewKeyReads` | conn/atgateway/crypto_cipher.go:226-237 | a key is accepted if and only if it has 16 bytes, and its words are the values of four bytes each, highest first |
| `Masks.XorBitsMeaning` | conn/atgateway/crypto_cipher.go:309-311 | a bit of the exclusive or is set exactly when it is set in one of the two numbers |
| `Xxtea.PaddedTells` | conn/atgateway/crypto_cipher.go:239-247 | every byte of padding tells how many there are, up to eight for an empty message |
| `Xxtea.WordsOfBytes` | conn/atgateway/crypto_cipher.go:313-328 | packing words into bytes loses nothing |
| `Xxtea.BytesOfWords` | conn/atgateway/crypto_cipher.go:313-328 | unpacking whole words from bytes loses nothing |
| `Xxtea.BytesToWords` | conn/atgateway/crypto_cipher.go:313-320 | the unpacking loop |
| `Xxtea.WordsToBytes` | conn/atgateway/crypto_cipher.go:322-328 | the packing loop |
| `Xxtea.AlignedInverse` | conn/atgateway/crypto_cipher.go:239-261 | at byte level both compositions are the identity on word-aligned data |
| `Xxtea.DecryptUndoesEncrypt` | conn/atgateway/crypto_cipher.go:239-261 | encryption succeeds exactly when the padded data is not a positive multiple of 2^32 words, and panics otherwise; the ciphertext is then not empty, 8-byte aligned, and decrypts to the padded plaintext, of which the plaintext is a prefix |
| `Xxtea.FourGigaWordsPanic` | conn/atgateway/crypto_cipher.go:270-270 | 2^32 words of zeros make encryption panic |
| `Xxtea.EncryptUndoesDecrypt` | conn/atgateway/crypto_cipher.go:239-261 | decryption succeeds exactly on whole blocks, at least one, that are not a multiple of 2^32 words; encrypting its result gives back exactly the ciphertext |
| `Xxtea.EncryptBytes` | conn/atgateway/crypto_cipher.go:239-252 | the cipher method, with padding and packing, equals the function the round trips are about |
| `Xxtea.DecryptBytes` | conn/atgateway/crypto_cipher.go:254-261 | the cipher method, with its length check, equals the function the round trips are about |
| `BlockAlign.Missing` | conn/atgateway/crypto_cipher.go:335-347 | the number of padding bytes is the least that completes a block |
| `BlockAlign.PadAligns` | conn/atgateway/crypto_cipher.go:335-347 | padding aligns, keeps the data as a prefix, adds less than a block, and adds nothing to aligned data, so that empty data stays empty |
| `BlockAlign.PadTells` | conn/atgateway/crypto_cipher.go:335-347 | every byte of padding tells how many there are |
| `BlockAlign.PadNeedsLength` | conn/atgateway/crypto_cipher.go:335-347 | padding is not injective: unaligned data and its padded form pad alike, so the length has to travel separately |
| `BlockAlign.BlockAlignPad` | conn/atgateway/crypto_cipher.go:335-347 | the copying code computes the padding |
| `IvChain.ValueInjective` | conn/atgateway/crypto_cipher.go:54-61 | IVs of one length are equal when their big-endian values are |
| `IvChain.IncrementAddsOne` | conn/atgateway/crypto_cipher.go:54-61 | incrementing adds one modulo 256^n to the big-endian value |
| `IvChain.IncrementInPlace` | conn/atgateway/crypto_cipher.go:54-61 | the byte loop with its early exit computes the increment |
| `IvChain.AdvanceAdds` | conn/atgateway/crypto_cipher.go:54-61 | k increments add k modulo 256^n |
| `IvChain.AdvanceCycle` | conn/atgateway/crypto_cipher.go:54-61 | two members of a chain of increments are equal if and only if their distance is a multiple of 256^n |
| `IvChain.RollInPlace` | conn/atgateway/crypto_cipher.go:42-51 | rolling in place follows the policy: nothing, increment, or the tail of the ciphertext when it is long enough |
| `Ciphers.XorCancels` | conn/atgateway/crypto_cipher.go:145-163 | exclusive or with the same bytes twice gives the bytes back |
| `Ciphers.CbcRoundTrip` | conn/atgateway/crypto_cipher.go:145-163 | chained decryption undoes chained encryption on every whole number of blocks, given only that the block cipher has an inverse |
| `Ciphers.CbcEquations` | conn/atgateway/crypto_cipher.go:145-152 | every block is the AES encryption of its plain block joined with the encrypted block before it, the first one with the IV (section 6.2 of NIST SP 800-38A) |
| `Ciphers.CbcContinues` | conn/atgateway/crypto_cipher.go:42-51 | with the IV rolled to the ciphertext tail, encrypting two messages one after the other equals encrypting their concatenation |
| `Ciphers.NewSuiteFits` | conn/atgateway/crypto_cipher.go:74-99 | a suite is made exactly for the supported algorithms and keys of their size, and belongs to the algorithm asked for |
| `Ciphers.AlgorithmSizes` | conn/atgateway/crypto_kdf.go:22-49 | key, IV and nonce sizes, as the algorithms' names and standards give them |
| `Ciphers.DecryptAccepts` | conn/atgateway/crypto_cipher.go:120-260 | a suite decrypts exactly what the library finds authentic, or whole blocks and at least one, under an IV of its size |
| `Ciphers.SuiteRoundTrip` | conn/atgateway/crypto_cipher.go:120-261 | each suite encrypts exactly the IVs and lengths it accepts; decrypting gives the plaintext with its padding, except that CBC refuses the nothing it made of nothing |
| `Ciphers.RecoveredExact` | conn/atgateway/crypto_cipher.go:145-261 | the padding a suite leaves on changes nothing exactly for AEAD, for whole blocks under CBC, and for whole blocks and something under XXTEA |
| `Framing.EncodeFrame` | conn/atgateway/framing.go:14-21 | the frame written into a buffer equals its specification |
| `Framing.FrameLayout` | conn/atgateway/framing.go:14-21 | eight bytes of header, hash before length, both lowest byte first, and the payload |
| `Framing.DecodeFrames` | conn/atgateway/framing.go:26-54 | the decoding loop, advancing the data and appending frames, equals the recursive decoder |
| `Framing.FramesDecode` | conn/atgateway/framing.go:14-54 | frames in front of any data decode to their payloads, and the data behind them decodes as if alone |
| `Framing.WireRoundTrip` | conn/atgateway/framing.go:14-54 | a list of payloads is recovered with nothing left over if and only if each is shorter than 2^32 bytes |
| `Framing.DecodeMeaning` | conn/atgateway/framing.go:26-54 | what decoding means: it returns these frames and this remainder if and only if the data is exactly the encoded frames followed by the remainder, and the remainder is no complete frame |
| `Framing.ChunkInvariant` | conn/atgateway/framing.go:26-54 | decoding a prefix and then the remainder with the rest gives the same frames, remainder and error as decoding all at once |
| `Framing.FeedIsDecode` | conn/atgateway/framing.go:26-54 | reading a stream in any chunks is decoding the whole stream |
| `GatewaySession.PostRoundTrip` | conn/atgateway/gateway_session.go:254-391 | for every negotiated cipher and compressor, decoding an encoded post gives exactly the payload if and only if it is not an empty body under CBC |
| `GatewaySession.FailureKeepsChains` | conn/atgateway/gateway_session.go:254-391 | a failed encode or a failed decryption leaves the whole session unchanged |
| `GatewayRefusals.PostSent` | conn/atgateway/gateway_session.go:254-325 | a post goes out if and only if the handshake is done, the payload is within the size limit or there is none, the compressor does not fail, and a session that encrypts has an IV and a length its cipher accepts and randomness for an AEAD |
| `GatewayRefusals.PostRefused` | conn/atgateway/gateway_session.go:254-305 | the error is that of the first of these that fails |
| `GatewayRefusals.PostCarries` | conn/atgateway/gateway_session.go:254-325 | what a post carries: the plain length; the shorter of payload and compressed form, compressed exactly from the threshold on; the IV it was encrypted under; and, sealed under the session's key, the random bytes as associated data |
| `GatewayRefusals.PostReceived` | conn/atgateway/gateway_session.go:346-391 | a post that arrives is refused exactly when the cipher or the decompressor refuses it, with the error of that one, and the result is never longer than the post tells |
| `GatewayRefusals.HandshakeDecided` | conn/atgateway/gateway_session.go:135-238 | a handshake succeeds exactly when its suite can be made, its token opened and its compressor created, and fails with the first of these that cannot; it takes the first algorithm and compression listed, and only success makes the session ready |
| `GatewaySession.SendDelivers` | conn/atgateway/gateway_session.go:286-366 | a post that carries its IV, or omits it while the chains agree, is delivered and leaves the chains in agreement |
| `GatewaySession.ChainsStayEqual` | conn/atgateway/gateway_session.go:286-366 | over every run of posts, refused posts and rejected messages, sender and receiver chains stay equal and the payloads received are those sent, in order |
| `GatewayHandshake.HandshakeSyncs` | conn/atgateway/gateway_session.go:189-230 | a server that seals a token or sends none, and announces its IV or leaves it to the key derivation, is answered by a handshake that succeeds exactly when there is such a compressor, from any earlier state of the client; in either case both ends hold the same cipher and the client's receiving IV stands where the server's sending IV stands |
| `GatewayHandshake.TokenExact` | conn/atgateway/gateway_session.go:198-205 | the client holds the server's token if and only if the IV is announced and the cipher did not pad it: always for AEAD, for whole blocks under CBC, for whole blocks and something under XXTEA; a token not announced, and nothing sealed by CBC, leave the token of an earlier handshake |
| `GatewayHandshake.ShortTokenIsPadded` | conn/atgateway/gateway_session.go:198-205 | a one-byte token comes back from CBC as sixteen bytes |
| `GatewayHandshake.UnannouncedTokenIsDropped` | conn/atgateway/gateway_session.go:198-222 | a token whose IV is not announced is dropped under every cipher by a handshake that otherwise goes through |
| `GatewayHandshake.HandshakeThenRun` | conn/atgateway/gateway_session.go:135-391 | from such a handshake on, with a token or none, announced or not, and the same compressor at both ends, every run keeps the chains equal and delivers every payload the server sends, but for those a CBC cipher encrypts to nothing |
| `GatewayRehandshake.HandshakeStale` | conn/atgateway/gateway_session.go:224-230 | after a handshake the compressor is stale exactly when no compression is selected and an earlier handshake had made one |
| `GatewayRehandshake.StaleDelivery` | conn/atgateway/gateway_session.go:268-391 | with a stale compressor and any cipher, a payload is delivered if and only if it is a prefix of its compressed body with the cipher's padding; without padding the body itself arrives, so no compressed payload is delivered |
| `GatewayRehandshake.StalePayloadIsLost` | conn/atgateway/gateway_session.go:224-391 | a library, two handshakes and a payload of three bytes that arrives as one |
| `GatewayRehandshake.HandshakeDelivers` | conn/atgateway/gateway_session.go:135-391 | after any handshake, an accepted payload is delivered to a peer set up alike if and only if it is not an empty body under CBC and, should the compressor be stale, that prefix condition holds |
| `GatewayRehandshake.SealedExactly` | conn/atgateway/gateway_session.go:189-312 | through any run of later handshakes, successful or not, a session that encrypts goes on encrypting every post if and only if none of them selects no cipher or one that cannot be made |
| `GatewayRehandshake.FailedHandshakeUnseals` | conn/atgateway/gateway_session.go:189-196 | a handshake that fails on the unsupported stream cipher leaves the session posting in the clear |
| `GatewayStream.PostRollsIV` | conn/atgateway/gateway_session.go:286-312 | a post carries the IV it was encrypted under and rolls the chain by its own ciphertext; a refused one changes nothing |
| `GatewayStream.AeadIVs` | conn/atgateway/gateway_session.go:286-312 | the posts of an AEAD session carry consecutive IVs |
| `GatewayStream.IVsUnique` | conn/atgateway/gateway_session.go:286-312 | two posts of an AEAD session carry the same IV if and only if they are a multiple of 256^n posts apart, which meets the uniqueness requirement of section 8 of NIST SP 800-38D within 256^n posts |
| `GatewayStream.CbcSessionIsOneStream` | conn/atgateway/gateway_session.go:286-312 | all ciphertexts of a CBC session together are one CBC encryption of all padded bodies |
| `GatewayStream.MessagesDelivered` | conn/atgateway/gateway_session.go:254-391 | over every run of inputs, the receiver decodes exactly the payloads that were accepted |
| `GatewayStream.StreamDelivers` | conn/atgateway/gateway_session.go:254-391 | end to end: serialised, framed, cut into any chunks, reassembled and decoded, a session's messages give exactly the accepted payloads |
| `LiveSession.Live.constructor` | conn/atgateway/gateway_session.go:60-62 | a new session |
| `LiveSession.Live.EncodePost` | conn/atgateway/gateway_session.go:254-325 | the method equals the function whose refusals and posts are characterised above, with the IV array rolled in place and one message counted on success only |
| `LiveSession.Live.Compress` | conn/atgateway/gateway_session.go:264-282 | the body is compressed exactly when that is switched on, worth trying and shorter |
| `LiveSession.Live.Seal` | conn/atgateway/gateway_session.go:284-312 | encryption under the current IV, with associated data exactly when the cipher held is AEAD; the IV rolls only on success |
| `LiveSession.Live.DecodePost` | conn/atgateway/gateway_session.go:346-391 | likewise for receiving, with the IV array replaced by a copy when the message names one |
| `LiveSession.Live.HandleKeyExchangeRsp` | conn/atgateway/gateway_session.go:135-238 | the handshake method equals its function on every path, a compressor that does not exist included, with what a failure has already changed |
| `LiveSession.Live.AcceptToken` | conn/atgateway/gateway_session.go:198-205 | the token is decrypted under the announced IV; a failure clears it and stops |
| `LiveSession.Live.InstallIVs` | conn/atgateway/gateway_session.go:207-218 | the two directions get separate copies of the derived IV |
| `LiveSession.Live.StartChains` | conn/atgateway/gateway_session.go:207-222 | an encrypted token rolls the receiving chain |
| `LiveSession.Live.Establish` | conn/atgateway/gateway_session.go:207-238 | the rest of a handshake, including a compressor that does not exist, which fails it after the chains have been set up |
| `Scheduler.EffectiveRunTime` | case/case.go:192-195 | a positive run time is kept, any other becomes one |
| `Scheduler.BatchSize` | case/case.go:197-205 | the requested batch when it is between one and the run time, else the run time, and in both cases five when that is less |
| `Scheduler.WorkerCount` | case/case.go:250-274 | half the processors, at least one and at most one per account |
| `Scheduler.Setup` | case/case.go:187-274 | every account range that is not empty and all parameters give a valid configuration: the range's accounts, the effective run time, the batch asked for where it is possible and the run time otherwise but at most five, and half the processors as workers but at least one and at most the accounts |
| `Scheduler.ShareFits` | case/case.go:276-283 | the batches of all accounts of a worker fit its channel, and every worker owns an account |
| `Scheduler.StepKeeps` | case/case.go:341-407 | every step of every interleaving keeps the conservation law: per account, tokens issued are exactly accounted for by runs finished, in flight, pending and queued |
| `Scheduler.LiveTokensBounded` | case/case.go:341-347 | per account, queued, running and pending tokens are exactly the smaller of the batch and the runs still to finish, and runs never exceed the run time |
| `Scheduler.PushNeverBlocks` | case/case.go:341-347 | a finish callback that has a token to return always finds room in the channel, even after the worker has left |
| `Scheduler.NeverStuck` | case/case.go:370-407 | a worker that has not left can dispatch, or one of its accounts has a callback that can return a token now or after one step |
| `Scheduler.QuietMeansDone` | case/case.go:370-407 | when nothing can happen any more every worker has left and nothing is in flight, and unless broken off every account has run exactly the run time |
| `SchedulerRuns.StartInv` | case/case.go:276-311 | the filled channels satisfy the conservation law |
| `SchedulerRuns.StepDescends` | case/case.go:341-407 | every step decreases the remaining work |
| `SchedulerRuns.RunsEnd` | case/case.go:341-407 | no interleaving is longer than three steps per run and one per worker |
| `SchedulerRuns.ExactRuns` | case/case.go:192-407 | every run that is not broken off executes each account exactly the run time, and every worker leaves |
| `CaseRun.FillFits` | case/case.go:285-311 | no send of the filling loops blocks |
| `CaseRun.Run.constructor` | case/case.go:276-311 | the filling loops produce the start state of the state machine |
| `CaseRun.Run.FillPass` | case/case.go:287-310 | one pass over all accounts adds one token and one ticket per account |
| `CaseRun.Run.SendToken` | case/case.go:295-308 | one send of the filling loops |
| `CaseRun.Run.DispatchNext` | case/case.go:378-406 | the worker loop's turn is a dispatch step |
| `CaseRun.Run.DrawTicket` | case/case.go:341-345 | the callback's counter increment is a claim step, and a token is granted exactly while the counter was below the run time |
| `CaseRun.Run.SendBack` | case/case.go:345-347 | the callback's send is a push step and is always possible |
| `BalanceSplit.Split` | mode/master/distributor.go:187-226 | the shards are contiguous, not empty and tile the range exactly; none for an empty or reversed range; no shard holds a whole account more than an equal part, all but the last are equally large, and as many of that size as there are agents cover the range; every shard has an equal part of a positive rate, and any other rate as it is |
| `BalanceSplit.Cut` | mode/master/distributor.go:191-226 | the loop over the agents, skipping empty shards |
| `BalanceSplit.CeilingCovers` | mode/master/distributor.go:189-189 | the rounded-up share covers the range and no smaller one does, with Go's truncating division for reversed ranges |
| `BalanceSplit.Partition` | mode/master/distributor.go:191-200 | an account belongs to the range if and only if some shard holds it, and then exactly one does |
| `BalanceSplit.RateKept` | mode/master/distributor.go:206-209 | the shards' rates sum to at most the target, and to the target if and only if no agent is skipped |
| `Fleet.AgentRunsEach` | case/case.go:187-311 | an agent that completes runs each account of its shard exactly the case's effective run time and no other, whatever its processors and the batch asked for |
| `Fleet.FleetRunsEveryAccount` | mode/master/distributor.go:187-226 | over the whole fleet every account of the range runs exactly the case's effective run time, and none outside it |
| `CaseLines.BarrierIsLastFence` | mode/master/distributor.go:65-125 | the barrier of a line is the last earlier foreground line or round end |
| `CaseLines.OrderlyOnce` | mode/master/distributor.go:49-125 | lines start once each in order of their index, and are waited for in that order |
| `CaseLines.OrderlyBarrier` | mode/master/distributor.go:65-125 | when a line starts, every line up to its barrier has already reported |
| `CaseLines.LinesWait` | mode/master/distributor.go:49-125 | a line starts only after every line up to the last foreground line or end of a round before it has reported |
| `CaseLines.WaitBackground` | mode/master/distributor.go:51-63 | waiting collects results in order and stops at the first failed breaking line |
| `CaseLines.RunLine` | mode/master/distributor.go:66-117 | one line: the cancellation check, the start, and the wait of a foreground line |
| `CaseLines.RunRound` | mode/master/distributor.go:65-123 | one round of lines and the wait at its end |
| `CaseLines.RunRounds` | mode/master/distributor.go:65-124 | the rounds one after the other, each starting where the one before ended |
| `CaseLines.DistributeAndWait` | mode/master/distributor.go:49-125 | the whole run keeps to the order; unless it is cancelled, the result is nil if and only if no started line both failed and has its error-break flag set, and then all lines of all rounds were started and reported once; otherwise it names the first such line |
| `Moments.WelfordCentred` | report/impl/tracing_impl.go:94-105 | Welford's update keeps mean and deviation exact over the reals |
| `Moments.ChanCentred` | report/tracing_compact.go:44-59 | merging two parts keeps mean and deviation exact over the reals |
| `Moments.CentredVariance` | report/tracing_compact.go:91-98 | the accumulator's quotient is the population variance, defined independently as the mean squared distance from the mean |
| `Moments.LossSmall` | report/impl/tracing_impl.go:163-165 | truncating a part's variance to an integer takes less than its count from the square sum it stands for |
| `Moments.LossIsFraction` | report/impl/tracing_impl.go:163-165 | per sample, it takes the fraction cut off the variance |
| `Moments.VarianceWithinOne` | report/tracing_compact.go:91-98 | if less than one per sample is missing, the merged integer variance is the floor of the true one or one less, and it is the floor if and only if no more is missing than truncating the true variance takes |
| `TracingRecords.SortedUnique` | report/tracing_compact.go:102-110 | a strictly sorted list is determined by its members |
| `TracingRecords.BeforeMeans` | report/tracing_compact.go:102-110 | the comparison puts lower seconds first; within a second names by their first differing position; and of one name the ended calls first |
| `TracingRecords.SortSorts` | report/tracing_compact.go:102-110 | sorting records with distinct keys gives a strictly sorted list |
| `Grouping.FoldPermutation` | report/tracing_compact.go:32-75 | reordering a group does not change its fold when the steps commute |
| `Grouping.PutAllGroups` | report/tracing_compact.go:32-75 | the map and order list built record by record hold, per key, the fold of exactly its records in order |
| `Grouping.GroupAll` | report/tracing_compact.go:32-75 | the loop over map and list |
| `TracingCompact.CompactionUnique` | report/tracing_compact.go:7-113 | an input has one compaction: a strictly sorted list with one summary per key |
| `TracingCompact.Compact` | report/tracing_compact.go:7-113 | the function returns that compaction, in which seconds never fall, names rise within a second by their first differing position, and ended calls come before started ones of the same name |
| `TracingTotals.SummaryTotals` | report/tracing_compact.go:77-100 | the emitted record depends on plain sums only: the order of merging inside a group does not enter its mean and variance |
| `TracingTotals.Conserved` | report/tracing_compact.go:61-75 | count, total, and every code and error tally of a key are the sums over its records |
| `TracingTotals.MinimumKept` | report/tracing_compact.go:53-95 | the emitted minimum is the least one if and only if no minimum is negative |
| `TracingTotals.MaximumKept` | report/tracing_compact.go:56-96 | the emitted maximum is the greatest one if and only if some maximum is not negative |
| `TracingOrder.SansMinPermutes` | report/tracing_compact.go:32-75 | for all inputs, everything but the minimum is independent of the order |
| `TracingOrder.OrderIndependent` | report/tracing_compact.go:53-95 | the result is the same for every order of the input if and only if no group of ended calls has both a negative and a positive minimum |
| `TracingOrder.NegativeMinimumDependsOnOrder` | report/tracing_compact.go:53-95 | two records whose order matters |
| `TracingLaws.Idempotent` | report/tracing_compact.go:7-113 | compacting a compaction changes nothing |
| `Tracer.SnapshotReports` | report/impl/tracing_impl.go:141-182 | a snapshot lists each key once, with the record of exactly its updates |
| `MemoryTracer.SelectShard` | report/impl/tracing_impl.go:260-267 | the updates of a key all go to the shard of its name |
| `MemoryTracer.HarvestNext` | report/impl/tracing_impl.go:286-314 | harvesting one more shard adds the reports of its names and repeats no key |
| `MemoryTracer.MemoryTracer.constructor` | report/impl/tracing_impl.go:229-267 | at least one shard and the least power of two that is enough, all banks empty, and names go to the shard of their hash modulo that number |
| `MemoryTracer.MemoryTracer.AddRecord` | report/impl/tracing_impl.go:270-283 | a call is added to what the next flush will report, and the inactive banks stay empty |
| `MemoryTracer.MemoryTracer.SwapBanks` | report/impl/tracing_impl.go:286-300 | every shard swaps to its empty bank |
| `MemoryTracer.MemoryTracer.Flush` | report/impl/tracing_impl.go:286-314 | a flush reports exactly the calls since the last one, each key once, and leaves the inactive banks empty |
| `MemoryTracer.MemoryTracer.Reset` | report/impl/tracing_impl.go:316-324 | a reset forgets the calls pending |
| `MemoryTracer.EveryCallOnce` | report/impl/tracing_impl.go:270-314 | over every run of records and flushes, the flushed batches and the calls pending are exactly the calls recorded, in order |
| `MemoryTracer.Run` | report/impl/tracing_impl.go:229-324 | over every run of records, flushes and resets, each flush reports its batch |
| `TracerSteps.StepKeeps` | report/impl/tracing_impl.go:270-309 | with writers and a flush that overlap in one shard, every step keeps: each recorded call is in one bank, one output or dropped, and the calls added to a bank between its harvest and its next clear are apart from all others |
| `TracerSteps.AtMostOnce` | report/impl/tracing_impl.go:270-309 | at every moment of every interleaving no call has been reported twice, and none of those late ones at all |
| `TracerSteps.CountedExactly` | report/impl/tracing_impl.go:270-309 | after an undisturbed flush a recorded call has been reported exactly once if and only if it was not added to a bank between its harvest and its next clear |
| `TracerSteps.LateIsOvertaken` | report/impl/tracing_impl.go:270-309 | only a writer overtaken by a harvest between reading the index and locking the bank can be late |
| `TracerSteps.OvertakenCallIsLost` | report/impl/tracing_impl.go:286-309 | an interleaving in which a call is recorded, thrown away and never reported |
| `TracingPipeline.BucketIsExact` | report/impl/tracing_impl.go:94-116 | a bucket's running mean and deviation are those of its durations |
| `TracingPipeline.RecordIsExact` | report/impl/tracing_impl.go:141-182 | a flushed record carries the count, total and floored population variance of its durations |
| `TracingPipeline.FlushGroup` | report/impl/tracing_impl.go:286-314 | a flush holds for each key one record of all its updates, or none |
| `TracingPipeline.GatheredSummary` | report/tracing_compact.go:44-100 | the records of all flushes of all agents merge to the count and total of all durations and their variance floored or one less, floored if and only if the flushed records together lost no more than truncating the true variance loses |
| `TracingPipeline.TruncationCanCostOne` | report/tracing_compact.go:91-98 | two records whose merged variance is one too small |
| `TracingReport.FleetFlushes` | report/impl/tracing_impl.go:270-314 | every call recorded by any tracer of the fleet is in exactly one flushed batch |
| `TracingReport.PeakIsGreatest` | report/impl/tracing_impl.go:106-116 | the running maximum, which starts at zero, is the greatest duration if and only if some duration is not negative |
| `TracingReport.ReportIsFaithful` | report/tracing_compact.go:7-113 | however the recorded calls are spread over agents and flushes and in whatever order records arrive: for every second in which calls ended, one record with every call counted once, the sum of all durations, their population variance floored or one less (with the exact condition), the least duration if and only if none is negative, the greatest if and only if some is not, and the exact tally of every code and message; for every second in which calls started, their number; and nothing else |
| `Pressure.MedianBySorting` | report/impl/pressure_impl.go:477-486 | the median is the middle element of the samples in ascending order, whatever sorts them |
| `Pressure.EnterBackoffKeeps` | report/impl/pressure_impl.go:399-410 | backing off keeps the envelope and never goes above the old rate or ten |
| `Pressure.BaselineKeeps` | report/impl/pressure_impl.go:248-264 | learning the baseline establishes the envelope |
| `Pressure.SlowStartKeeps` | report/impl/pressure_impl.go:269-297 | slow start keeps the envelope |
| `Pressure.ProbingKeeps` | report/impl/pressure_impl.go:300-338 | probing keeps the envelope |
| `Pressure.SteadyKeeps` | report/impl/pressure_impl.go:341-388 | the steady phase keeps the envelope |
| `Pressure.DetectKeeps` | report/impl/pressure_impl.go:200-245 | every round keeps it, for any samples and any backlog |
| `Pressure.EnvelopeAlways` | report/impl/pressure_impl.go:127-410 | in every reachable state the rate is positive, and after the baseline between half the safe rate and the safe rate plus the larger of ten and three tenths; not above the safe rate while steady and not probing |
| `Pressure.CriticalBacksOff` | report/impl/pressure_impl.go:269-410 | a critical round in slow start, probing or steady enters backoff, keeps the safe rate and never exceeds the old rate or ten |
| `Pressure.BackoffFreezes` | report/impl/pressure_impl.go:391-397 | the rate is frozen until exactly as many rounds have been decided as were to wait for, undecided rounds not counting |
| `Pressure.NoReturnToSlowStart` | report/impl/pressure_impl.go:200-410 | no run returns to slow start |
| `Pressure.SmoothedStaysBetween` | report/impl/pressure_impl.go:430-437 | over every run after the baseline, the baseline stays and the smoothed ratio stays between the bounds of all ratios seen |
| `Pressure.TwoWarningsFallBack` | report/impl/pressure_impl.go:280-296 | one warning in slow start only counts; a second in a row falls back to the safe rate and probes |
| `PressureRates.GrowingMeans` | report/impl/pressure_impl.go:226-227 | calls pile up exactly when they grew by more than half a second's worth and exceed one and a half, and truncation makes no difference to that |
| `PressureRates.PendingRemembered` | report/impl/pressure_impl.go:200-228 | fewer than three samples change nothing; any other round remembers the pending calls |
| `PressureRates.FixedTargetStays` | report/impl/pressure_impl.go:127-136 | a target that is set stays, whatever the rounds |
| `PressureRates.BaselineLearned` | report/impl/pressure_impl.go:127-264 | an adaptive controller stays at 20 per second for five deciding rounds and takes the median of their medians as its baseline |
| `PressureRates.SlowStartGrows` | report/impl/pressure_impl.go:269-284 | over any run of easy rounds slow start multiplies the rate by exactly 1.3 per round, with the safe rate one round behind |
| `PressureRates.SignalRound` | report/impl/pressure_impl.go:285-297 | any signal, latency or backlog, holds the rate once, and the second in a row goes back to the safe rate and probes |
| `PressureRates.ProbingClimbs` | report/impl/pressure_impl.go:300-320 | over any run of n healthy rounds probing goes on and the rate rises by at least 10n: exactly so up to 500, and by exactly 2% per round from there on |
| `PressureRates.LightLoadIsHealthy` | report/impl/pressure_impl.go:300-320 | latencies within 1.2 of the baseline and a backlog within one and a half times the rate keep every round healthy |
| `PressureRates.ProbingSettles` | report/impl/pressure_impl.go:321-329 | marginal rounds hold the rate and make it safe, and the fifth in a row ends the probing |
| `PressureRates.StrainEasesOff` | report/impl/pressure_impl.go:330-375 | over any run of n strained rounds the rate is the larger of 0.95^n of what it was and four fifths of the safe rate, which stays |
| `PressureRates.StrainRaises` | report/impl/pressure_impl.go:330-375 | easing off raises the rate if and only if it stands below four fifths of the safe rate |
| `PressureRates.TwoCutsThenRise` | report/impl/pressure_impl.go:330-410 | two critical rounds and a strained one do that: the rate goes from 72.25% to 80% |
| `PressureRates.CriticalCut` | report/impl/pressure_impl.go:399-410 | a critical round cuts to exactly the largest of 85%, half the safe rate and ten, and waits for three rounds |
| `PressureRates.SteadyCycle` | report/impl/pressure_impl.go:341-388 | after five rounds without strain the steady rate is raised by 1% or five on trial; a healthy round makes it the safe rate, a strained one brings back both rates |
| `PressureRates.SteadyWaits` | report/impl/pressure_impl.go:341-388 | before the fifth such round nothing changes |
| `PressureRates.ProbeJudged` | report/impl/pressure_impl.go:355-367 | a rate on trial is confirmed by a healthy round, withdrawn by a strained one, and kept on trial by a marginal one |
| `PressureController.Controller.constructor` | report/impl/pressure_impl.go:119-136 | a fresh controller with its target set |
| `PressureController.Controller.EnterBackoff` | report/impl/pressure_impl.go:399-410 | the fields become exactly the backed-off state: rate cut to 85%, not below half the safe rate, not below ten, three rounds to wait |
| `PressureController.Controller.Learn` | report/impl/pressure_impl.go:252-263 | the last baseline round makes the median the baseline, the current rate the safe one, and starts slow start |
| `PressureController.Controller.DoBaseline` | report/impl/pressure_impl.go:248-264 | the fields become exactly the state after one more baseline round |
| `PressureController.Controller.DoSlowStart` | report/impl/pressure_impl.go:269-297 | the fields become exactly the state after a slow-start round: back off, grow, count a warning, or fall back and probe |
| `PressureController.Controller.DoProbing` | report/impl/pressure_impl.go:300-338 | the fields become exactly the state after a probing round, whose rates the run theorems above give: back off, step up, count towards steady, or ease off |
| `PressureController.Controller.DoSteady` | report/impl/pressure_impl.go:341-388 | the fields become exactly the state after a steady round, with the probe up confirmed, withdrawn or left open |
| `PressureController.Controller.DoBackoff` | report/impl/pressure_impl.go:391-397 | one round less to wait, and probing when none is left |
| `PressureController.Controller.Detect` | report/impl/pressure_impl.go:200-245 | a round in place equals the round on values, and keeps the envelope |
| `PressureController.Controller.Drive` | report/impl/pressure_impl.go:200-245 | through any list of rounds the object keeps the envelope, keeps its rate frozen while it waits in backoff, and never returns to slow start |
| `TokenBucket.StepKeeps` | case/qps_controller.go:62-112 | every atomic step keeps the books: tokens in the bucket, tokens owed back, trimmed and granted sum to the initial one and the refills |
| `TokenBucket.GrantsBounded` | case/qps_controller.go:62-112 | in every interleaving, under any changes of target, the returns of Acquire that took a token never exceed the initial token and the refills, hence not the integral of the target; while all targets are positive these are all returns |
| `TokenBucket.Unlimited` | case/qps_controller.go:95-97 | without a positive target a worker returns any number of times and no token moves |
| `TokenBucket.AllowanceOfFixed` | case/qps_controller.go:62-78 | under a fixed target the integral is target times time, and the cap is that target's |
| `TokenBucket.RateHeld` | case/qps_controller.go:39-112 | for a positive rate, every run at that rate has at most one plus the rate times the seconds elapsed returns of Acquire if and only if the rate is at least a millionth per second; a smaller one is stored as no limit |
| `TokenBucket.WindowBounded` | case/qps_controller.go:77-112 | from any moment with no trim pending, grants are at most the burst cap, the refills since, and one per worker |
| `TokenBucket.WindowFromSettled` | case/qps_controller.go:77-112 | from any state, grants are at most the tokens in the bucket and those owed back, and the refills since |
| `TokenBucket.CapExact` | case/qps_controller.go:77-112 | no window from a moment on exceeds the burst cap and its refills if and only if the tokens in the bucket and those owed back are within the cap |
| `TokenBucket.CapMeans` | case/qps_controller.go:77-81 | the burst cap is 50 ms worth of the rate and never less than two tokens |
| `TokenBucket.WokenGetsToken` | case/qps_controller.go:88-112 | a sleeper goes on exactly when an attempt right away gets a token |
| `TokenBucket.RefundsExceedCap` | case/qps_controller.go:77-112 | for every set of workers, a run in which a window exceeds the cap by exactly one token per worker |
| `TokenBucket.SleepersGetTokens` | case/qps_controller.go:72-85 | while everyone sleeps, what is refilled stays in the bucket until it holds two tokens |
| `TokenBucket.RefillsKeepUp` | case/qps_controller.go:68-77 | over every run the refills are what is due by the target and the time, less than one unit rounded off per tick |
| `TokenBucket.SleepersServed` | case/qps_controller.go:62-85 | under any target, even ticks bring sleepers a token if and only if a tick is due at least one unit |
| `TokenBucket.SlowRatesStarve` | case/qps_controller.go:36-116 | with ticks of a millisecond, sleepers are served if and only if the rate is at least a thousandth per second |
| `TokenBucket.OneTokenOnly` | case/qps_controller.go:36-112 | between a millionth and a thousandth per second, Acquire returns at most once in any run with such ticks |
| `QpsController.Controller.constructor` | case/qps_controller.go:39-48 | a new controller holds one token and the truncated, scaled rate as its target |
| `QpsController.Controller.SetQPS` | case/qps_controller.go:115-117 | a change of rate is a change of the truncated, scaled target |
| `QpsController.Controller.Check` | case/qps_controller.go:95-97 | a call returns at once exactly without a positive target, and otherwise starts trying |
| `QpsController.Controller.AddTokens` | case/qps_controller.go:62-82 | the adding half of a tick is a refill step |
| `QpsController.Controller.TrimTokens` | case/qps_controller.go:83-85 | the trimming half is a step of its own |
| `QpsController.Controller.TryDeduct` | case/qps_controller.go:98-102 | one attempt is a deduction step, granted exactly when it counts as a grant |
| `QpsController.Controller.GiveBack` | case/qps_controller.go:103-104 | a refund is a step |
| `QpsController.Controller.LookAgain` | case/qps_controller.go:105-110 | a sleeper wakes exactly when a whole token is there |
| `TaskFinish.StepKeeps` | base/task_action.go:191-223 | every atomic operation, lock transition and invocation keeps: one winner, one lock holder, held callbacks listed once, each called at most once |
| `TaskFinishRuns.AtMostOnce` | base/task_action.go:191-223 | at every moment of every interleaving no callback has been invoked twice, and none before a finish won |
| `TaskFinishRuns.OneFinishTakesEffect` | base/task_action.go:198-202 | one finish wins the swap and the stored result is its own |
| `TaskFinishRuns.ExactlyOnce` | base/task_action.go:191-223 | once all calls have returned: if anyone called finish, every callback has been invoked exactly once, those held in reverse order of registration with the stored result; if nobody did, all are still held in order |
| `TaskFinishRuns.NeverStuck` | base/task_action.go:191-223 | while a call has not returned some thread can go on |
| `TaskFinishRuns.RunsEnd` | base/task_action.go:191-223 | no interleaving is longer than its threads' remaining steps |
| `TaskFinishRuns.LifetimesSettle` | base/task_action.go:191-223 | hence every maximal interleaving reaches that settled state |
| `TaskFinishRuns.DirectCallResult` | base/task_action.go:211-219 | a callback invoked by its registering thread sees the result if and only if the winner has stored it |
| `TaskFinishRuns.LateCallbackSeesNoResult` | base/task_action.go:198-213 | an interleaving in which it does not |
| `TaskAction.Task.constructor` | base/task_action.go:83-89 | a new task |
| `TaskAction.Task.Finish` | base/task_action.go:191-208 | the object changes exactly as in an uninterrupted run: only the first call counts, stores its result and invokes what is held in reverse |
| `TaskAction.Task.InitOnFinish` | base/task_action.go:210-223 | likewise: a callback is invoked at once on a finished task and held otherwise |
| `TaskAction.FinishAlone` | base/task_action.go:191-208 | the steps of one thread's Finish, uninterrupted, have exactly the effect of the method on the object |
| `TaskAction.RegisterAlone` | base/task_action.go:210-223 | and so have those of InitOnFinish |
| `Masks.MaskIsModulo` | data/rpc_ring_buffer.go:44-44 | masking with the capacity less one is the remainder |
| `RpcRing.WindowDistinct` | data/rpc_ring_buffer.go:43-56 | sequence numbers within one ring's length of each other, also across the 64-bit wrap, never share a slot |
| `RpcRing.TakenMeaning` | data/rpc_ring_buffer.go:47-50 | a slot is taken by another if and only if a pending call has the same remainder |
| `RpcRing.SpanNeverTaken` | data/rpc_ring_buffer.go:43-56 | hence no store conflicts while the pending sequences and the new one span at most the capacity |
| `RpcRing.StorePlaces` | data/rpc_ring_buffer.go:51-55 | a store adds exactly its own entry to the map the slots stand for |
| `RpcRing.ClearRemoves` | data/rpc_ring_buffer.go:87-90 | clearing a slot removes exactly its own entry |
| `Masks.RoundUp` | data/rpc_ring_buffer.go:30-33 | the capacity is the least power of two that is enough |
| `RpcRingBuffer.Ring.constructor` | data/rpc_ring_buffer.go:28-39 | a new ring is empty |
| `RpcRingBuffer.Ring.Store` | data/rpc_ring_buffer.go:43-56 | stores into the map, or fails and changes nothing exactly when another pending call has the same remainder |
| `RpcRingBuffer.Ring.Load` | data/rpc_ring_buffer.go:59-73 | looks up the map |
| `RpcRingBuffer.Ring.LoadAndDelete` | data/rpc_ring_buffer.go:76-93 | looks up the map and removes the entry |
| `RpcRingBuffer.Ring.Delete` | data/rpc_ring_buffer.go:96-106 | removes the entry and no other |
| `RpcRingBuffer.Ring.ServeOne` | data/rpc_ring_buffer.go:43-106 | one call is answered as by a plain map |
| `RpcRingBuffer.Ring.Serve` | data/rpc_ring_buffer.go:43-106 | every run of calls whose live sequences stay within one ring's length is answered exactly as by a plain map |
| `RpcRingSteps.SlotIsMap` | data/rpc_ring_buffer.go:43-106 | a slot does to a call what a plain map does, except that it refuses a store while held for another |
| `RpcRingSteps.StepKeeps` | data/rpc_ring_buffer.go:43-106 | every read, write and lock step of overlapping calls keeps: the log is a sequential order of calls with the answers the code has read, and the slot spells what it leaves |
| `RpcRingSteps.Linearizable` | data/rpc_ring_buffer.go:43-106 | every interleaving, with the reads that hold no lock, answers the calls as some order of them one after the other |
| `RpcRingSteps.RealTime` | data/rpc_ring_buffer.go:43-106 | in that order a call that begins after another has returned comes after it |
| `RpcRingSteps.NeverStuck` | data/rpc_ring_buffer.go:43-106 | while a call has not returned some call can go on |

## Left out

- HTTP handlers, long polling, Redis, the database tool, the dashboard and report pages: I/O and presentation.
- ECDH, HKDF, HMAC, AES, ChaCha20 and the compressors: library code, present as functions with inverse contracts.
- The interoperability vectors of XXTEA: not evaluated; the mix, the step constant, the passes and the key words are fixed by laws for all inputs.
- FlatBuffers: a serialiser with an inverse contract; session, ping and kickoff messages other than posts are not modelled.
- MurmurHash3 in the frame header and the FNV hash that picks a shard: any function of their input.
- Floating-point rounding: reals are used throughout, and `math.Floor`-like truncation is modelled where the code truncates.
- int64 overflow: integers are unbounded; for the rate limiter this assumes that target times elapsed nanoseconds and target times the burst window fit 64 bits, for the scheduler that the user count fits 32.
- Random associated data, clocks and the samples drained each round: parameters.
- Task timeouts, kills and the reuse of pooled tasks: the scheduler assumes that each dispatched task invokes its finish callback once, and that no other case rewrites the accounts' indices.
- In `MemoryTracer`, `AddRecord` and `Flush` do not overlap; the overlap is modelled for one shard in `TracerSteps`, with lists of calls in place of buckets and without resets. Recycled buckets are fresh values.
- A zstd compressor whose creation fails: only numbers the client does not know fail to give a compressor.
- `sort.Slice` and `sort.Float64s`: modelled by insertion sort, which agrees with any sort because the orders are total.
- A floor of ten on the adaptive rate: only backing off enforces it, so none is claimed. Pressure levels and snapshots are not modelled, latencies are positive, and the target is set once on a fresh controller.
- `StoreBlocking` of the ring: each attempt is `Store`'s accepting branch; that an attempt ever succeeds depends on others and is not claimed.
- Rings wanted with a negative capacity: the constructor's loop does not end for most of them, and the model asks for a capacity from 0 to 2^63.
- The gateway server, beyond sealing its token under its sending IV, announcing that IV or not, and rolling it.
- Solo mode and its abort path, the copy distribution mode, agent selection and the reboot before a run.
- What happens inside a callback that a finishing task invokes: it may register and finish again, which the model covers as further threads.
- The wake-up broadcast of the rate limiter: a sleeper may look again at any time; that it is woken is not claimed.
