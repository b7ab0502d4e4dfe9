# Kin and Solana core, verified

A Dafny model of the core of `agora-common`, the Go library that Kin services share, with proofs
about it. The model follows the code; where code and documentation differ, the difference is a
lemma here and is listed under "Where code and promise part".

Five parts:

* **Transactions.** `NewTransaction` merges account metas, sorts them, counts the header and
  replaces keys by byte indices; `Marshal` and `Unmarshal` put the result on the wire. Constructors
  and `Decompile*` functions give instructions their meaning. The sort is unstable, so results are
  proved for every order it may return. (`ShortVec`, `Solana`, `Encoding`, `Compiler`,
  `Compilation`, `Signing`, `Programs`, `Pipeline`)
* **Kin parsing.** `ParseTransaction` splits a transaction into regions and then validates them
  together. The first pass is proved to accept exactly a grammar with unique derivations, the second
  exactly a set of rules, and the two together to read back whatever the constructors built.
  (`KinMemo`, `KinScan`, `KinLanguage`, `KinConservation`, `KinValidation`, `KinRules`,
  `KinTransaction`)
* **The SQS queue.** `Start`, `Pause` and `Shutdown` in any number of goroutines interleave with any
  number of workers over a mutex, a read-write lock, a channel and a once. The protocol is a step
  relation with explicit program counters; safety is proved for every finite run, and termination of
  the workers after `Shutdown` for every infinite run that is fair to workers and callers. (`Queue`,
  `QueueSafety`, `QueueDelivery`, `QueueProgress`, `QueueShutdown`, `QueueWitnesses`)
* **Headers.** Classified on receipt by prefix and suffix, merged on sending; proved over chains of
  calls of any length. (`Headers`, `HeaderHops`, `HeaderJourneys`)
* **Arithmetic and layouts.** Overflow-checked ISO 8601 durations, kin amounts as text, and the
  165-byte token account. (`Duration`, `Quarks`, `TokenState`)

Bytes are integers below 256, except in memos, whose bit packing is on 8-bit vectors. Base64,
hashes, signatures, protobuf encoding and the test for alphanumeric text are parameters of the model
(`KinValidation.Env`, `Signing.Scheme`). Go maps are visited in an arbitrary order. A function that a
loop computes is written both as the loop (a method) and as a function the method is proved equal to;
the lemmas are about the function. Lemmas that assume `Compiler.IsOrder` or `Compiler.IsCompiled` speak of
every order the sort may pick; `Compiler.NewTransaction` returns one for any arguments, so they never
speak of nothing.

## Where code and promise part

* `Marshal` drops the error of `EncodeLen`, so a length above 65535 vanishes from the bytes:
  `Encoding.RoundTripExactly`, `Encoding.ReencodeExactly`. On a negative length the loop of `EncodeLen`
  never ends: `ShortVec.LoopEndsExactly`.
* A program that is also asked to sign or write can make the header wrong about some account:
  `Compilation.LayoutCanFail`, `Pipeline.BrokenLayoutIsSent`. The header is right exactly when
  `Compilation.ProgramsNeedLeast` and `Compilation.CountersFit`: `Compilation.LayoutExactly`.
* With more than 256 accounts byte indices wrap and instructions change meaning:
  `Compilation.MeaningExactly`.
* A missing key beside the explicit zero key, which is the system program's, puts an account into the
  message twice: `Compilation.AccountsDifferExactly`.
* A new authority that is neither empty nor 32 bytes cannot be decompiled, and an owner of a created
  account that is not 32 bytes comes back changed: `Pipeline.ObservedExactly`.
* The subsidizer is documented not to be the source of a transfer; the code checks the owner instead:
  `KinTransaction.OwnerDecides`, `KinTransaction.SourceIsNotChecked`, `KinTransaction.SourcesAreFreeExactly`.
* An app index followed by none is refused although none is documented to be excluded from the
  comparison; none followed by an index is accepted: `KinRules.OrderMatters`, `KinRules.SettlesExactly`.
* `Pause` after `Shutdown` can leave a worker waiting for the run lock for ever:
  `QueueWitnesses.LatePauseStrands`; nothing else can: `QueueProgress.OnlyPauseShutsOut`.
* Without visibility extensions configured no task is ever deleted; with them it can be:
  `QueueWitnesses.CompletionPossibleExactly`.
* A visibility timeout such as 1.5 seconds asks for a lease shorter than the keep-alive interval:
  `QueueDelivery.LeaseFallsShort`, `QueueDelivery.LeaseOutlastsExactly`.
* Text headers are documented as similar to inbound ones but are forwarded at every hop:
  `HeaderJourneys.TextIsNotInbound`.
* In a duration, a fraction after seconds with a minus sign is added instead of subtracted, so that
  `PT-1.5S` is minus half a second and `PT-0.5S` plus half a second: `Duration.MinusOneAndAHalf`,
  `Duration.MinusAHalf`. A component of -2^63 passes the size check and counts for nothing:
  `Duration.ExtremeComponentCountsForNothing`. Everything else is exact: `Duration.ParseISO8601`.
* In an amount, a fraction after a minus sign is added instead of subtracted, and large amounts wrap:
  `Quarks.MinusOneQuark`, `Quarks.ToQuarksMeansExactly`. Negative amounts print as text that cannot be
  read: `Quarks.QuarksRoundTripExactly`.

## Model

| member | source | states |
|---|---|---|
| `ShortVec.EncodeLen` | solana/shortvec/shortvec.go:12-37 | writes the encoding of the length after what the stream holds and reports its size; refuses exactly lengths above 65535, writing nothing |
| `ShortVec.LoopEndsExactly` | solana/shortvec/shortvec.go:20-36 | the shifting loop ends if and only if the length is not negative |
| `ShortVec.DecodeLen` | solana/shortvec/shortvec.go:40-62 | consumes exactly the bytes of one length and returns it, or fails on a truncated or overlong one |
| `ShortVec.LenRoundTrip` | solana/shortvec/shortvec.go:12-62 | every length up to 65535 is read back whatever follows it, and its encoding is the shortest possible |
| `ShortVec.EncodedIsShortest` | solana/shortvec/shortvec.go:40-62 | whatever is accepted is below 2^21 and took at least as many bytes as the encoder would use |
| `ShortVec.NonMinimalAccepted` | solana/shortvec/shortvec.go:40-62 | a redundant encoding of one is accepted |
| `Encoding.Marshal` | solana/encoding.go:13-26 | appends signatures and message into the transaction's byte string |
| `Encoding.MarshalMessage` | solana/encoding.go:46-78 | the loops over accounts and instructions build the message's byte string |
| `Encoding.Unmarshal` | solana/encoding.go:28-44 | succeeds exactly where the decoding function does, with its transaction |
| `Encoding.UnmarshalMessage` | solana/encoding.go:80-159 | the same for messages, with every length, truncation and index check |
| `Encoding.TransactionRoundTrip` | solana/encoding.go:13-159 | for every well-formed transaction and every suffix, decoding the encoding gives the transaction and leaves the suffix |
| `Encoding.RoundTripExactly` | solana/encoding.go:13-159 | decoding undoes encoding if and only if the transaction is well formed: 32-byte keys, 64-byte signatures, indices in range, lengths within 16 bits |
| `Encoding.ReencodeExactly` | solana/encoding.go:13-159 | an accepted byte string re-encodes to one that decodes to the same transaction if and only if its lengths fit 16 bits, and never to a longer one |
| `Encoding.EncodingIsInjective` | solana/encoding.go:13-78 | two well-formed transactions with the same bytes are equal |
| `Encoding.BytesSize` | solana/encoding.go:13-78 | the encoding has the size of its parts if and only if no length was dropped |
| `Encoding.DecodedIsAccepted` | solana/encoding.go:99-156 | everything accepted has 32-byte accounts and in-range program and account indices, and was at least as long as its parts |
| `Compiler.FilterUnique` | solana/transaction.go:163-190 | one entry per key, with the OR of all requests for that key, and the payer and program flags the code keeps |
| `Compiler.Sort` | solana/instruction.go:56-72 | a permutation in which no entry is less than an earlier one; nothing is promised about ties |
| `Compiler.FindIndex` | solana/transaction.go:192-200 | the first index of the key, or -1 |
| `Compiler.CountHeader` | solana/transaction.go:68-81 | byte counters of signers, read-only signers and read-only others, wrap-around included |
| `Compiler.CompileInstruction` | solana/transaction.go:85-96 | replaces the program and account keys of one instruction by their byte indices |
| `Compiler.FillKeys` | solana/transaction.go:98-102 | empty keys become zero keys, others stay |
| `Compiler.NewTransaction` | solana/transaction.go:41-108 | returns a transaction assembled from a sorted merge of all metas, for some order the sort may pick |
| `Compilation.PayerFirst` | solana/transaction.go:41-66 | the payer is account 0 with its permissions, and no other account is the payer, for every sort outcome |
| `Compilation.AccountCount` | solana/transaction.go:51-62 | there are exactly as many accounts as distinct keys |
| `Compilation.LayoutExactly` | solana/transaction.go:51-81 | for any payer, instructions and sort outcome the header marks exactly the accounts asked to sign and to write, if and only if no key first met as a program was asked for more than one first met as an account, at most 255 keys sign and at most 255 need neither right |
| `Compilation.PlainProgramsLayOut` | solana/transaction.go:51-81 | when programs are only called, never also requested as signer or writable, the header layout holds if and only if the byte counters can hold their counts |
| `Compilation.LayoutCanFail` | solana/instruction.go:56-72 | a program that must also sign breaks the layout under every sort outcome, with 32-byte keys |
| `Compilation.AccountsDifferExactly` | solana/transaction.go:98-102 | the accounts of a compiled message are pairwise different if and only if the missing key and the zero key are not both used |
| `Compilation.CompiledInRange` | solana/transaction.go:83-96 | every index in a compiled transaction is in range, whatever the number of accounts |
| `Compilation.MeaningExactly` | solana/transaction.go:41-108 | looking the indices up again gives back every instruction, if and only if there are at most 256 keys, or 257 of which the last looks like the payer once missing keys are filled |
| `Compilation.MeaningKept` | solana/transaction.go:41-108 | up to 256 keys the meaning is kept, with missing keys as well |
| `Signing.Sign` | solana/transaction.go:144-161 | fills the slots in place as the specification does and stops at the first signer without one |
| `Signing.SignSucceedsExactly` | solana/transaction.go:144-161 | succeeds if and only if every signer's key is among the first accounts that have a signature slot |
| `Signing.OtherSlotsKept` | solana/transaction.go:144-161 | slots that belong to none of the signers are unchanged, on failure as well |
| `Signing.LastSignerWins` | solana/transaction.go:144-161 | a slot ends up with the last signature written for it, over the message bytes |
| `Signing.FullySigned` | solana/transaction.go:144-161 | signers that cover the slots leave slot i with a signature by the key of account i over the message bytes |
| `Signing.CompiledSlotExactly` | solana/transaction.go:104-161 | under the header layout a key has a slot if and only if some instruction, or the payment, asked it to sign; the zero key also answers for a missing key |
| `Signing.SigningCompiledExactly` | solana/transaction.go:104-161 | under the header layout signing a compiled transaction succeeds if and only if every signer was asked to sign, in the same sense |
| `Pipeline.ObservedExactly` | solana/token/program.go:97-526 | for each of the constructors its decompiler returns what was put in, multisig signers aside, if and only if a new authority is empty or 32 bytes and the owner of a created account is 32 bytes |
| `Pipeline.CreateAccountObserved` | solana/system/program.go:42-113 | funder, address, lamports, size and owner come back from a create-account instruction if and only if the owner is 32 bytes |
| `Pipeline.TransfersObserved` | solana/token/program.go:303-427 | source, destination, owner and amount come back from single and multisig transfers |
| `Pipeline.BuiltIsUnflagged` | solana/instruction.go:25-41 | constructors never set the payer and program flags the compiler relies on |
| `Pipeline.CompiledSurvivesExactly` | solana/encoding.go:13-159 | a compiled transaction survives the wire if and only if its keys, counts and data lengths are encodable |
| `Pipeline.BrokenLayoutIsSent` | solana/encoding.go:46-78 | the transaction with the wrong header survives the wire like any other |
| `Pipeline.EndToEnd` | solana/transaction.go:41-108 | build, compile under any sort outcome, encode, append anything, decode: the transaction comes back, and at each index the decompiler returns what the constructor was given if and only if that is readable |
| `KinMemo.NewMemo` | kin/memo.go:38-79 | refuses bad keys, versions and types in that order, and otherwise packs by in-place bit operations into the specified bytes |
| `KinMemo.ForeignKey` | kin/memo.go:208-221 | the loop returns the 29 bytes of the foreign key accessor |
| `KinMemo.MemoRoundTrip` | kin/memo.go:38-79 | for every version, type, app index and key of up to 29 bytes the accessors return them, the key padded with zeros and its last byte cut to six bits |
| `KinMemo.MemoRebuilt` | kin/memo.go:177-221 | every memo with the magic bits is rebuilt bit for bit from its own accessors |
| `KinMemo.ValidIsMagic` | kin/memo.go:147-174 | the lenient validity check comes down to the magic bits |
| `KinScan.DerivationIsUnique` | kin/transaction.go:83-226 | no transaction can be read as two different sequences of constructs |
| `KinScan.NextIsForced` | kin/transaction.go:104-170 | wherever a construct starts, the branch the loop takes finds that construct, the optional account holder included |
| `KinLanguage.Scan` | kin/transaction.go:83-226 | the loop, with its forward jumps and its step back, computes the scan function; the remaining length decreases at every turn |
| `KinLanguage.ScanTurn` | kin/transaction.go:84-225 | one turn of the loop stops with the error of the construct at that instruction, or adds the construct to the last region and moves past it |
| `KinLanguage.ScanHolder` | kin/transaction.go:151-171 | the optional account holder completes the creation just added, or the index steps back |
| `KinLanguage.ScanCreate` | kin/transaction.go:104-170 | the create branch stops with the first error or leaves the index before the loop's own increment on the last instruction it used |
| `KinLanguage.ScanIsComplete` | kin/transaction.go:83-226 | the scan of a derivable message is the outcome of its derivation |
| `KinLanguage.ScanIsSound` | kin/transaction.go:83-226 | whatever the scan accepts has a derivation |
| `KinLanguage.ScanAcceptsExactly` | kin/transaction.go:83-226 | accepts exactly the sequences of memos, creations, transfers and closures with at most one nonce, and returns their regions and that nonce |
| `KinConservation.DerivationSpells` | kin/transaction.go:83-226 | a derivation spells every instruction exactly once and in order |
| `KinConservation.SpellingDerives` | kin/transaction.go:83-226 | conversely proper constructs that spell the whole transaction are a derivation of it |
| `KinConservation.ReadsOnce` | kin/transaction.go:83-226 | no instruction decompiles in two ways |
| `KinConservation.Conserved` | kin/transaction.go:81-226 | any kind of instruction that one absorption tracks is conserved, in order, over a whole scan |
| `KinConservation.ContentsConserved` | kin/transaction.go:81-226 | the regions' transfers, closures and changes of authority in order are exactly the transaction's in order; there is one region more than memos, and each carries its memo |
| `KinConservation.InstructionsConserved` | kin/transaction.go:81-226 | the instruction count is one for each memo, nonce, transfer and closure, two for each associated account and three or four for each created one |
| `KinConservation.DerivedAreSound` | kin/transaction.go:104-212 | every creation is tied to its account: owner, size, initialize, close authority, optional holder; no transfer is owned by the subsidizer |
| `KinValidation.Validate` | kin/transaction.go:228-335 | the loop over the regions computes the validation function, with its errors in order |
| `KinValidation.VisitMemo` | kin/transaction.go:290-323 | what one invoice memo does to the types seen, the app index and the reference count |
| `KinValidation.CheckCreations` | kin/transaction.go:244-259 | finds the first creation whose close authority is not who paid for it |
| `KinRules.ValidatesExactly` | kin/transaction.go:228-335 | the second pass succeeds if and only if: closes match, one app id, app indexes settle, referring regions have as many transfers as invoices, earns are not mixed, and an invoice list is referred to by exactly one region |
| `KinRules.ValidatedNames` | kin/transaction.go:276-305 | every text memo's app id is the result's, and every non-zero app index is the result's |
| `KinRules.SettlesExactly` | kin/transaction.go:301-305 | the code's rule on app indexes is the documented one and, besides, that no index comes before none |
| `KinRules.OrderMatters` | kin/transaction.go:301-305 | for every decoder and any two memos, one that names an app and then one that names none are refused by the pass, and the other order is accepted unless it mixes earns with other payments |
| `KinRules.TextMemoExactly` | kin/utils.go:75-92 | the app id of a text memo is exactly what stands between the version and the next dash |
| `KinTransaction.ParseTransaction` | kin/transaction.go:70-335 | both passes in sequence compute the parse function |
| `KinTransaction.ParsesExactly` | kin/transaction.go:50-335 | accepts a transaction if and only if it has instructions and signatures, a derivation with at most one nonce, and regions that follow the rules; the result is that derivation's |
| `KinTransaction.ParsedGuarantees` | kin/transaction.go:50-69 | on every accepted transaction: each instruction is of a documented kind; the result follows the rules on invoices, app ids, app indexes and earns and names the app; creations are sound and closable by their payer; no transfer is owned by the subsidizer; contents are exactly the transaction's and instructions add up |
| `KinTransaction.OwnerDecides` | kin/transaction.go:201-212 | a transaction of one transfer is accepted if and only if its owner is not the first account, whatever its source |
| `KinTransaction.SourceIsNotChecked` | kin/transaction.go:63 | a transfer from the first account by another owner is accepted against the documented rule |
| `KinTransaction.SourcesAreFreeExactly` | kin/transaction.go:63 | an accepted transaction keeps the documented rule if and only if no transfer instruction takes from the first account |
| `KinTransaction.WireIsParsable` | solana/encoding.go:99-156 | whatever decodes from the wire meets the parser's one precondition |
| `KinTransaction.BuiltIsParsed` | kin/transaction.go:70-335 | proper constructs that are built, with multisig constructors as well, compiled, sent and received have themselves as their derivation; they are accepted if and only if there is at most one nonce and the rules hold, and their regions and nonce are then what is returned |
| `QueueSafety.NextInv` | taskqueue/sqs/queue.go:173-271 | every step of every caller and worker keeps the lock, channel and once invariant |
| `QueueSafety.PauseProtocol` | taskqueue/sqs/queue.go:87-231 | in every reachable state: no unlock of a free lock and no second close; while the state lock is free the run lock is held for writing exactly when paused, and then no worker is inside a receive |
| `QueueSafety.NeverStuckOnOneself` | taskqueue/sqs/queue.go:173-191 | `Start` finds the run lock held when it unlocks it and `Pause` finds it free when it locks it |
| `QueueSafety.AtMostOneLateReceive` | taskqueue/sqs/queue.go:217-231 | each worker begins at most one receive after the channel is closed |
| `QueueSafety.NoDeadlock` | taskqueue/sqs/queue.go:173-207 | while any call is in progress some caller can step, or a `Pause` that has the state lock waits for readers of which one can step |
| `QueueDelivery.NextInv` | taskqueue/sqs/queue.go:239-306 | every step keeps the record of every delivery consistent with where its worker is |
| `QueueDelivery.DeletedOnlyWhenDone` | taskqueue/sqs/queue.go:239-269 | a message is deleted only without a decodable body or after its handler returned nil earlier in the run, and at most once |
| `QueueDelivery.ExtensionsBounded` | taskqueue/sqs/queue.go:286-302 | a task is extended at most the configured number of times, and never when disabled |
| `QueueDelivery.HandlerReturnsOnce` | taskqueue/sqs/queue.go:278-281 | a handler returns at most once per delivery, also when it was given up on |
| `QueueDelivery.NoExtensionsNoCompletion` | taskqueue/sqs/queue.go:286-305 | with no extensions configured no run deletes a task |
| `QueueWitnesses.CompletionPossibleExactly` | taskqueue/sqs/queue.go:239-305 | for every configuration some run deletes a task if and only if extensions are configured |
| `QueueDelivery.LeaseOutlastsExactly` | taskqueue/sqs/queue.go:283-315 | however the seconds are rounded, the keep-alive interval is within the lease if and only if the fraction is below a quarter of the whole seconds plus five nanoseconds |
| `QueueDelivery.LeaseOutlasts` | taskqueue/sqs/queue.go:283-315 | it is for four seconds and more and for any positive number of whole seconds, with either rounding |
| `QueueDelivery.LeaseFallsShort` | taskqueue/sqs/queue.go:283-315 | it is not for one and a half seconds |
| `QueueProgress.EveryStepCounts` | taskqueue/sqs/queue.go:209-306 | after the close every worker step lowers a rank of stage, messages left and work left |
| `QueueProgress.EveryChangeCounts` | taskqueue/sqs/queue.go:173-306 | after the close whatever happens to a worker, being woken by `Start` included, lowers its rank |
| `QueueProgress.BlockedExactly` | taskqueue/sqs/queue.go:217-231 | a worker cannot move if and only if it has exited or waits for the run lock |
| `QueueProgress.ShutdownDrains` | taskqueue/sqs/queue.go:193-271 | in every run fair to the workers, if no `Pause` is in progress at some point and none is called afterwards, all workers exit from when `Shutdown`'s own `Start` is done |
| `QueueProgress.ExitsOrIsShutOut` | taskqueue/sqs/queue.go:193-271 | in every fair infinite run a worker exits after the close, or waits for ever for a run lock that is never released again |
| `QueueProgress.OnlyPauseShutsOut` | taskqueue/sqs/queue.go:183-207 | for any point, such as the close: if a worker is shut out although `Shutdown`'s own `Start` got done after it, a `Pause` was in progress at that point or was called later |
| `QueueShutdown.StartGetsDone` | taskqueue/sqs/queue.go:193-200 | in every fair run without pauses the `Start` that `Shutdown` calls gets the state lock and gets done |
| `QueueShutdown.ShutdownStops` | taskqueue/sqs/queue.go:193-271 | in every fair run, if the first `Shutdown` is called while no `Pause` is in progress and none is called afterwards, all workers exit |
| `QueueWitnesses.LatePauseStrands` | taskqueue/sqs/queue.go:183-207 | in every configuration, a reachable state in which `Shutdown` has returned, nothing can move and a worker has not exited |
| `Headers.HeaderMap.Merge` | headers/headers.go:52-56 | the other map's entries are added and win |
| `Headers.SetHeader` | headers/headers_context.go:53-62 | stores under the prefixed lower-case name in the class's map only; fails without storing when the class is missing, and stores an empty value when encoding fails |
| `Headers.SetAsciiHeader` | headers/headers_context.go:42-49 | stores text under the lower-case name, or fails when the class is missing |
| `Headers.SetAllHeaders` | headers/client_interceptor.go:34-69 | for some order of visiting the map, appends to what was outgoing every entry of the merged classes but the transport's own names and values of other types |
| `Headers.GetAllHeaders` | headers/server_interceptor.go:56-90 | a fresh context in which every received name is in exactly the class its prefix and suffix decide, and outbound is empty |
| `HeaderHops.HopDeliversExactly` | headers/client_interceptor.go:34-69 | a call delivers every class intact, outbound as inbound, if and only if the names are clean and the metadata already outgoing says nothing else, for every visiting order |
| `HeaderJourneys.RootAndPropagatingPersist` | headers/headers.go:11-15 | over any number of hops root headers are unchanged and propagating ones are all that were ever set |
| `HeaderJourneys.OutboundLastsOneHop` | headers/headers.go:6-11 | after any number of hops inbound is exactly what the last sender set as outbound |
| `HeaderJourneys.InboundIsNotForwarded` | headers/headers.go:10-11 | what was received as inbound has no influence on any later service, clean names or not |
| `HeaderJourneys.TextPersists` | headers/client_interceptor.go:49-52 | text headers are all that were ever set, over any number of hops |
| `HeaderJourneys.TextIsNotInbound` | headers/headers.go:16-17 | a text header nobody sets again reaches every later service |
| `HeaderJourneys.ReservedAreFresh` | headers/client_interceptor.go:54-58 | after any number of hops the names the transport owns are exactly those it added to the last call |
| `HeaderJourneys.PropagatingNameFits` | headers/headers_context.go:36-39 | setting a propagating header always keeps the names clean |
| `HeaderJourneys.OutboundNameFitsExactly` | headers/headers_context.go:26-34 | setting an outbound header does if and only if the lower-case name ends in `-bin` and has neither prefix |
| `HeaderJourneys.TextNameFitsExactly` | headers/headers_context.go:42-49 | setting a text header does if and only if the lower-case name has neither prefix nor `-bin` |
| `Duration.AddDurationExactly` | timeutil/duration.go:13-21 | the sign test errs if and only if the exact sum leaves 64 bits, and otherwise the sum is exact |
| `Duration.AbsInt64Exactly` | timeutil/duration.go:23-28 | a true absolute value except for -2^63 |
| `Duration.NegationIsSafe` | timeutil/duration.go:134-139 | whole seconds plus a fraction never reach -2^63, so the final negation cannot wrap |
| `Duration.ParseISO8601` | timeutil/duration.go:48-140 | accepted if and only if some component is present, all are readable and no partial sum leaves 64 bits; the value is what the text says if and only if no component is -2^63 and no fraction follows seconds with a minus sign |
| `Duration.ExtremeComponentCountsForNothing` | timeutil/duration.go:98-107 | such a component is accepted and contributes zero |
| `Duration.MinusOneAndAHalf` | timeutil/duration.go:127-139 | `PT-1.5S` is read as minus half a second |
| `Duration.MinusAHalf` | timeutil/duration.go:127-139 | `PT-0.5S` is read as plus half a second |
| `Quarks.ToQuarksAcceptsExactly` | kin/utils.go:19-48 | accepts exactly an optional sign, digits, and optionally a point with up to five digits, within fourteen characters |
| `Quarks.ToQuarksMeansExactly` | kin/utils.go:19-48 | the value is what the text says if and only if it fits 64 bits and no fraction follows a minus sign |
| `Quarks.QuarksRoundTripExactly` | kin/utils.go:64-70 | printing and then parsing returns the amount if and only if it is not negative; negative ones are refused |
| `Quarks.MinusOneQuark` | kin/utils.go:29-47 | minus one quark is read as one |
| `TokenState.Account.Marshal` | solana/token/state.go:44-86 | the helpers thread the offset through the buffer and leave the specified bytes, for keys of any length |
| `TokenState.Account.Unmarshal` | solana/token/state.go:88-131 | refuses other lengths untouched; options not tagged one keep what the receiver held |
| `TokenState.FieldsTile` | solana/token/state.go:44-86 | with proper key sizes the fields tile the 165 bytes, none overlapping |
| `TokenState.AccountRoundTripExactly` | solana/token/state.go:44-131 | reading into a fresh account returns what was written if and only if the keys have their proper sizes |
| `TokenState.BytesRoundTripExactly` | solana/token/state.go:44-131 | a buffer is written back unchanged if and only if each option is tagged one or all zero |

## Left out

- Network clients and SDK wrappers (`solana/client.go`, `kin/horizon.go`, `aws`, `redis`, `stellar`): their behaviour is outside the code.
- Cryptography, base64, base58, protobuf and the address derivation of associated accounts: parameters of the model.
- `solana/errors.go`, `app`, `httpgateway`, `retry`, `config`, `metrics`, `timeutil/time.go`: would only add easy members.
- `token.InitializeMultisig` and `SubmitBatch`: slicing and filling only; task encoding is the `Body` of a received message.
- Signer lists of multisig instructions are built in loops in the source and are plain sequences in the model, on values; order is kept.
- Error texts and logging: errors are tags, and the several wrapped errors of one check share a tag.
- ShortVec.EncodeLen: takes a natural number; the method cannot model the endless loop on a negative one, which `ShortVec.LoopEndsExactly` states.
- Encoding.Unmarshal: returns the transaction as a value, so what a failed call leaves in the receiver is not captured.
- Encoding.UnmarshalMessage: the same.
- Pipeline.ObservedExactly: the signers of multisig instructions are not observed, since no decompiler returns them.
- KinTransaction.ParseTransaction: assumes in-range indices, which `Encoding.DecodedIsAccepted` and `Compilation.CompiledInRange` provide; Go would panic otherwise.
- QueueDelivery.LeaseOutlastsExactly: which way the source's floating point rounds a given timeout is left open, and request latency is not modelled.
- QueueShutdown.ShutdownStops: assumes that requests to SQS return, that the scheduler is fair to each caller and worker and that the mutex starves nobody; wall-clock time, and with it the grace period, is a step that may happen at any moment.
- Queue: each of `Start`, `Pause` and `Shutdown` is split at every access to shared state, the run lock has Go's writer preference and its release wakes the readers that wait; the fields are a value that steps replace, so the Go memory model is not captured.
- HeaderHops.HopDeliversExactly: the transport adds no names but the three the source skips, and lower case is that of ASCII; the journeys start every call with nothing outgoing.
- Duration.ParseISO8601: starts from the captured fields; the regular expression is not part of this model.
- `ContextWithHeaders`, and the getters of `headers_context.go`: single lookups.
