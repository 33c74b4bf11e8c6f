# Verification of the Tencent Cloud CLS SDK for Go

A Dafny model of the parts of the SDK where mistakes would be subtle, with proofs:

- **The protobuf codec** of `cls.pb.go`: a recursive specification of the wire format (`Varint`, `Wire`, `Messages`), a grammar it accepts exactly (`Groups`), the bytes it writes (`Layout`), its laws (`Sizes`, `RoundTrip`, `Concatenation`, `Normalisation`), and the generated code's own form (`Writer` fills a buffer from the end backwards, `Reader` moves a cursor with 64-bit arithmetic), proved equal to the specification.
- **The asynchronous producer** as a step system (`Pipeline`): senders, timer, dispatcher, any number of send goroutines and `Close` interleave freely; the quota is loaded, tested and charged in separate steps inside the accumulator's lock while workers release without it. `Frames` says what each party's steps leave alone, `Ownership`, `Accounts` and `Order` prove what each step keeps, `Runs` what holds after every run, `Close` what a nil from `Close` means, `Leftovers` what is never settled any more, `Readings` which readings of `Close` are safe, `Losses` runs that lose a call, `Progress` that before `Close` everything can still be settled (`Reaching` builds the runs).
- **The producer's objects** (`ProducerBatch`, `Accumulator`, `Timer`, `RetryQueue`, `Worker`): classes with the source's fields, proved against the values and steps of that system.
- **The consumer**: the offset tracker (`Offsets`), the partition loop as functions with its laws and as an object (`PartitionLoop`, `PartitionWorker`), the heartbeat lists over arrays that slices could share (`Heartbeat`, `HeartbeatWorker`), the worker map and its text keys (`ConsumerWorker`, `Keys`).
- **`copyIncompressible`** (`Lz4`).

`dafny verify dfyconfig.toml` checks everything. Clocks, the outcome of `Send`, `PullLogs`, `UpdateOffsets` and heartbeats, map iteration orders and the scheduler are inputs or free choices.

How the pieces fit: `Pipeline.Place` is the append of `LogAccumulator` (`Accumulator.PlaceIsAppended`); `Pipeline.Outcome` is one step of `sendToServer`, and `Worker.SendWorker.SendToServer` is proved to do what the steps of one goroutine do; `Pipeline.MayTake` is what `getRetryBatch` guarantees (`RetryRefinement.TakeIsAllowed`). The offset and heartbeat classes are proved against `Offsets.Next` and `Heartbeat.BeatTakes`, the partition worker against `PartitionLoop.ConsumeOf`, about whose runs the laws are stated. Every such specification has laws that do not mention it: grammars, layouts, exact conditions on clocks and counters, and what is sent, fired, served or processed over whole runs.

Where the code differs from what one might expect, the model follows the code: end-group tags of the wrong field number are accepted; the tenth byte of a varint keeps only its lowest bit; an exhausted batch records no attempt for its last failure; a list send counts as one log; the retry delay can wrap around; a colon in a topic keeps its partitions in the heartbeat lists; entries that repeat a topic in a heartbeat response are merged only once; a nil from `Close` can come too early, in five ways each given as a run in `Losses`, and `Readings.NilHonestExactly` says exactly when it can; in a sixth run it never comes.

## Model

| member | source | states |
|---|---|---|
| Varint.SovIsExact | cls.pb.go:769-771 | `sovCls`, computed from the bit length of `x` with its lowest bit set, is the number of bytes of the varint of every uint64 |
| Varint.VarintRoundTrip | cls.pb.go:636-646 | the bytes `encodeVarintCls` produces read back as the value, and nothing after them is consumed |
| Varint.Uint64RoundTrip | cls.pb.go:636-646 | the same for every uint64, within the ten bytes the reader allows |
| Varint.EncVarintFits | cls.pb.go:636-646 | a uint64 takes one to ten bytes |
| Varint.ReadVarintBounded | cls.pb.go:782-795 | whatever is read fits 64 bits: the tenth byte keeps only its lowest bit, as the shift by 63 does |
| Varint.WordFits | cls.pb.go:782-795 | a word read from any bytes is a uint64 |
| Varint.ReadVarintLocal | cls.pb.go:782-795 | a successful read depends only on the bytes it consumes |
| Varint.ReadVarintAt | cls.pb.go:782-795 | the cursor loop that ors in seven bits at a time returns the specified read for every byte string and position, end of input and overflow included |
| Varint.EncodeVarintCls | cls.pb.go:636-646 | the backward writer fills exactly `sov(v)` bytes before `offset` with the varint, touches nothing else and returns the new offset |
| Wire.NextLocal | cls.pb.go:1157-1407 | one parsed field depends only on its own bytes |
| Wire.SkipLocal | cls.pb.go:1493-1570 | a skipped chunk has the same length wherever it stands |
| Wire.FieldsAnywhere | cls.pb.go:1157-1407 | a message body parses the same at every position of a buffer |
| Wire.FieldsAppend | cls.pb.go:1157-1407 | the fields of a concatenation are the fields of the parts |
| Wire.FieldShape | cls.pb.go:1157-1407 | a parsed field advances the cursor, stays inside the slice, and is one of: varint, length-delimited, unknown chunk |
| Wire.FieldsLegal | cls.pb.go:1157-1407 | every parsed field is one that the writer can write |
| Wire.UnknownBytesKept | cls.pb.go:1386-1401 | unknown chunks, nested groups included, are kept byte for byte and in order, and parse again as the same unknown chunks |
| Wire.NextOfEncoded | cls.pb.go:1157-1407 | parsing an encoded field followed by anything gives the field and the rest |
| Wire.FieldsOfEncoded | cls.pb.go:1157-1407 | parsing encoded fields gives the fields |
| Groups.ScalarIsHop | cls.pb.go:1514-1560 | what the skipper passes over without opening or closing a group is exactly a tag followed by the payload its wire type asks for: one varint for 0, eight bytes for 1, a length and that many bytes for 2, four bytes for 5 |
| Groups.TagIsHop | cls.pb.go:1533-1548 | a group is opened by exactly a tag of wire type 3 and closed by exactly one of wire type 4, each passed over alone |
| Groups.SkipIsTheGrammar | cls.pb.go:1493-1570 | `skipCls` accepts `n` bytes if and only if they are one field of a grammar written without the skipper: a scalar as above, or a group of such fields between a start and an end tag |
| Groups.SkipPassesItem | cls.pb.go:1493-1570 | at every depth and offset the skipper passes over a well-nested field and returns at its end |
| Groups.SkipClosesGroup | cls.pb.go:1493-1570 | conversely, whatever it passed inside a group was well nested and closed |
| Groups.OneField | cls.pb.go:1493-1570 | the grammar is unambiguous: the bytes of a field can be read as one in one way only |
| Groups.StandardExactly | cls.pb.go:1551-1556 | what the skipper accepted is a field of the grammar that demands matching group ends if and only if the two tags of every group in it name the same field |
| Groups.NextIsTheGrammar | cls.pb.go:1157-1407 | the field loop reads `f` at any position if and only if the input starts with a tag of a positive number that ends no group, with for a number of cls.proto the payload of its wire type, and otherwise all of it a field of that grammar, kept as it is |
| Groups.VarintRefuses | cls.pb.go:782-795 | a varint is an overflow exactly when ten bytes carry the continuation bit and cut short exactly when all there is, less than ten, does |
| Groups.NextRefuses | cls.pb.go:1177-1188 | which fields are refused for their tag: exactly wire type 4, exactly a number that is not positive, exactly a wire type other than the declared one; the error of the tag itself is passed on |
| Groups.DelimitedRefuses | cls.pb.go:1190-1215 | a delimited field has an invalid length exactly when its length or its end is beyond the largest int, and ends too late exactly when it reaches past the slice |
| Groups.EndTagNumberIgnored | cls.pb.go:1551-1556 | in every group any end tag at all may stand in the place of its own and is accepted; the result is standard if and only if the numbers agree |
| Layout.VarintDigits | cls.pb.go:636-646 | a varint is the base-128 digits of its number, the lowest first, all but the last with the continuation bit, and the last not zero |
| Layout.PairLayout | cls.proto:8-12 | key and value are the fields 1 and 2, each behind its one-byte tag and length, then the unknown bytes |
| Layout.LogLayout | cls.proto:5-15 | the time is field 1 as a varint of its two's complement, the contents in order field 2, the collection time field 3 |
| Layout.GroupLayout | cls.proto:23-31 | logs, context flow, file name, source, tags and host name are the fields 1 to 6, in this order |
| Layout.ListLayout | cls.proto:33-36 | the log groups in order are field 1 |
| Sizes.PairSizeExact | cls.pb.go:671-690 | `Size` is the exact length of the encoding, for every message |
| Sizes.LogSizeExact | cls.pb.go:647-670 | `Size` is the exact length of the encoding, for every message |
| Sizes.GroupSizeExact | cls.pb.go:711-750 | `Size` is the exact length of the encoding, for every message |
| Sizes.ListSizeExact | cls.pb.go:751-768 | `Size` is the exact length of the encoding, for every message |
| RoundTrip.PairRoundTrip | cls.pb.go:905-1030 | a message with its required fields set and well-formed unknown bytes unmarshals from its encoding to itself; strings of any bytes, times of any sign |
| RoundTrip.LogRoundTrip | cls.pb.go:775-904 | a message with its required fields set and well-formed unknown bytes unmarshals from its encoding to itself; strings of any bytes, times of any sign |
| RoundTrip.GroupRoundTrip | cls.pb.go:1157-1407 | a message with its required fields set and well-formed unknown bytes unmarshals from its encoding to itself; strings of any bytes, times of any sign |
| RoundTrip.ListRoundTrip | cls.pb.go:1408-1492 | a message with its required fields set and well-formed unknown bytes unmarshals from its encoding to itself; strings of any bytes, times of any sign |
| Concatenation.PairConcat | cls.pb.go:905-1030 | if `a` and `b` are accepted so is `a ++ b`; repeated fields and unknown bytes are appended and of singular fields the last one wins |
| Concatenation.LogConcat | cls.pb.go:775-904 | if `a` and `b` are accepted so is `a ++ b`; repeated fields and unknown bytes are appended and of singular fields the last one wins |
| Concatenation.GroupConcat | cls.pb.go:1157-1407 | if `a` and `b` are accepted so is `a ++ b`; repeated fields and unknown bytes are appended and of singular fields the last one wins |
| Concatenation.ListConcat | cls.pb.go:1408-1492 | if `a` and `b` are accepted so is `a ++ b`; repeated fields and unknown bytes are appended and of singular fields the last one wins |
| Normalisation.PairAccepted | cls.pb.go:905-1030 | whatever `Unmarshal` accepts has its required fields set, is no larger than the input, and holds exactly the unknown chunks of the input |
| Normalisation.LogAccepted | cls.pb.go:775-904 | whatever `Unmarshal` accepts has its required fields set, is no larger than the input, and holds exactly the unknown chunks of the input |
| Normalisation.GroupAccepted | cls.pb.go:1157-1407 | whatever `Unmarshal` accepts has its required fields set, is no larger than the input, and holds exactly the unknown chunks of the input |
| Normalisation.ListAccepted | cls.pb.go:1408-1492 | whatever `Unmarshal` accepts has its required fields set, is no larger than the input, and holds exactly the unknown chunks of the input |
| Normalisation.PairNormalises | cls.pb.go:422-466 | marshalling an accepted message succeeds, is no longer than the input and unmarshals to the same message |
| Normalisation.LogNormalises | cls.pb.go:369-421 | marshalling an accepted message succeeds, is no longer than the input and unmarshals to the same message |
| Normalisation.GroupNormalises | cls.pb.go:512-594 | marshalling an accepted message succeeds, is no longer than the input and unmarshals to the same message |
| Normalisation.ListNormalises | cls.pb.go:595-635 | marshalling an accepted message succeeds, is no longer than the input and unmarshals to the same message |
| Normalisation.PairSurvives | cls.pb.go:905-1030 | a message survives marshalling and unmarshalling if and only if its required fields are set and its unknown bytes are unknown fields, at every level |
| Normalisation.LogSurvives | cls.pb.go:775-904 | a message survives marshalling and unmarshalling if and only if its required fields are set and its unknown bytes are unknown fields, at every level |
| Normalisation.GroupSurvives | cls.pb.go:1157-1407 | a message survives marshalling and unmarshalling if and only if its required fields are set and its unknown bytes are unknown fields, at every level |
| Normalisation.ListSurvives | cls.pb.go:1408-1492 | a message survives marshalling and unmarshalling if and only if its required fields are set and its unknown bytes are unknown fields, at every level |
| Writer.SizeOfPair | cls.pb.go:671-690 | the accumulating loops of `Size` return the length of the forward encoding |
| Writer.SizeOfLog | cls.pb.go:647-670 | the accumulating loops of `Size` return the length of the forward encoding |
| Writer.SizeOfGroup | cls.pb.go:711-750 | the accumulating loops of `Size` return the length of the forward encoding |
| Writer.SizeOfList | cls.pb.go:751-768 | the accumulating loops of `Size` return the length of the forward encoding |
| Writer.MarshalPair | cls.pb.go:437-466 | writes exactly the last `Size()` bytes before `hi` with the forward encoding, leaves all other bytes of the buffer untouched, returns `Size()`; an unset required field is the error |
| Writer.MarshalLog | cls.pb.go:384-421 | writes exactly the last `Size()` bytes before `hi` with the forward encoding, leaves all other bytes of the buffer untouched, returns `Size()`; an unset required field is the error |
| Writer.MarshalGroup | cls.pb.go:527-594 | writes exactly the last `Size()` bytes before `hi` with the forward encoding, leaves all other bytes of the buffer untouched, returns `Size()`; an unset required field is the error |
| Writer.MarshalList | cls.pb.go:610-635 | writes exactly the last `Size()` bytes before `hi` with the forward encoding, leaves all other bytes of the buffer untouched, returns `Size()`; an unset required field is the error |
| Writer.Marshal | cls.pb.go:595-603 | a buffer of exactly `Size()` bytes always suffices, and the result is the forward encoding |
| Writer.PutDelimited | cls.pb.go:440-464 | a length-delimited field written from the back: contents, length, tag |
| Writer.PutGroups | cls.pb.go:616-632 | the loop over the repeated field runs from the last element to the first and yields them in order |
| Reader.SkipPayload | cls.pb.go:1514-1560 | one payload of the skipper, with 64-bit wrap-around and the sign tests; how long each is, is in `Groups.ScalarIsHop` |
| Reader.SkipCls | cls.pb.go:1493-1570 | the loop equals the recursive specification on every byte string, errors included, and terminates; what that accepts is in `Groups.SkipIsTheGrammar` |
| Reader.ReadField | cls.pb.go:1161-1190 | tag, field number as int32, end-group and non-positive numbers refused; the over-long result of the skipper is caught by the caller |
| Reader.ReadDelimited | cls.pb.go:1224-1249 | `msglen`, `postIndex` with 64-bit wrap-around: the sign and range tests catch every overflow |
| Reader.UnmarshalPair | cls.pb.go:905-1030 | terminates on every byte string, never reads outside it and returns exactly the specified message or error, also into a message already partly filled |
| Reader.UnmarshalLog | cls.pb.go:775-904 | terminates on every byte string, never reads outside it and returns exactly the specified message or error, also into a message already partly filled |
| Reader.UnmarshalGroup | cls.pb.go:1157-1407 | terminates on every byte string, never reads outside it and returns exactly the specified message or error, also into a message already partly filled |
| Reader.UnmarshalList | cls.pb.go:1408-1492 | terminates on every byte string, never reads outside it and returns exactly the specified message or error, also into a message already partly filled |
| Lz4.LiteralRoundTrip | cls_client.go:298-322 | decoding a literal-only block by the literals-length rule of the LZ4 Block Format gives back the source |
| Lz4.BoundSuffices | cls_client.go:166-176 | a buffer of `len + len/255 + 16` bytes holds the block |
| Lz4.WriteHeader | cls_client.go:298-318 | the token and length bytes; stops early exactly when the buffer is full |
| Lz4.CopyIncompressible | cls_client.go:298-322 | for every buffer the result is a prefix of the block, and all of it exactly when it fits; with the bound no early return is taken and the result decodes to the source |
| Batch.GetLogSizeCalculate | utils.go:35-50 | the loop returns 4 plus the length of all keys and values put together, or refuses the log exactly when a value exceeds 10485760 bytes |
| Batch.ListBytesOfOne | utils.go:35-61 | no log counts nothing, a single one as much as `GetLogSizeCalculate` says |
| Batch.GetLogListSize | utils.go:51-61 | the sum over the logs, or a refusal when any log is refused |
| Batch.ListBytesAppend | utils.go:51-61 | sizes add up over appended lists, so that charges and releases can balance |
| Batch.LogWithinSize | utils.go:35-50 | the bytes accounted for a log are at most those its field takes in the group if and only if it has contents, a time, a collect time or two unknown bytes |
| Batch.AccountedWithinSize | producer_batch.go:60-67 | when every log is of that kind, as `NewCLSLog` makes them, the accounted size is at most the encoded size of the group |
| Batch.UntimedExceedsSize | producer_batch.go:60-67 | `n` empty logs without a time stay within the encoded size if and only if `2n` is at most the bytes the group takes besides them |
| Batch.UncoveredExceeds | producer_batch.go:60-67 | any other log that is not of that kind makes a group exceed its encoded size when sent often enough |
| Batch.CoveredExactly | producer_batch.go:60-67 | a log is of that kind if and only if, for every number of copies, the accounted size is at most the encoded size |
| Batch.DelayIsIdeal | woker.go:66-71 | the 64-bit backoff equals the doubling one capped at the maximum if and only if the product did not wrap or wrapped above the cap |
| Batch.DelaysNeverDecrease | woker.go:66-71 | if `base * 2^(Retries-1)` fits int64, the k-th delay is `min(base * 2^(k-1), max)` and never decreases |
| Batch.WrapDecreases | woker.go:66-71 | at the first product that does not fit, the delay is negative after a positive one |
| Batch.DelaysExactly | woker.go:66-71 | for a base of at least 2 ms the delays of all retries never decrease if and only if `base * 2^(Retries-1)` fits int64, and are the ideal ones if and only if it does |
| Batch.DelaysOfOne | woker.go:66-71 | for a base of 1 ms they never decrease if and only if there are at most 63 retries or the platform converts a float beyond int64 to something at least the 63rd delay |
| Batch.BackoffWraps | woker.go:66-71 | with the default base of 100 ms the 58th delay is negative |
| Ownership.StepOwned | log_send_thread_pool.go:28-67 | every step of every party keeps: each unfinished batch in exactly one place, its stage fitting the place, pending batches filed under their topic |
| Ownership.SoleOwner | woker.go:34-77 | the batch a send goroutine holds is nowhere else and held by no other goroutine |
| Ownership.PlaceOwned | log_accumulator.go:42-66 | all three append branches keep the ownership invariant |
| Ownership.TakeOwned | log_send_retry_queue.go:30-50 | a take from the retry heap moves batches without losing or doubling one |
| Ownership.WorkPutOwned | woker.go:34-77 | a goroutine changes only the batch it holds, and lets it go only when it is finished |
| Ownership.PushOwned | woker.go:72 | a requeue hands the batch from the goroutine to the heap |
| Accounts.NewEntryOk | producer_batch.go:31-72 | a new batch holds exactly the logs and callback of its call, accounted by their size |
| Accounts.GrownEntryOk | log_accumulator.go:42-61 | an append keeps logs, callbacks, accounted size and the size limits |
| Accounts.OutcomeOk | woker.go:34-77 | sends, recorded attempts and outcome of a batch agree after every step of its goroutine |
| Accounts.StepSound | log_accumulator.go:95-133 | every step keeps all of this for every batch |
| Accounts.PlaceOwes | log_accumulator.go:111-126 | the append moves the reserved bytes into what the batches owe, and nothing else |
| Accounts.OutcomeOwes | woker.go:44-44 | what a batch owes drops exactly by what its goroutine releases, exactly when it releases |
| Accounts.OwedNonNegative | log_accumulator.go:95-133 | what is owed is never negative |
| Accounts.WorkQuota | woker.go:42-48 | a release between the load and the add of a lock holder keeps the quota invariant |
| Accounts.AppendQuota | log_accumulator.go:111-126 | the append by the lock holder keeps it |
| Accounts.SenderQuota | log_accumulator.go:103-111 | load, test and add as separate steps keep it |
| Accounts.StepQuota | log_accumulator.go:95-133 | every step keeps: counter = owed + reserved, within the total, and what the lock holder loaded is at least the counter |
| Accounts.OutcomeExpected | woker.go:100-108 | the callbacks that should have been called advance exactly with those called |
| Accounts.StepFired | woker.go:44-49 | every step keeps: the callbacks called are those that should have been |
| Order.HandOverFlow | log_accumulator.go:78-81 | a hand-over leaves the flow of every topic unchanged |
| Order.PlaceFlow | log_accumulator.go:42-66 | whichever branch is taken, the call goes to the end of its topic's flow and no other topic changes |
| Order.StepOrder | timer_send_log_task.go:39-84 | every step keeps: per topic, handed-over batches then the pending one hold the accepted calls in lock order |
| Order.LogsInOrder | log_accumulator.go:113-126 | the same for the logs themselves |
| Order.StepTasks | woker.go:88-98 | every step keeps: `taskCount` counts the goroutines not yet counted out plus a counted batch without one; at most `MaxSendWorkerCount` hold the semaphore |
| Runs.StepKeeps | async_producer_client.go:113-134 | every enabled step of every party keeps the whole invariant |
| Runs.RunKeeps | async_producer_client.go:113-134 | so does every run |
| Runs.ReachableInv | async_producer_client.go:26-57 | and every state reached from the start has it |
| Runs.OnePlace | log_send_thread_pool.go:51-67 | in every reachable state an unfinished batch is in exactly one of pending map, queue, dispatcher's hand, retry heap, timer's list, one goroutine; a finished one in none |
| Runs.QuotaConserved | log_accumulator.go:95-133 | `producerLogGroupSize` is the sum owed by unsettled batches plus what the lock holder reserved; it stays between 0 and `TotalSizeLnBytes`; it is 0 when all are settled |
| Runs.NoLossNoRepeat | timer_send_log_task.go:29-37 | per topic, the logs of its batches in order of first hand-over and then the pending ones are the accepted logs in lock order; no batch is handed over twice |
| Runs.SettledOnce | woker.go:34-77 | callbacks are called only after the quota release, each once and in order, all with success exactly when the last `Send` returned nil; the batch holds the logs and callbacks of its accepted calls |
| Runs.SettledForGood | woker.go:100-108 | a settled batch keeps its outcome, sends, calls and attempt count through every run and never goes back: no second release, no second settling |
| Runs.RetryBound | woker.go:58-75 | at most `max(Retries,0)+1` sends; before settling `min(attemptCount, MaxReservedAttempts)` attempts; the exhausted branch records none |
| Runs.RetriesDecrease | woker.go:64-72 | a requeue happens only below the limit and for a retryable code, uses up one retry and sets the next time by the backoff |
| Runs.LingerExactly | timer_send_log_task.go:29-54 | the linger step hands a pending batch over if and only if its creation time plus the linger time is reached both when the pass began and at the visit; otherwise nothing moves |
| Runs.FirstComeFirstServed | log_send_thread_pool.go:28-43 | over every run of all parties: what is queued is popped in that order, before whatever is queued later |
| Runs.SizeBound | producer_batch.go:60-67 | a batch of several calls had a total of at most 5 MiB at its last append, its accounted size is at most that total when every log is covered; with single-log sends it holds at most `MaxBatchCount` logs |
| Runs.ListsEscapeTheCount | log_accumulator.go:43-46 | a list send is counted as one log: for every `n` with `4n` within the quota, a reachable state has a batch of `n` logs, beyond `MaxBatchCount` too |
| Runs.TasksCounted | woker.go:88-98 | `taskCount` is never negative and is what it should count |
| Runs.HeapKeysStill | log_send_retry_queue.go:56-58 | no step changes the retry time of a batch while it is in the heap |
| Close.SealedStays | async_producer_client.go:136-140 | once the drain is over with the accumulator's flag set, no sender can add anything any more |
| Close.ShutStays | woker.go:51-56 | once the heap was emptied with the retry flag set and nobody past the flag test, nobody can push any more |
| Close.NothingPendingAfterDrain | timer_send_log_task.go:73-78 | with the accumulator's flag set before the drain ends, the pending map is empty after it and in every later state |
| Close.SettledExactly | async_producer_client.go:113-134 | after the timer's end, in every reachable state with an empty queue, every batch is settled if and only if none is pending, in the heap, in the dispatcher's hand or held by a goroutine; if all are and no sender has just reserved, the quota is 0 |
| Close.NilMeansSettled | async_producer_client.go:125-128 | when `Close` returns nil, having read the task count earlier and the queue now, every batch is settled if and only if none is pending, in the heap, in the dispatcher's hand or held by a goroutine |
| Close.IdleMeansSettled | async_producer_client.go:125-128 | if the two were read in one instant, every batch is settled if and only if none is pending, in the heap, or popped and uncounted |
| Close.NilAfterStableZero | async_producer_client.go:125-128 | sealed and shut, with the queue empty and nothing popped when the task count is read as 0: all is settled then and after whatever runs before the queue is read |
| Close.ShutdownInOrder | async_producer_client.go:136-140 | in every reachable state the flags are set in the order timer, accumulator, retry, pool; the timer drains only when told to; the pool flag is set only after its end, and only then may the dispatcher stop |
| Close.NilWhenIdle | async_producer_client.go:125-128 | if nothing happens between its two tests, `Close` returns nil if and only if it sees no task and an empty queue |
| Close.ConditionalDrain | async_producer_client.go:120-134 | flags set before the drain ends, nobody between flag test and push at the last take, and some instant with no task, no queue and no popped batch uncounted: then every accepted call was handed over and settled and the quota is 0, at that instant and after every further run |
| Losses.LateFlagLoses | async_producer_client.go:136-140 | the accumulator's flag set after the drain: a run after which `Close` returns nil and an accepted call stays pending in every state that can follow |
| Losses.UncountedPopLoses | log_send_thread_pool.go:54-55 | a batch popped and not counted at the count: a run, sealed and shut, after which `Close` returns nil and the call is not sent |
| Losses.SplitTestLoses | async_producer_client.go:125-128 | a batch still queued at the count: a run, sealed and shut, in which it is popped, counted and given to a goroutine before the queue is read, and `Close` returns nil while it is not sent |
| Losses.LatePushLoses | woker.go:51-72 | a goroutine between flag test and push at the last take: a run after which `Close` returns nil and the batch stays in the heap, unsent, in every state that can follow |
| Losses.LateSenderLoses | log_accumulator.go:95-117 | a sender that read the flag before it was set: a run in which `Close` returns nil with nothing left, and after it the call is reserved, appended and then pending in every state that can follow |
| Losses.EarlyStopLoses | log_send_thread_pool.go:51-67 | the dispatcher pops nil, the drain queues a batch, the pool flag is set and then tested: a run, sealed and shut, after which that batch stays queued and `Close` has not returned nil in any state that can follow |
| Leftovers.PendingForGood | timer_send_log_task.go:73-84 | what is pending when the timer has ended and the accumulator is shut stays pending and is never sent, whatever runs |
| Leftovers.HeapForGood | timer_send_log_task.go:79-84 | what is in the retry heap when the timer has ended stays there and is never sent, whatever runs |
| Leftovers.QueueForGood | log_send_thread_pool.go:51-67 | what is queued when the dispatcher has popped nil and will find the pool flag set, or has ended, is never sent, whatever runs; if it is anything `Close` never returns nil |
| Leftovers.StopsExactly | log_send_thread_pool.go:61-65 | at a test of the set pool flag with the accumulator shut, the queue stays as it is for good: something is lost there if and only if it is not empty by then |
| Readings.NilHonestExactly | async_producer_client.go:125-128 | in every reachable state in which `Close` can read that no task is counted: every nil that can follow means that all is settled, then and later, if and only if nothing is queued, popped, pending or in the retry heap and the lock holder is going to be refused, or the dispatcher is stopping before a queue that is not empty |
| Readings.NilHonestWhenShut | async_producer_client.go:125-128 | sealed and shut: if and only if nothing is queued or popped, or the dispatcher is stopping |
| Progress.CanSettle | log_send_thread_pool.go:51-67 | from every reachable state before `Close` some run settles every batch, returns the whole quota and hands over all accepted logs: lock, semaphore, timer and dispatcher never block one another for good |
| ProducerBatches.ProducerBatch.constructor | producer_batch.go:31-72 | the given topic, package id, logs and time, one callback if there is one, no attempt yet; its total is the length of the encoding of its log group, and it is accounted by its logs, or by that length if their size is refused |
| ProducerBatches.ProducerBatch.AddLogToLogGroup | producer_batch.go:86-94 | appends the logs and changes nothing else |
| ProducerBatches.ProducerBatch.AddProducerBatchCallBack | producer_batch.go:96-100 | appends the callback and changes nothing else |
| Accumulator.AppendExactly | log_accumulator.go:42-66 | for any sizes and limits: a call joins the pending batch of its topic if and only if the count allows it and the total is within the limit or below 5 MiB; the batch stays only if the total is within the limit, else it goes to the end of the queue; a call that does not join starts a new batch |
| Accumulator.PlaceIsAppended | log_accumulator.go:42-66 | the append of the step system and the append of the accumulator's code are the same on what both hold |
| Accumulator.OwnedIsViewed | log_accumulator.go:17-26 | in every owned state that view is defined |
| Accumulator.LogAccumulator.AddOrSendProducerBatch | log_accumulator.go:42-66 | the three branches on the mutable map, queue and batch, with no other batch changed |
| Accumulator.LogAccumulator.CreateNewProducerBatch | log_accumulator.go:68-76 | a fresh batch under its topic |
| Accumulator.LogAccumulator.InnerSendToServer | log_accumulator.go:78-81 | the batch leaves the map and joins the queue |
| Accumulator.LogAccumulator.TryReserveAndAppend | log_accumulator.go:95-133 | refuses, with nothing changed, exactly when shut down or over the quota; otherwise charges and appends |
| Accumulator.LogAccumulator.AddLogToProducerBatch | log_accumulator.go:138-203 | accepted exactly at the first of its tries that finds room, given what the workers release meanwhile; refused for an oversized value or a shutdown before any try |
| Accumulator.AnswerMeans | log_accumulator.go:138-203 | the answer for every waiting time: shut down, a value too large, accepted at the first try with room, or refused after the last, and never refused for the quota if the caller waits without limit |
| Accumulator.FirstFitMeans | log_accumulator.go:190-202 | that first try exists if and only if some try finds room, and none before it does |
| Accumulator.ChargedThenPlaced | log_accumulator.go:113-117 | adding the size to the total first and branching on it then is the specified append |
| Accumulator.SendThreadPool.AddTask | log_send_thread_pool.go:28-32 | to the back of the queue |
| Accumulator.SendThreadPool.PopTask | log_send_thread_pool.go:34-43 | from the front, or nil exactly when empty |
| Accumulator.SendThreadPool.HasTask | log_send_thread_pool.go:45-49 | true exactly when the queue is not empty |
| Timer.TimerSendLogTask.SendToServer | timer_send_log_task.go:29-37 | hands the batch over exactly when it is old enough at a second reading of the clock |
| Timer.TimerSendLogTask.LingerPass | timer_send_log_task.go:41-60 | in whatever order the map is visited, exactly the batches whose creation time plus the linger time is reached at both readings of the clock are handed over, and the sleep is the shortest time until another is due |
| Timer.TimerSendLogTask.DrainPass | timer_send_log_task.go:73-78 | everything pending is handed over, in some order, and the map is empty |
| Timer.FlushedAllIs | timer_send_log_task.go:44-54 | which batches leave and where they stand in the queue |
| RetryQueue.LogSendRetryQueue.constructor | log_send_retry_queue.go:16-20 | an empty heap |
| RetryQueue.LogSendRetryQueue.Up | log_send_retry_queue.go:22-28 | sift-up restores the heap order and permutes |
| RetryQueue.LogSendRetryQueue.Down | log_send_retry_queue.go:30-50 | sift-down restores the heap order below `n` and leaves the rest in place |
| RetryQueue.LogSendRetryQueue.Push | log_send_retry_queue.go:64-67 | keeps the heap order and adds one batch |
| RetryQueue.LogSendRetryQueue.Pop | log_send_retry_queue.go:69-75 | keeps the heap order and removes a batch with the least retry time |
| RetryQueue.LogSendRetryQueue.GetRetryBatch | log_send_retry_queue.go:30-50 | no batch lost; sorted by retry time; each due at its own reading of the clock and the rest not due at the last; everything when shutting down |
| RetryQueue.SiftedUp | log_send_retry_queue.go:56-62 | one swap with the parent moves the defect up |
| RetryQueue.SiftedDown | log_send_retry_queue.go:56-62 | one swap with the smaller child moves the defect down |
| RetryQueue.RootIsLeast | log_send_retry_queue.go:56-58 | the root of a heap has the least key |
| RetryRefinement.TakeIsAllowed | log_send_retry_queue.go:30-50 | what `getRetryBatch` returns and leaves is what the step system lets its timer take with the same clock readings |
| Worker.SendPassEnds | woker.go:34-77 | one pass of a goroutine ends in a requeue exactly for a retryable code below the limit with the flag clear, otherwise in settling with success exactly when `Send` returned nil; which attempt is recorded, and what else of the batch changes: only the counters |
| Worker.SendWorker.SendToServer | woker.go:34-77 | the method does to the batch and the heap what the steps of a goroutine do; when it settles, the accounted size is released and every callback of the batch is called once, in order, with success if and only if `Send` returned nil, as those steps fire them |
| Worker.SettlingFires | woker.go:37-49 | the steps of a settling goroutine fire every callback once, in order, with the outcome of the settling |
| Worker.SendWorker.AddErrorMessageToBatchAttempt | woker.go:79-86 | one more attempt counted; appended with its code only below the reserved number |
| Worker.SendWorker.Settle | woker.go:100-108 | releases the accounted size once and calls every callback once, in order, each with the given outcome |
| Worker.SendWorker.NextRetry | woker.go:66-71 | the next retry time by the capped 64-bit backoff |
| Worker.SendWorker.CountTask | woker.go:95-95 | counts a task, before there is room for it |
| Worker.SendWorker.TakePlace | woker.go:96-96 | takes a place in the semaphore when there is one |
| Worker.SendWorker.StartSendTask | woker.go:94-98 | one more task counted and one more place taken, whatever goroutines end between the two |
| Worker.SendWorker.CloseSendTask | woker.go:88-92 | gives both back |
| Worker.SeesIdle | async_producer_client.go:125-128 | the test of `Close`: true exactly when no task was counted and the queue is empty at the second reading; any task then running started in between |
| Worker.AsyncProducerClientConfig.ValidateProducerConfig | async_producer_client.go:60-95 | afterwards the settings are valid; every usable one is kept and each other has its default |
| Offsets.CommitsNeverGoBack | consumer/offset_tracker.go:49-95 | over every interleaving of initialisation, fetches, saves and flushes, failed or not, the offsets sent to `UpdateOffsets` never decrease and none is beyond what the server announced, if the announced offsets never decrease and each explicit offset lies between the last sent and the last learned |
| Offsets.RunBounded | consumer/offset_tracker.go:37-95 | the invariant behind it: each register is -1 or between the last sent and the last learned offset |
| Offsets.ExplicitExactly | consumer/offset_tracker.go:51-60 | after every such run, an explicit offset that is flushed next keeps the order if and only if it is the one recorded last or not below the last sent |
| Offsets.ExplicitIntervalExactly | consumer/offset_tracker.go:51-95 | both ends are needed: an explicit offset flushed, and then the fetched one saved and flushed, keep the order if and only if it lies between the last sent and the fetched one |
| Offsets.RegistersAre | consumer/offset_tracker.go:37-95 | after any events the three registers are the offset fetched last, the one recorded last and the one acknowledged last, each read off the events and what was sent |
| Offsets.FlushSends | consumer/offset_tracker.go:75-95 | what a flush sends after any events: the offset recorded last or, only while there is none, the one fetched last; nothing if there is neither, or if the server has it and the flush is not forced |
| Offsets.OnlyFlushSends | consumer/offset_tracker.go:37-95 | nothing else sends an offset |
| Offsets.RecordedIsSent | consumer/offset_tracker.go:49-95 | from the moment an offset is recorded until another is, every offset sent is that one, whatever is fetched meanwhile; once the server has it, nothing is sent unless forced |
| Offsets.OffsetTracker.FlushOffset | consumer/offset_tracker.go:75-95 | sends the saved offset, or else the fetched one, if there is one and it is new or forced; records it only on success |
| Offsets.OffsetTracker.SaveOffset | consumer/offset_tracker.go:49-61 | saves the fetched or the given offset and flushes when asked to |
| Offsets.OffsetTracker.FlushCheck | consumer/offset_tracker.go:97-111 | flushes when more than 60 seconds passed since the last check that did |
| Offsets.OffsetTracker.SetOffset | consumer/offset_tracker.go:37-41 | changes the fetched register only |
| Offsets.OffsetTracker.SetMemoryOffset | consumer/offset_tracker.go:63-67 | changes the saved register only |
| Offsets.OffsetTracker.SetPersistentOffset | consumer/offset_tracker.go:69-73 | changes the persistent register only |
| PartitionWorker.PartitionConsumerWorker.Initialize | consumer/partition_worker.go:167-210 | starts from the stored offset, else from the beginning, else from 0, and tells the tracker only a stored one |
| PartitionLoop.TryExactly | consumer/partition_worker.go:267-308 | the answer is the first of three tries that is no error, unless the worker is shut down before that try: then there is none, and only the close of the shutdown has happened; the position jumps to the end exactly on an invalid offset at the first |
| PartitionLoop.FetchExactly | consumer/partition_worker.go:213-384 | a fetch takes place exactly on a running worker after the minimal interval, with a time range not inverted, an answer, and no shutdown before it; every register afterwards, the position also after an invalid offset and after an answer without a positive next one; an idle partition is flushed exactly when 30 seconds passed since the timer was set |
| PartitionLoop.RoundExactly | consumer/partition_worker.go:113-140 | the events of any round in their order: the processor has its turn if and only if the fetch comes with log groups and no shutdown precedes it, and then makes exactly its saves, after the fetch and before the periodic check; the shutdown, at its moment, is a forced flush and the processor's last saves |
| PartitionLoop.SaveIs | consumer/offset_tracker.go:49-61 | a save of the processor is one save, with an unforced flush if it is to be persistent |
| PartitionLoop.LoopExactly | consumer/partition_worker.go:107-140 | the rounds are run in order, each in the state the one before left, all of them unless one ends shut down; the turns of the processor are exactly those of the run rounds whose fetch came with data |
| PartitionLoop.ClosedOnce | consumer/partition_worker.go:113-159 | whoever closes the worker and whenever, its whole consumption forces the offset out exactly once; if no round closed it, that is the last thing done but for the processor's last saves |
| PartitionLoop.EarlyStopExactly | consumer/partition_worker.go:460-468 | a shutdown between the fetch and the processing commits the offset of data the processor never gets if and only if no other offset is recorded |
| PartitionLoop.RoundLearns | consumer/partition_worker.go:113-140 | a round tells the tracker at most the positive next offset of its answer, exactly when its fetch takes place |
| PartitionLoop.LoopAdvances | consumer/partition_worker.go:113-140 | if the positive next offsets of the rounds' answers never decrease and start at or above the last learned offset, so does all the tracker learns over any rounds |
| PartitionLoop.LoopNeverGoesBack | consumer/partition_worker.go:94-159 | for any rounds, shutdowns from outside included, with advancing answers and no offsets of the user's choice, the committed offsets never go back |
| PartitionLoop.LifeNeverGoesBack | consumer/partition_worker.go:94-210 | the same from the stored offset on, through the whole life of a worker |
| PartitionWorker.PartitionConsumerWorker.PullWithRetry | consumer/partition_worker.go:267-308 | the loop over the tries with its test for a shutdown before each, and the jump to the end on an invalid offset, for every answer and shutdown |
| PartitionWorker.PartitionConsumerWorker.FetchData | consumer/partition_worker.go:213-384 | leaves exactly the registers, log groups, tracker and commits of the specified fetch |
| PartitionWorker.PartitionConsumerWorker.Close | consumer/partition_worker.go:460-468 | unless it was closed before, exactly a forced flush and then the processor's last saves; the worker is shut down |
| PartitionWorker.PartitionConsumerWorker.ConsumeWithContext | consumer/partition_worker.go:94-159 | does nothing when shut down and initialises a new worker; otherwise its registers, events and commits are those of the rounds until a shutdown or the cancelled context, and of the close (`PartitionLoop.LoopExactly` and `PartitionLoop.ClosedOnce` say what those are), with one forced flush in all; what it learns advances if the answers do, and then the commits never go back |
| Heartbeat.AddedIs | consumer/heartbeat_worker.go:276-311 | what the merge of any two lists, repeated topics included, lists for each topic: all of both, but of the second list's entries for a shared topic only the first |
| Heartbeat.BeatKeeps | consumer/heartbeat_worker.go:134-184 | a successful heartbeat whose response repeats nothing, a kept or timed-out one, or a removal keeps what is held within what is reported, for any configured topics |
| Heartbeat.BeatKeepsProper | consumer/heartbeat_worker.go:134-184 | with distinct configured topics it also keeps both lists free of repeated topics and ids |
| Heartbeat.HeldWithinHeart | consumer/heartbeat_worker.go:134-184 | through every run of them, from the start on: held within reported for any configured topics, and nothing repeated if those are distinct |
| Heartbeat.RemovedIs | consumer/heartbeat_worker.go:369-405 | a removal takes one id from one topic and nothing else |
| Heartbeat.RepeatedTopicsExactly | consumer/heartbeat_worker.go:276-311 | after any response, held is within reported if and only if, for each topic reported before, its later entries bring no id that neither the reported ones nor its first entry have |
| Heartbeat.RepeatedIdsExactly | consumer/heartbeat_worker.go:369-405 | after a response without repeated topics, every removal keeps held within reported if and only if no topic reported before repeats an id in the response |
| HeartbeatWorkers.MergePartitionIDs | consumer/heartbeat_worker.go:314-330 | the union of the ids, each once, in any order, in a new array |
| HeartbeatWorkers.AddPartitions | consumer/heartbeat_worker.go:276-311 | for any two lists: the merged entries for shared topics over new arrays, then those of one list only with the arrays they had |
| HeartbeatWorkers.CopyPartitions | consumer/heartbeat_worker.go:333-342 | the same lists over arrays of their own |
| HeartbeatWorkers.EmptyPartitions | consumer/heartbeat_worker.go:344-353 | an entry without ids for each configured topic, in order |
| HeartbeatWorkers.RemoveID | consumer/heartbeat_worker.go:382-388 | the first occurrence is removed by shifting the rest in the same array |
| HeartbeatWorkers.HeartbeatWorker.constructor | consumer/heartbeat_worker.go:32-60 | for any topics, starts with empty lists that share nothing |
| HeartbeatWorkers.HeartbeatWorker.SendHeartbeat | consumer/heartbeat_worker.go:146-183 | for any response, on success exactly the response is held and merged into what is reported, within the timeout what is held stays and is merged, and beyond it both lists are empty; no two slices in use share an array |
| HeartbeatWorkers.HeartbeatWorker.RunRound | consumer/heartbeat_worker.go:87-104 | moves the time of the last success on success only; on success holds exactly the response; with one that repeats nothing keeps held within reported; after too long without success both lists are empty |
| HeartbeatWorkers.HeartbeatWorker.RemoveHeartPartition | consumer/heartbeat_worker.go:369-411 | in place, from both lists, with no other entry disturbed |
| HeartbeatWorkers.HeartbeatWorker.GetHeldPartitions | consumer/heartbeat_worker.go:362-366 | a snapshot that shares nothing with the lists |
| Keys.AtoiItoa | consumer/worker.go:373-373 | every int64 partition id is read back from its text |
| Keys.KeyRoundTrip | consumer/worker.go:372-375 | a worker key is split and parsed back to its topic and id if and only if the topic has no colon |
| Keys.KeyInjective | consumer/worker.go:286-286 | different partitions have different keys, colons or not |
| ConsumerWorkers.ActiveKeysAre | consumer/worker.go:341-348 | the active keys are exactly those of the listed partitions |
| ConsumerWorkers.ConsumerWorker.GetOrCreatePartitionWorker | consumer/worker.go:285-336 | the worker filed under the key; if there is none, a new one of that partition, start and end time, not initialised, with the registers and the tracker of a new one |
| ConsumerWorkers.TrimOne | consumer/worker.go:360-378 | the removals of the loop add up, in whatever order the workers are visited, to one function of any list and the set of gone keys |
| ConsumerWorkers.TrimIs | consumer/worker.go:360-378 | of a list without repetitions it leaves exactly the partitions whose workers did not go and those of topics with a colon |
| ConsumerWorkers.ConsumerWorker.CleanupUnusedPartitionWorkers | consumer/worker.go:339-386 | exactly the assigned workers that are not shut down stay, and nothing of an assigned one changes; an unassigned one is shut down, its offset forced out and its processor's last saves made, unless it was closed before; of any lists exactly the first mention of each of their partitions in the first entry of its topic goes, unless the topic has a colon |
| ConsumerWorkers.ConsumerWorker.Reconcile | consumer/worker.go:212-224 | after create and cleanup there is a worker for exactly the assigned partitions, except those whose worker was shut down before: those there were are as they were, the new ones have the start and end time and the state of a new worker, the unassigned ones were closed; and the lists lost what the cleanup takes for the workers that went |

## Left out

- HTTP, authentication, endpoints, JSON, zstd, deflate, snappy and the lz4 compressor: library and network plumbing; `CompressBlockBound` is taken as `n + n/255 + 16`.
- The synchronous producer, getters, reflection hooks, loggers, statistics and the printing of partition differences: nothing hard to state.
- Pointers in messages: a message is a value, so nil elements of repeated fields, messages shared between lists and the partly filled message left by a failed `Unmarshal` are not distinguished. `Log_Content` and `LogTag` have the same fields and code and are one type, `Pair`.
- The last test of each `Unmarshal`, `iNdEx > l`, can never hold and is not modelled.
- Bitwise or on disjoint bits is modelled by addition and modulo 2^64.
- Sums of sizes, the quota counter and clock values are unbounded integers; only the codec's indices, the varints and the backoff wrap around.
- `addTask` and the `delete` after it are one step under the accumulator's lock; for an instant the source has the batch in both the map and the queue, which nobody else can observe through the lock.
- Byte strings and encodings are at most 2^63 - 1 bytes long, as Go's slices are, and partition ids are 64-bit.
- `math.Pow(2, k)` is exact; converting a power beyond int64 is left to the platform in Go and gives any int64 here, the same one for every such power (it matters only for a base of 1 ms, see `Batch.DelaysOfOne`).
- User changes to a log after it was accepted, and what user callbacks do.
- `time.Sleep`, fairness, the 5-second wait, the timeout error of `Close`, and real-time latency.
- Accumulator.LogAccumulator.AddLogToProducerBatch: while a call waits only releases by workers change the counter, and the unlimited mode is followed for a given number of tries; other senders in between are covered by the step system, where a refused call may try again at any time.
- Accumulator.LogAccumulator.TryReserveAndAppend: undisturbed; its interleaving with releases is in the step system. The branch for an unsupported log type cannot be written with typed calls.
- Close.NilWhenIdle: for the case that nothing happens between the two tests; what may happen between them is in `Close.NilMeansSettled` and `Close.NilAfterStableZero`.
- Worker.SendWorker.SendToServer: an undisturbed pass that reads the shutdown flag as a constant; its interleaving with the other parties is in the step system.
- Worker.SeesIdle: between the two readings only the dispatcher starts tasks; what else may run is in the step system.
- The type switch between one log and a list: a single log is a list of one.
- The `batchID` counter and the text of package ids: a package id is an input.
- Go's `container/heap` is written out from its documented sift-up and sift-down, since its source is not part of the repository.
- PartitionWorker.PartitionConsumerWorker.ConsumeWithContext: a shutdown from outside runs as a whole between two operations of the loop, at any of six moments of a round; finer interleavings are covered by `Offsets.CommitsNeverGoBack`, which is about every order of the tracker's operations. The flag that keeps a second goroutine out is not modelled.
- At-least-once delivery of the consumer: not promised by the code; `PartitionLoop.EarlyStopExactly` says when a shutdown between fetch and processing commits the offset of data not yet processed.
- Heartbeat.HeldWithinHeart: for responses that list no topic and no id twice; exactly what a response may repeat is in `Heartbeat.RepeatedTopicsExactly` and `Heartbeat.RepeatedIdsExactly`.
- HeartbeatWorkers.HeartbeatWorker.SendHeartbeat: the response is a freshly decoded list, so it shares no array with the lists.
- The grace period of `needStop` and the shutdown of the whole consumer worker: easy next to the reconciliation.
