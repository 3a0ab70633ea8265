# Cantal: verified model

Cantal is a monitoring agent: it scans a host, keeps a compressed history of every metric, gossips
with its peers and answers queries over web sockets. This project models its stateful core in
Dafny and proves what that core keeps over every run. Each module names the source file it follows;
code that updates fields in place is a class here, with loops where the source has loops, proved
against functions on plain values, and the theorems are about those functions.

| part | modules |
|---|---|
| compressed history, its store and its codec | `DeltaCodec`, `ByteMasks`, `DeltaBuffers`, `Histories`, `BacklogModel`, `Backlogs`, `BacklogRuns`, `RunLogs`, `BacklogTruth`, `SampleRuns` |
| saving histories, metric keys | `Cbor`, `Persistence`, `Keys` |
| queries, rates, sums | `Queries`, `RateTruth`, `Sums`, `SliceSums` |
| gossip | `GossipPeers`, `GossipNode`, `GossipHosts`, `GossipProto`, `GossipNetwork`, `GossipRounds` |
| socket classification | `SocketTables`, `Sockets`, `SocketRules` |
| subscriptions | `Subscriptions` |
| values files | `MmapLayout`, `MmapReader` |

## Main results

- The delta buffer inverts: any run of pushes is read back exactly, newest first, and a push is
  exact if and only if the difference fits the type. Truncation keeps a prefix, never splits a
  difference and leaves a buffer on which pushes still decode.
- At every moment of a run of scans and truncations the compressed store shows exactly the plain list of
  optional samples of each key, if and only if no push loses a signed value it covers; and the run
  fixes every sample shown: which scan gave it, and why a missing one is missing.
- On every reachable store no query or rate can subscript out of bounds, subtract below zero or
  fail its assertion. The derivative of a slice stays within its type if and only if no stored step in
  it wraps behind a sample that shows; the sum of slices panics if and only if one key is too young.
- The time a difference, a rate or a derivative reports is that between the scans it compares if and
  only if the scan at the older sample's age names the key; after a gap in a counter it is too short.
- While no timer runs, a network of nodes comes to rest under any loss and reordering, and no node
  forgets a peer or goes back to an older report.
- The one-pass socket classification files every socket once; it follows a rule free of order if and
  only if the lines are coherent; all report totals agree.
- Grouping series and totalling the groups is summing directly, in any order; each sample of a sum is
  the plain total of those present, in its type, and missing exactly when all are.
- After any packet a node knows of every other host the newest report of the one it held, the
  sender's own word and the hearsay.
- A state entered in a values file is read back as its time and its text up to the first NUL, and every
  other value as before.

## Where the code surprises

The model follows the code. These points differ from what a reader may expect.

- Integers: the buffer puts the gap behind the difference, so after a gap the old value comes right
  after the new one and the empty ages follow. `IntegerPushKeepsAges` says exactly when a push moves
  samples. The float buffer puts the gap first and never moves one.
- So the timestamp at the index of a counter's older sample can belong to a later scan than the one
  that gave it. The rate sent to Graphite, difference queries and the derivative are then computed
  over too short a time: `RateCanBeTooHigh` shows a rate three times too high, `RateIsRightIff` and
  its companions say exactly when the time is right.
- Signed differences beyond 2^63 - 1 wrap in a release build (a debug build panics) and keep five
  bits; `PushIsExactIffRepresentable` and `RunIsExact` give the conditions, `SignedValueCanBeLost` is a
  run of two scans that loses one. Counters always fit.
- After such a loss the derivative can subtract out of its type: `DeriveCanPanic` is a run of five
  scans, `DeriveIsSafe` says exactly when. A release build wraps there and never gets a negative rate.
- The skip loop goes through `i64`: it ends, with the right runs, if and only if the difference of
  ages is at most 2^63, and runs for ever above that (`SkipLoopEndsIff`). Ages count scans, so no run of
  the store gets there (`AgesCountScans`).
- `type_len` is valid for every `u64` but not the shortest head from 0x10000 to 0xFFFFF
  (`TypeLenIsShortest`).
- The Graphite rate is 0 divided by 0 for a counter seen once and not at the current age
  (`RateIsSafe` says when, `RateCanDivideByZero` shows one).
- A float history shows a NaN while it is the newest value, and as missing afterwards (`FloatSampleIs`).
- A value whose size is a multiple of eight but no power of two gets its size less eight more padding
  than would align it (`PaddingWastes`).
- Hosts added by hand sit in a max-heap, so the LATEST deadline decides: one host that is not due
  holds up all others (`OneHoldsUpAll`, `DueHostWaits`).
- Summing series panics when one of them is shorter than its timestamps. For slices of the store that
  is when a key is younger than both the slice and the timestamps (`SlicesPanicIff`); two scans, the
  second with a new key, are enough (`YoungKeyPanics`).
- A listening socket can be filed as active (`ListenerFiled`, `ListenerCanBeActive`).
- Stopping a subscription clears one kind only: `StopSilencesOneKind` says when the request is silent
  afterwards, `StopCanLeaveARequest` is a run after which it is still answered.

## Model

| member | source | states |
|---|---|---|
| DeltaCodec.ReplayDecodes | cantal_history/src/deltabuf.rs:140-179 | after any sequence of pushes with gaps of at least one age and representable differences the decoder yields, newest first, each exact signed difference followed by one skip for each age passed over; the bytes are well formed |
| DeltaCodec.PushDecodes | cantal_history/src/deltabuf.rs:140-179 | one push on any well-formed bytes: the decoder yields the stored difference, then gap - 1 skips, then what it yielded before; covers varint splitting, 31-long runs and merged zero runs |
| DeltaCodec.PushIsExactIffRepresentable | cantal_history/src/deltabuf.rs:153-178 | the exact difference is read back if and only if its magnitude fits the type it is computed in |
| DeltaCodec.StoredIsExactIffRepresentable | cantal_history/src/deltabuf.rs:153-157 | the same for the stored difference alone; a wrapped magnitude keeps its low five bits |
| DeltaCodec.ReadGroups | cantal_history/src/deltabuf.rs:172-178 | the continuation bytes of a magnitude leave exactly that magnitude pending in the reader |
| DeltaCodec.SkipChunkIsMinimum | cantal_history/src/deltabuf.rs:148-152 | one run: the conversion through `i64` and `u8` gives the intended length if and only if what is left is below 2^63 or ends in the byte 31 |
| DeltaCodec.SkipLoopEndsIff | cantal_history/src/deltabuf.rs:147-152 | the whole loop ends if and only if it starts with less than 2^63 ages to skip, and then has put exactly the intended runs in front |
| DeltaCodec.PushSize | cantal_history/src/deltabuf.rs:147-178 | one push never shrinks the buffer and adds at most one byte for 31 skipped ages plus ten |
| DeltaCodec.EqualPushesSize | cantal_history/src/deltabuf.rs:158-168 | n equal samples one age apart take exactly n / 31 bytes, rounded up |
| DeltaCodec.FormatExamples | cantal_history/src/deltabuf.rs:140-179 | the bytes of small pushes: a rise after skipped ages, a fall, a zero run begun, continued and full, and a skip run beyond 31 ages |
| DeltaCodec.CutDecodes | cantal_history/src/deltabuf.rs:186-236 | cutting at a place the truncation may choose leaves well-formed bytes that decode to a prefix of the old differences |
| DeltaCodec.TotalIsLength | cantal_history/src/deltabuf.rs:211-236 | the truncation's running count of a buffer is the number of differences the reader yields |
| ByteMasks.MasksRead | cantal_history/src/deltabuf.rs:11-23 | every mask test and extraction on a byte equals the arithmetic reading used by the codec |
| ByteMasks.MasksWrite | cantal_history/src/deltabuf.rs:150-176 | every byte put together with `or` equals the arithmetic one |
| ByteMasks.MasksLower | cantal_history/src/deltabuf.rs:198-199 | lowering the count in a run byte is subtracting from the byte |
| ByteMasks.MasksSkip | cantal_history/src/deltabuf.rs:148-151 | the byte of a skip run put together with `or` equals the arithmetic one, also for a length that does not fit its five bits |
| DeltaBuffers.DeltaBuf.Push | cantal_history/src/deltabuf.rs:140-179 | the bytes become those of the push, the contents gain the difference and its skips in front, the buffer stays well formed; equal ages change nothing |
| DeltaBuffers.DeltaBuf.Truncate | cantal_history/src/deltabuf.rs:186-210 | keeps exactly the first min(limit, total) differences, returns that number, grows nothing, stays well formed; both debug assertions hold on the way |
| DeltaBuffers.DeltaBuf.TruncateBytes | cantal_history/src/deltabuf.rs:211-236 | finds the cut after which exactly `limit` differences remain, never inside a difference, or reports the total when it is smaller |
| DeltaBuffers.DeltaIter.RefillQueue | cantal_history/src/deltabuf.rs:67-111 | moves the next item into the queue without losing a difference; the queue stays empty exactly at the end of the bytes |
| DeltaBuffers.DeltaIter.Next | cantal_history/src/deltabuf.rs:117-133 | yields the first remaining difference and leaves the others; `None` exactly when none remain |
| DeltaBuffers.Collect | cantal_history/src/deltabuf.rs:180-185 | the iterator run to its end gives the whole contents |
| Backlogs.DeltaInner.Push | cantal_history/src/backlog.rs:177-188 | an age before the stored one is refused and changes nothing; otherwise tip, age and differences are those of the model's push |
| Backlogs.DeltaInner.Truncate | cantal_history/src/backlog.rs:189-195 | false exactly when the newest value is at or before the limit; else the differences are cut to the ages after it (with 260-262) |
| Backlogs.DeltaHistory.Next | cantal_history/src/backlog.rs:207-235 | the iterator yields the history from the current age: the gap, the newest value, then the walk back through the differences |
| Backlogs.FloatInner.Push | cantal_history/src/backlog.rs:293-301 | the old value and a NaN for each age between go in front of the buffer |
| Backlogs.FloatInner.Truncate | cantal_history/src/backlog.rs:302-307 | keeps the floats of the ages after the limit |
| Backlogs.FloatHistory.Next | cantal_history/src/backlog.rs:237-254 | the iterator yields the float history, NaN as missing |
| Backlogs.Value.Push | cantal_history/src/backlog.rs:101-121 | accepted exactly for the kind already stored, then the model's push; else nothing changes |
| Backlogs.Value.Truncate | cantal_history/src/backlog.rs:122-129 | dispatches to the buffer of the kind with the same outcome |
| Backlogs.Value.Samples | cantal_history/src/backlog.rs:268-291 | collecting the iterator of any kind gives the whole history at an age |
| Backlogs.Backlog.Push | cantal_history/src/backlog.rs:336-353 | one scan: timestamp in front, age plus one, every item put under its key; the values of other keys are untouched |
| Backlogs.Backlog.TruncateByTime | cantal_history/src/backlog.rs:354-360 | drops from the first timestamp older than the limit on, or nothing |
| Backlogs.Backlog.TruncateByNum | cantal_history/src/backlog.rs:361-374 | trims every value at the target age, drops those with nothing left, cuts the timestamps |
| Histories.IntegerPushIsCons | cantal_history/src/backlog.rs:177-235 | seen through the history a pushed integer gives new value, predecessor (missing if larger), the gap's missing samples, then the old rest, exactly when the difference fits the type or a reset puts it in front of nothing that shows |
| Histories.FloatPushIsCons | cantal_history/src/backlog.rs:237-301 | seen through the history a pushed float goes in front; a NaN it covers reads as missing |
| Histories.NaNIsAboveInfinity | cantal_history/src/backlog.rs:246-248 | a 64-bit pattern reads as missing exactly when, its sign taken off, it lies above that of infinity |
| Histories.HistoryAges | cantal_history/src/backlog.rs:268-291 | a scan without the key adds one leading missing sample |
| Histories.TrimIsTake | cantal_history/src/backlog.rs:189-195 | trimming to n ages keeps exactly the first n samples and drops the key exactly when none of them is present |
| BacklogRuns.PushSimulates | cantal_history/src/backlog.rs:336-353 | a scan in any order of items does to every key's plain list what the plain store does, exactly when every push of it is kept |
| BacklogRuns.PushStaysGood | cantal_history/src/backlog.rs:336-353 | a scan whose pushes are kept leaves what decodes within the type to pushed numbers |
| BacklogRuns.TruncateSimulates | cantal_history/src/backlog.rs:361-374 | truncation keeps the first entries of every plain list and drops exactly the keys with no value there; sizes stay within the timestamps |
| BacklogRuns.RunStaysSized | cantal_history/src/backlog.rs:336-374 | over every run, whatever is pushed, timestamps strictly fall, and gap + newest value + buffer never outnumber the timestamps nor those the age |
| BacklogRuns.RunSimulates | cantal_history/src/backlog.rs:336-374 | over every run whose pushes are kept the compressed store shows the plain lists, and what it shows it decoded within the type and was pushed for the key |
| BacklogRuns.RunIsExact | cantal_history/src/backlog.rs:336-374 | over every run the store shows the plain lists at every moment exactly when every push is kept |
| SampleRuns.SignedValueCanBeLost | cantal_history/src/deltabuf.rs:153-178 | a signed metric at -1 and then at 2^63 - 1: the store shows the maximum twice |
| BacklogRuns.KeySimulates | cantal_history/src/backlog.rs:336-374 | over every run a key shows its plain list when its own pushes are kept from the one that made its series on, whatever happened before and to other keys |
| BacklogRuns.KeyStaysSound | cantal_history/src/backlog.rs:336-374 | and decodes within the type to numbers pushed for it |
| BacklogRuns.RunKeepsHead | cantal_history/src/backlog.rs:336-374 | over every run, whatever is lost, store and plain store have the same keys, of the same kinds, last pushed at the same ages |
| BacklogRuns.CountersFitRun | cantal_history/src/deltabuf.rs:153-157 | a key stored as a counter or a float always has its pushes kept, also when it held a signed series before |
| BacklogRuns.CountersFit | cantal_history/src/deltabuf.rs:153-157 | a push is not kept exactly for a signed rise beyond 2^63 - 1, or a fall beyond it in front of a value that shows; never for counters |
| BacklogRuns.IntegerPushKeepsAges | cantal_history/src/deltabuf.rs:148-178 | an integer push moves samples exactly when it ends a gap after a value; else all stay at their age, and a reset only hides the one before |
| BacklogRuns.FloatPushKeepsAges | cantal_history/src/backlog.rs:294-301 | a float push never moves a sample and hides none but the newest, exactly when its pattern lies above that of infinity |
| BacklogRuns.ConsecutiveHistory | cantal_history/src/backlog.rs:207-278 | for consecutive ages the history is after every push the reversed list with `None` exactly where a value exceeds its successor, if and only if every step fits the type or is a reset after nothing but resets |
| BacklogTruth.RunIsTrue | cantal_history/src/backlog.rs:336-374 | over every run timestamp i is that of the scan i ages back; float sample i is the bits that scan held for the key, exactly when they are no NaN or are the newest; an integer row shows the newest number where it was pushed, every covered number right before the push that covered it unless larger, and nothing else |
| BacklogTruth.AgesCountScans | cantal_history/src/backlog.rs:336-353 | the age after a run is at most the number of its steps, so age differences stay below the bound of the skip loop |
| BacklogTruth.RunStore | cantal_history/src/backlog.rs:313-375 | the store object driven through any run is the modelled store, and shows the plain lists when every push is kept |
| Persistence.RoundTrip | cantal_history/src/backlog.rs:423-494 | decoding an encoded history, whatever follows it, restores tip, age and the same buffer in the same order |
| Persistence.StoredExamples | cantal_history/src/backlog.rs:437-494 | the bytes of three small histories: array head, tip, age and buffer in that order, numbers big-endian |
| Persistence.WriteBytes | cantal_history/src/backlog.rs:406-450 | head and bytes, one at a time, make the byte string |
| Persistence.WriteFloats | cantal_history/src/backlog.rs:480-493 | head and eight big-endian bytes for each float make the byte string |
| Persistence.DecodeFloats | cantal_history/src/backlog.rs:464-476 | refused exactly when the length is no multiple of eight, else every float in order |
| Persistence.EncodeDeltaInner | cantal_history/src/backlog.rs:437-452 | writes the encoding of the integer history |
| Persistence.EncodeFloatInner | cantal_history/src/backlog.rs:480-494 | writes the encoding of the float history |
| Persistence.SaveAndLoad | cantal_history/src/backlog.rs:423-452 | the loaded integer history equals the saved one and what follows stays unread |
| Persistence.SaveAndLoadFloats | cantal_history/src/backlog.rs:455-494 | the same for float histories |
| Cbor.TypeLenReads | cantal_history/src/backlog.rs:387-403 | a standard head reader inverts `type_len` for every `u64` |
| Cbor.TypeLenIsShortest | cantal_history/src/backlog.rs:387-403 | it is the shortest head if and only if the argument is not from 0x10000 to 0xFFFFF |
| Cbor.StandardExamples | cantal_history/src/backlog.rs:387-403 | heads that appendix A of RFC 8949 gives as examples |
| Keys.Merge.Next | cantal_history/src/key.rs:21-33 | yields the next pair of the merge; `None` exactly at its end |
| Keys.MergedSorted | cantal_history/src/key.rs:21-33 | sorted inputs give a strictly sorted merge |
| Keys.MergedFind | cantal_history/src/key.rs:21-33 | every name is found as in the second input, or else as in the first |
| Keys.MergedCount | cantal_history/src/key.rs:77-78 | the number announced in advance is the number of pairs yielded |
| Keys.LessIsBytewise | cantal_history/src/key.rs:74-78 | the order of names is that of their bytes: the first difference decides, a name comes before its continuations |
| Keys.FromIter | cantal_history/src/key.rs:52-66 | nothing for an announced zero, else a map head with the announced number and every pair in order |
| Keys.KeyExample | cantal_history/src/key.rs:228-238 | a key of three short pairs byte by byte: a map head for three, then each name and value behind its text head |
| Keys.FromJson | cantal_history/src/key.rs:70-102 | a key exactly for an object of strings, holding the merge with the object's pairs winning |
| Keys.GetWith | cantal_history/src/key.rs:122-138 | on the key of a list of pairs it is lookup in that list |
| Keys.FindIsFirst | cantal_history/src/key.rs:122-138 | that lookup gives the value beside the first pair of the name |
| Keys.BuiltKeyLooksUp | cantal_history/src/key.rs:70-138 | a key built from JSON and extra pairs answers every name: the object's value, else the extra one |
| Queries.TipQueryIsSafe | cantal_query/src/query.rs:67-82 | on every reachable store the subscript is in bounds and the newest value comes as a counter, an integer or a float as it is stored, with its own timestamp |
| Queries.DifferenceIsSafe | cantal_query/src/query.rs:83-116 | never panics on a reachable store; answers exactly when a sample is present in the window: the newest value less the oldest one present there, a counter not below zero, a signed difference held to the ends of its type, floats in that order, with the timestamps at their two indices |
| Queries.RateIsSafe | src/carbon/util.rs:26-37 | never panics on a reachable store; the difference of the newest value and the oldest sample present, held to the range of `u64`, and the time between the timestamps at their indices, zero exactly when only the newest value is in the window |
| RateTruth.SampleComesFrom | cantal_history/src/deltabuf.rs:148-178 | over every run a present sample is the number pushed at the newest age not after its own whose scan names the key: that of its own scan exactly when that scan names the key, always so for floats, else of a strictly older one |
| RateTruth.MissingIs | cantal_history/src/backlog.rs:207-235 | an integer sample is missing exactly at a reset, or where nothing was pushed right after and it is not the newest |
| RateTruth.FloatSampleIs | cantal_history/src/backlog.rs:237-254 | over every run a float sample is the bits pushed at its age, missing exactly for a NaN behind the newest value or a scan without the key |
| RateTruth.DifferenceIsRightIff | cantal_query/src/query.rs:83-116 | over every run, for signed keys when their pushes are kept, the answer subtracts the number pushed at the older age from that at the newest, in its kind; its interval is that between those two scans exactly when the scan at the age of the older sample names the key, always so for floats, else its start is too late by the scans passed over |
| RateTruth.RateIsRightIff | src/carbon/util.rs:26-37 | the same for the rate: the elapsed time is right exactly then, else too short; for counters over every run |
| RateTruth.SlopeIsRightIff | cantal_query/src/functions/derive.rs:33-42 | the same for one step of the derivative |
| RateTruth.RateCanBeTooHigh | src/carbon/util.rs:11-37 | a run after which a counter that took 3000 ms to rise by 30 reports 30 in 1000 ms |
| RateTruth.RateCanDivideByZero | src/carbon/util.rs:11-37 | a run after which the rate is 0 over 0 |
| Queries.TakeByTime | cantal_query/src/query.rs:149-156 | the number of timestamps up to the first at least the given time older than the newest; no subtraction below zero |
| Queries.ExtractMulti | cantal_query/src/query.rs:122-170 | answers exactly for the two slices (by time only with timestamps): the newest samples and the newest timestamps, without their durations, as many as asked for or all |
| Queries.SliceFits | cantal_query/src/query.rs:132-168 | extracted values never outnumber their timestamps |
| Queries.SliceIsFull | cantal_query/src/query.rs:132-168 | a slice has a value for every timestamp exactly when the key's history reaches as far as the slice or the timestamps |
| Queries.HistoryNeverRises | cantal_history/src/backlog.rs:216-227 | adjacent present samples of an integer history never grow into the past, nor differ by more than the type holds, if and only if no stored step wraps behind a sample that shows |
| Queries.HistoryInRange | cantal_history/src/backlog.rs:207-235 | every sample of a counter or integer history of a reachable store lies in its type |
| Queries.DeriveIsSafe | cantal_query/src/functions/derive.rs:29-44 | on any slice of a counter or integer history of a reachable store every quotient exists exactly between present samples and is not negative, if and only if none of the steps in the slice wraps behind a sample that shows; each quotient that does exist is so, and a difference that leaves the type wraps to one that is not negative |
| Queries.SoundStepsFit | cantal_history/src/backlog.rs:216-227 | in a history whose pushes were kept no step wraps |
| RateTruth.DeriveCanPanic | cantal_query/src/functions/derive.rs:33-42 | a run of the signed samples -7, 3, 5, -2, 2^63 - 1 after which the derivative subtracts the maximum less 6 from the minimum plus 3 |
| Queries.DeriveTelescopes | cantal_query/src/functions/derive.rs:33-42 | over a stretch without gaps rate times time adds up to first minus last |
| Sums.VecSum | cantal_query/src/functions/sum.rs:113-125 | pointwise optional sum into the target: the other sample beside a missing one, else the sum, in its type and right modulo 2^64; panics exactly when the source is shorter |
| Sums.ColumnTotals | cantal_query/src/functions/sum.rs:94-125 | the fold over any lists leaves at each index nothing when all miss it, else the plain total of the samples present, in its type and right modulo 2^64 |
| Sums.MergeFinds | cantal_history/src/merge.rs:26-61 | the fold finds one kind and all lists in order exactly when all chunks are of it, states exactly when all are states, a conflict otherwise |
| Sums.SumSeries | cantal_query/src/functions/sum.rs:81-111 | the column sums, or the first reason that applies: timestamps, states, mixture; panics exactly when timestamps agree, all chunks are of one numeric kind and one is too short |
| Sums.SumDecides | cantal_query/src/functions/sum.rs:81-111 | refused for timestamps exactly when some differ from the first; else for states exactly when all are, for a mixture exactly when there are neither only states nor one kind; a panic exactly for one kind with a list too short; otherwise it adds up the lists |
| Sums.SumTotals | cantal_query/src/functions/sum.rs:81-111 | a sum of series of one kind has their timestamps and at each of them that total |
| SliceSums.SlicesPanicIff | cantal_query/src/query.rs:132-168 | on every reachable store the sum of the slices of several keys panics exactly when all are of one kind and the history of one is shorter than the slice and than the timestamps |
| SliceSums.SumSlices | cantal_query/src/query.rs:36-48 | the query and the sum one after the other, with that outcome; for counters and integers the answer shows at each age the total of the samples the keys show there |
| SliceSums.SlicesAddUp | cantal_query/src/query.rs:122-170 | the sum of counter or integer slices has at each age the plain total of what the keys show there, in its type and right modulo 2^64, and nothing exactly when none shows a sample |
| SliceSums.YoungKeyPanics | cantal_query/src/functions/sum.rs:113-125 | two scans, the second naming a new key, whose slices make the sum panic |
| Sums.SumIsOrderFree | cantal_query/src/functions/sum.rs:81-111 | a sum, or the reason for none, is the same for any order of the series |
| Sums.SumSeriesBy | cantal_query/src/functions/sum.rs:58-78 | every group that occurs is summed once and nothing else; an error or a panic is that of some group |
| Sums.GroupIsOrderFree | cantal_query/src/functions/sum.rs:58-78 | which groups there are and what each gives does not depend on the order of the series |
| Sums.Sum | cantal_query/src/functions/sum.rs:9-32 | nothing, the lone series, or their sum, error or panic |
| Sums.SumBy | cantal_query/src/functions/sum.rs:34-56 | group rows, then their total when asked for and there are several; a refusal or a panic is justified by a group or by the total |
| Sums.FullLengthSumsBy | cantal_query/src/functions/sum.rs:34-125 | series as long as their timestamps never make it panic |
| Sums.UniformGroup | cantal_query/src/functions/sum.rs:69-76 | each group's row is the sum of its members, also for one member |
| Sums.TotalIsDirectSum | cantal_query/src/functions/sum.rs:34-111 | summing the group sums is summing every series that carries the field |
| Sums.SumByMeans | cantal_query/src/functions/sum.rs:34-111 | the whole answer for series of one kind with equal timestamps: each group row has the group as its key and at each timestamp the total of its members, the total row that of every series that carries the field |
| GossipPeers.ReportsCommute | src/gossip/peer.rs:96-110 | two reports heard of with different times end the same in either order |
| GossipNode.FriendIsNoOlder | src/gossip/proto.rs:425-451 | hearsay adds addresses; its report and its round trip are taken exactly when newer than the one held or the first; a name or address only where there was none; the address then, and only then, is probed; what the host said itself and the counters stay |
| GossipNode.SenderIsBelieved | src/gossip/proto.rs:266-289 | what a host says of itself replaces what was known, but for a report older than the one held; the matching counter goes up by one and the other stays; the round trip is taken from a Pong exactly when its ping time is neither after the receipt nor after the peer's time |
| GossipNode.PeerIsPassedOn | src/gossip/info.rs:38-46 | a peer named to a node that did not know it arrives with all its addresses, names and its report |
| GossipNode.BefriendHears | src/gossip/proto.rs:412-457 | after a friend list a node knows exactly those it knew and those named, and of each other host the newest report held or heard, the earlier one of two with the same time |
| GossipNode.BefriendProbes | src/gossip/proto.rs:436-456 | every address is kept, every host reached for the first time is sent a ping, and nothing else is sent |
| GossipNode.ConsumedHears | src/gossip/proto.rs:249-376 | after a packet a node knows of every other host the newest report of the one held, the sender's own and those heard |
| GossipNode.ConsumedAnswers | src/gossip/proto.rs:289-335 | a Ping is answered by one Pong, sent last, with the time it carried; nothing else is |
| GossipNode.ConsumedLosesNothing | src/gossip/proto.rs:249-376 | no packet makes a node forget a peer, lose its address or go back to an older report |
| GossipProto.Proto.ConsumeGossip | src/gossip/proto.rs:249-376 | foreign clusters and the node itself are ignored; else the peers, the sender's status and everything sent are as modelled, with the clock read anew for every new peer and probe; subscribers are told once, and the number of peers is published when the sender is new |
| GossipProto.Proto.UpdateSender | src/gossip/proto.rs:266-289 | the sender's record after a Ping or a Pong (with 340-368) |
| GossipProto.Proto.ApplyFriends | src/gossip/proto.rs:412-457 | the friends in order, a discovery ping for each newly reached one, none for the node itself |
| GossipProto.Proto.ApplyFriend | src/gossip/proto.rs:414-452 | one friend's record and the address to probe |
| GossipProto.Proto.GetFriends | src/gossip/info.rs:27-47 | different peers, none at the excluded address or silent too long, as they are held; fewer than configured only when all such peers are named |
| GossipProto.Proto.AddHost | src/gossip/proto.rs:190-222 | a ping unless the host answered before; a queue entry only for a new address |
| GossipProto.Proto.InternalMessages | src/gossip/proto.rs:184-227 | a batch of commands handled in order |
| GossipHosts.CommandsKnown | src/gossip/proto.rs:190-222 | a batch makes every address known and changes nothing known before |
| GossipHosts.CommandsPing | src/gossip/proto.rs:192-207 | it sends one ping for each time an address that had not answered is named, in order |
| GossipHosts.CommandsQueue | src/gossip/proto.rs:208-222 | it queues each new address for a first attempt, due one sleep after it was first named, and removes nothing |
| GossipProto.Proto.RetryNewHosts | src/gossip/proto.rs:517-539 | ends under any clock, within the budget of retries; each turn takes a host with the latest deadline, that one due; stops only when the queue is empty or the latest deadline is to come |
| GossipProto.Proto.RetryOne | src/gossip/proto.rs:524-537 | one turn: dropped when it answered or is out of attempts, else pinged and queued again; the budget falls |
| GossipHosts.OneHoldsUpAll | src/gossip/proto.rs:519-523 | the loop turns at all if and only if something is queued and every queued deadline has passed |
| GossipHosts.DueHostWaits | src/gossip/proto.rs:517-539 | of two hosts the one that is due gets no retry while the other is not due |
| GossipHosts.TwoHostsReached | src/gossip/proto.rs:190-222 | two commands lead to that queue |
| GossipHosts.OnePingAnInstant | src/gossip/proto.rs:519-537 | while the clock stands still at most one ping goes out |
| GossipHosts.RetriesAreSpaced | src/gossip/proto.rs:531-537 | a host that was pinged is taken again only with one attempt more and once the clock has passed that ping by its sleep |
| GossipHosts.EventKeepsSound | src/gossip/proto.rs:184-227 | commands, retries and answers keep the queue's bookkeeping and never lower a status |
| GossipHosts.RunsBoundRetries | src/gossip/proto.rs:184-227 | over every run an address is queued at most once, retried at most as often as configured, and its status only moves unknown, pinged, answering (with 517-539) |
| GossipHosts.RunsPursue | src/gossip/proto.rs:517-539 | over every run no host is given up early: it waits for a retry, has answered, or has had as many retries as configured |
| GossipProto.Proto.PingHosts | src/gossip/proto.rs:458-499 | a refill lists every known peer once; the round considers the last ids of the queue in turn and leaves the rest |
| GossipProto.Proto.ConsiderOne | src/gossip/proto.rs:472-497 | a peer is left alone while its report is within the shorter interval and its last probe within the longer; else its primary address while an answer may come or it spoke for itself lately, or any other one, is probed |
| GossipProto.RandomPingAddr | src/gossip/peer.rs:205-216 | some known address, the last probed one only when there is no other |
| GossipProto.Proto.RemoveFailedNodes | src/gossip/proto.rs:540-552 | exactly the peers go whose report, or first mention when there is none, is longer ago than configured |
| GossipNetwork.BefriendPays | src/gossip/proto.rs:412-457 | every discovery ping uses up an id without address |
| GossipNetwork.ConsumePays | src/gossip/proto.rs:249-376 | a packet makes a node send no more than it pays for, but for the one Pong a Ping is owed |
| GossipNetwork.NextPays | src/gossip/proto.rs:249-376 | every loss or delivery strictly lowers 3 times the unreached pairs plus 2 times the Pings plus the Pongs in flight |
| GossipNetwork.RunsAreFinite | src/gossip/proto.rs:249-376 | a run has no more steps than the measure it starts with |
| GossipNetwork.RestIsQuiet | src/gossip/proto.rs:249-376 | a network can take a step exactly when a packet is in flight |
| GossipNetwork.RunsNeverForget | src/gossip/proto.rs:249-376 | along every run what each node knows of the others only gets newer |
| GossipRounds.DrainedExactly | src/gossip/proto.rs:458-499 | a queue of n ids is empty after exactly n / k calls, rounded up, and no sooner, each id considered once |
| GossipRounds.StaysKnownIsConsidered | src/gossip/proto.rs:458-499 | a peer that stays known is considered within the calls that empty the present queue and the next one |
| GossipRounds.DriveRounds | src/gossip/proto.rs:458-499 | the node driven through any number of rounds, with packets and sweeps in between, keeps exactly that queue and considers exactly those ids, each step as modelled |
| GossipRounds.RoundsConsider | src/gossip/proto.rs:458-499 | in those rounds a peer known at the start of each is considered within the bound |
| SocketTables.AddPassiveHolds | src/scan/connections.rs:125-136 | a passive cell stays right for its sockets: listeners apart, counters of the others, details up to the limit |
| SocketTables.AddActiveHolds | src/scan/connections.rs:107-114 | the same for an active cell |
| SocketTables.FilePassiveHolds | src/scan/connections.rs:219-231 | filing one socket keeps every cell of the table right, and makes no cell without sockets |
| SocketTables.FileActiveHolds | src/scan/connections.rs:222-238 | the same for the active table |
| Sockets.StepMirrors | src/scan/connections.rs:217-246 | both unknown maps keep the same sockets, each under its own address, apart from the decided addresses |
| Sockets.StepConserves | src/scan/connections.rs:217-246 | every socket read is filed once or still waiting |
| Sockets.PassKeeps | src/scan/connections.rs:209-247 | both hold after any list of sockets |
| Sockets.Read | src/scan/connections.rs:190-269 | the report's counters and tables are those of the sockets, every one of which ends in exactly one of passive and active |
| SocketRules.ClassifiedByRule | src/scan/connections.rs:217-261 | the report of coherent lines files a socket as passive exactly when it listens or shares its local address with another line |
| SocketRules.RuleIffCoherent | src/scan/connections.rs:217-261 | every order of the lines follows that rule if and only if no line that does not listen has the remote address of such a socket at another local address |
| SocketRules.ListenerFiled | src/scan/connections.rs:219-246 | after any lines a listener is filed as active exactly when none was filed as passive at its local address and one with its remote address was filed as active, or is waiting while none is waiting at its local address |
| SocketRules.ListenerCanBeActive | src/scan/connections.rs:219-246 | two sockets for which it is, in one order and not in the other |
| SocketRules.ReportAddsUp | src/scan/connections.rs:207-261 | for every state and both queues the global figure is the sum over users and the sum over passive cells, listeners and active cells |
| Subscriptions.StepKeepsIndex | src/incoming/mod.rs:133-199 | every lock section keeps the hub's index in agreement with the connections' own tables |
| Subscriptions.RunsKeepIndex | src/incoming/mod.rs:90-199 | so does every interleaving of the calls of all connections; no empty set is kept |
| Subscriptions.TriggerReachesAll | src/incoming/mod.rs:159-181 | between calls a trigger answers exactly the requests of live connections |
| Subscriptions.TriggerInterleaved | src/incoming/mod.rs:159-181 | with other calls in between, a request of a connection at rest that is there at the start and at the connection's turn is answered exactly once; a connection gone at the start gets nothing, and only requests there at the turn are answered |
| Subscriptions.StartedIsAnswered | src/incoming/mod.rs:133-144 | subscribing makes that request answered and changes no other answer |
| Subscriptions.DroppedIsSilent | src/incoming/mod.rs:190-199 | a dropped connection is answered no more; the others are as before |
| Subscriptions.StopSilencesOneKind | src/incoming/mod.rs:145-158 | after both lock sections the request is answered exactly for the other kinds it was known under, so it is silent if and only if there were none; no other answer changes (with 214-227) |
| Subscriptions.StopCanLeaveARequest | src/incoming/mod.rs:145-158 | a run that starts one id for two kinds and stops it, after which the id is still answered for the second (with 214-227) |
| Subscriptions.Incoming.Connect | src/incoming/mod.rs:101-120 | a new id not in use, with an empty table |
| Subscriptions.Incoming.SubscribeOwn | src/incoming/mod.rs:133-139 | first lock section of subscribing |
| Subscriptions.Incoming.SubscribeHub | src/incoming/mod.rs:140-144 | second lock section of subscribing |
| Subscriptions.Incoming.UnsubscribeOwn | src/incoming/mod.rs:214-227 | removes the id under the kind met first; reports that kind when it was the last request |
| Subscriptions.Incoming.UnsubscribeHub | src/incoming/mod.rs:145-158 | takes the connection out of the kind and drops an empty set |
| Subscriptions.Incoming.DropToken | src/incoming/mod.rs:190-199 | takes the connection out of everything |
| Subscriptions.Incoming.TriggerHub | src/incoming/mod.rs:160-163 | first lock section of a trigger: the connections registered then |
| Subscriptions.Incoming.TriggerSend | src/incoming/mod.rs:165-179 | the section of one connection: a packet for each request it holds then, once each |
| Subscriptions.Incoming.Trigger | src/incoming/mod.rs:159-181 | with no call in between it sends exactly one packet for each registered connection and request |
| MmapLayout.AndTestsPower | py3/cantal.py:51-51 | the bit test holds exactly for powers of two |
| MmapLayout.Start | py3/cantal.py:43-69 | the nested loops give every value its offset, the metadata lines and the file size |
| MmapLayout.RangesDisjoint | py3/cantal.py:63-65 | no two values overlap |
| MmapLayout.RangeInFile | py3/cantal.py:69-100 | every value lies in the file |
| MmapLayout.Aligned | py3/cantal.py:50-62 | power-of-two sizes are aligned to themselves, other multiples of eight to eight |
| MmapLayout.PaddingWastes | py3/cantal.py:50-62 | a power of two gets the least padding that aligns it, another multiple of eight its size less eight more than aligns it to eight when it needs any, other sizes none |
| MmapLayout.PaddingIsSmall | py3/cantal.py:50-69 | the file is values and padding, the padding less than each size taken once |
| MmapReader.ReadMetadata | cantal_values/src/lib.rs:138-205 | one type for each line, or the error of the first line that has one |
| MmapReader.ReadLine | cantal_values/src/lib.rs:142-199 | the first fault of a line in the order they are looked for, else its type; accepted exactly with a length of at most 255 for counters and levels or 65535 otherwise, a known level kind and, but for padding, a JSON text |
| MmapReader.ReadData | cantal_values/src/lib.rs:206-266 | a file is refused when read before or when a readable value lies beyond its end, with the error of the first such value: an I/O error when its eight bytes are cut, an unexpected end when only a text is; else there is one reading for each readable line, in order and at the cursor: its eight bytes, or a time and the text up to its first NUL |
| MmapReader.CursorMeetsOffset | cantal_values/src/lib.rs:223-264 | the reader's cursor reaches every value exactly where the writer put it |
| MmapReader.ReadWhereWritten | cantal_values/src/lib.rs:223-264 | on a file of the writer's size every value has exactly one reading, a state without room for a text none: at the writer's offset, with the constructor of its kind and the eight bytes of its own range, or their time and the text up to its first NUL |
| MmapReader.MetadataFits | cantal_values/src/lib.rs:148-191 | the reader accepts every line of the writer's metadata if and only if no value is larger than 65535 bytes |
| MmapReader.Enter | py3/cantal.py:215-226 | whatever was there before, the region then holds the time and reads as the new text, cut to size and up to its first NUL |
| MmapReader.EnterAndRead | cantal_values/src/lib.rs:206-266 | a state entered in its range of the file is read back as its time and that text, and every other value as before (with py3/cantal.py:215-226) |

## Left out

- 64-bit shifts and masks are written as multiplication, division and remainder; the 8-bit masks are proved equal to that reading.
- Floats in histories are bit patterns with a NaN test, floats in sums and rates are reals: rounding, and the derivative and difference of floats, are not modelled.
- DeltaBuffers.DeltaBuf.Push: age differences above 2^63, for which the skip loop runs for ever, are excluded by a precondition; no run of the store reaches such an age.
- Backlogs.DeltaInner.Push: the same bound on the age.
- Backlogs.Value.Push: the same bound on the age.
- Backlogs.Backlog.Push: the store's age stays below 2^63; the timestamp assertion is a precondition.
- Buffers and keys not produced by the program itself; of CBOR only integers, doubles, strings, arrays and maps the program writes.
- Peers, counters and table cells are values put back after an update, also where the program updates them in place behind `Arc` or a map entry; aliasing of those is not captured.
- GossipProto.Proto.ConsumeGossip: the size of a packet and send errors, which are only logged, and the metric of stale peers.
- Shuffling, sampling and hash order are arbitrary; the network model draws friend lists as `get_friends` may.
- Storing peers, the stale test, waking times and sockets of the gossip node.
- Subscriptions.Incoming.Trigger: payloads are the stored queries.
- Sums of tips, charts and `Expect`: `sum_tip` is simple and `MultiTip` in `sum_by` is not implemented in the program.
- Overflow of `usize` in socket counters; reading of /proc, addresses and files; splitting metadata lines into words.
- Text is bytes: UTF-8 checking, JSON parsing and regular expressions of conditions are not modelled.
- The Graphite value of integers, tips, the unused `tstamp` module, HTTP, web sockets, GraphQL, file renames and the user interface.
