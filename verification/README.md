# Recording pipeline: a verified model

A camera's samples become groups of pictures (GOPs), the GOPs become MP4 fragments and write
jobs, a bounded queue hands the jobs to workers, the workers store the objects in SeaweedFS and
index them in an embedded key/value store, and a playback lists, reads and sends them again.
This project models those steps and proves what they keep, from the byte order of an index key
up to one theorem from the recorded samples to the played ones (`EndToEnd.RecordedThenPlayed`).

`dafny verify dfyconfig.toml` checks everything.

## Parts

| files | component | main result |
|---|---|---|
| `key_order`, `ordered_bucket` | byte order of keys, ordered buckets | exactly when key order is number order; cursor scans are filters |
| `bolt_index`, `key_layout`, `day_cover`, `index_refinement` | the two-layout recording index | after every run a query lists exactly the entries of a plain (camera, instant) table; with writers, readers and deletions of any UTC offsets, exactly which entries it misses |
| `recording_ranges`, `migrate` | range merge, V1 to V2 migration | the only grouping at the five-second gaps; after every V1-only run the migration builds the run's buckets, and a second one changes nothing |
| `breaker`, `hybrid_protocol`, `hybrid_runs`, `hybrid_reads`, `hybrid_store` | circuit breaker, the hybrid store interleaved and call by call | exactly what trips the breaker, and 38 failures in a span always do; a registered, cached or pending file was uploaded before; a Get returns bytes of a Put of its key, stale caches included; how each Put ends and what a Get returns after any run; compensation accounting; exactly when the entry cache stays coherent |
| `samples`, `sample_codec`, `sample_timing`, `fmp4_builder` | the fragmented MP4 sample codec | round trips in both directions, a tight bound on timestamp drift |
| `object_keys`, `segmentation`, `stream_recorder`, `recorder_refinement`, `init_segments` | the recorder | the submitted GOPs are a pure segmentation of the stream; exactly when every job has its init segment at or before it |
| `async_writer`, `writer_safety`, `quota` | write queue and memory quota | conservation of jobs and memory over all interleavings, store before index, Close comes to an end; quota safety |
| `retention`, `playback` | the index's two clients | exactly what a cleanup erases, in any time zones; exactly when a playback sends the stored window, at the recorded pace |
| `end_to_end` | all of it together | what was recorded and went through queue and store is what a query lists and a playback sends |

How the pieces connect: each class keeps its fields as the source does and its methods state
their whole effect as a function of the old state (`WriteOne`, `DeleteEntries`, `AfterSample`,
`RecordFailure`, ...). The lemmas about runs speak about these functions. Parts whose point is
concurrency (`hybrid_protocol`, `async_writer`, `quota`) are step machines in which any enabled
step may come next.

## Modelling choices

- An instant is its nanosecond count and a fixed UTC offset. The calendar day that the index
  writes as text is the day number of the local time. An offset is less than 24 hours.
- The breaker's events are the critical sections of its lock: a probe runs outside of it, so its
  result may come when another call has changed the state.
- A store value is the JSON of a GOP's metadata or bytes that do not decode; reads skip the
  latter. Whether the store can commit a transaction is a parameter, and a failed one has no
  effect. An empty camera id names no bucket and fails.
- The first sample of a playback has no predecessor (an option); the source marks this with the zero time.
- A day bucket that a deletion empties disappears. Whether it does cannot be seen in a query.
- Each server call of the hybrid store may fail after it has taken effect, and any number of
  Puts, lookups and deletions interleave with the compensation worker.
- The recorder sees the writer, the fragment builder and the init builder as parameters that
  tell whether a call succeeds. The directory of an object key (`path.Join` of camera and date)
  is a parameter; the file name is modelled to the byte.
- Playback speeds divide in real numbers. All accepted speeds are powers of two, for which the
  division of spans below 2^53 ns is exact in binary floating point.

## Where code and documentation differ

The model follows the code.

- README.md:732 puts init segments under `init/{sha1}.mp4init`; the code names them like
  fragments, with the suffix `.mp4init`.
- README.md:701 shows a step from Recording back to WaitingKeyFrame after a reconnect; the code
  has none.

## What the code does not keep, and exactly when it does

- A reader and a writer with different signs of UTC offset can miss each other's entries.
  `DayCover.CoverExact` says exactly when, `IndexRefinement.QueryAfterRunExact` which entries a
  query lists after a run with deletions of any offsets, and
  `IndexRefinement.IncompatibleQueryMisses` shows that every incompatible pair of offsets loses
  some entry. A writer at UTC fits every reader.
- A deletion whose offset does not fit the writer's removes an entry from the flat bucket and
  leaves it in the V2 buckets (`IndexRefinement.IncompatibleDeletionParts`). The two layouts
  answer a query alike if and only if it visits the day of an entry in its range exactly when no
  deletion has parted it (`IndexRefinement.LayoutsAgreeExactly`).
- Binary keys of two times are in time order if and only if these have the same sign
  (`IndexRefinement.BinaryKeyOrderExact`). Text keys compare like the texts: for times of equally
  many digits in time order, otherwise after the longer one is cut (`KeyOrder.DecimalLess`,
  `IndexRefinement.TextKeyOrder`); the times of j and of k digits are all in order if and only if
  j is k (`IndexRefinement.TextWidthsInOrder`).
- A flush that fails while an init segment waits has used it up. Every job has its init segment
  at or before it if and only if no GOP is submitted between such a flush and the next rebuild
  (`InitSegments.InitTravelsExactly`, `InitSegments.FailedSubmitLosesInit`).
- When building an init segment fails the recorder goes on with the new builder and the old
  coding. Every job is built for the coding of its frames if and only if no GOP is submitted in
  that state (`InitSegments.OwnCodingExactly`).
- The entry cache can name another file than the filer. With concurrent calls it stays fresh if
  and only if no step changes a key's filer entry under someone who is about to cache the present
  one, and no fallback or failed call changes it behind the cache
  (`HybridProtocol.FreshExactly`); after any such step the cache can end up stale, with no
  filler and no deletion in progress that would set it right
  (`HybridProtocol.DisturbedGoesStale`, `HybridProtocol.CacheCanGoStale`). Even then it serves
  bytes of a Put of the key (`HybridReads.ReadsWhatWasPut`). With atomic calls only
  the fallback path can break it, and `HybridStore.RunCoherent` says when.
- 37 failures within a nanosecond need not trip the breaker (`Breaker.TripsExactly`). It is
  tripped if and only if, since the last clear, a window has come to twenty failures or a failed
  probe has met it untripped (`Breaker.TrippedExactly`); the latter happens when two probes of a
  tripped breaker end differently (`Breaker.LateProbeTrips`). Its counter is the number of
  failures in the last window (`Breaker.CounterExactly`), and one that has reached the threshold
  starts over exactly when the next failure comes more than 30 s after the window's first
  (`Breaker.CounterRestarts`, `Breaker.CounterMayRestart`).
- `Allocate` can refuse a request that fits the quota while another one is being taken back
  (`Quota.GrantedExactly`, `Quota.SpuriousRejection`).
- With no workers `Close` leaves the queue as it is (`WriterSafety.DrainedExactly`). The running
  program never has none: internal/config/config.go:245 rejects such a configuration.
- Sample data with an empty unit or one of 2^32 bytes does not come back
  (`SampleCodec.DecodeEncode`, an equivalence).
- A playback without an end stops listing a day after its start (`Playback.PlaybackExact`), and
  any playback misses a GOP that reaches over its start from more than 2 s before
  (`Playback.LongGOPMissed`).
- A cleanup scans UTC days. When nothing fails, an entry of the scanned days is left behind if
  and only if a western writer filed it under the day before and no earlier scanned day sees an
  entry (`Retention.CleanupExact`); with every western writer that happens
  (`Retention.WesternEntryLeft`), with others never (`Retention.EasternCleanup`). The first day
  that sees an entry erases the index from there to the cutoff but deletes only its own objects:
  expired entries of later days lose their place in the index, and their objects stay
  (`Retention.FragmentsExact`).
- A key that the compensation worker has given up after three attempts, or that found the queue
  full, stays pending for good, so that no later Put of it that fails to register is queued
  (`HybridRuns.GivenUpForGood`).

## Model

| member | source | states |
|---|---|---|
| EndToEnd.RecordedThenPlayed | internal/playback/server.go:178-253 | for a smooth, stopped recording with ascending timestamps whose jobs went through a closed write queue without a failed batch, among those of any cameras, and into the hybrid store, both in any interleaving, every stored key registered in the end: each GOP of the pure segmentation reads back frame by frame (same units, never late, at most 11111 ns per frame early), and a playback of what a query lists has exactly the wanted frames of all those GOPs to send, in order, if and only if it has an end or they start within a day |
| EndToEnd.RegisteredIsArchived | internal/storage/seaweed_hybrid.go:81-155 | a job whose key has only been put with its fragment and is registered reads back as that fragment, from the filer or the cache, whatever the interleaving |
| EndToEnd.RecordedKeysSeparate | internal/recorder/stream_recorder.go:167-208 | the table of one recorder's jobs has distinct fragment keys, none an init key, as the retention relies on |
| EndToEnd.QueueIndexes | internal/recorder/async_writer.go:144-258 | the batches of a closed queue hold every job of a camera and no others of it, and the key of each was stored before |
| EndToEnd.JobsOfRun | internal/recorder/stream_recorder.go:167-208 | the jobs of a stopped run are the segmentation's GOPs in order, with ascending, non-overlapping metadata |
| EndToEnd.SegmentsOrdered | internal/recorder/gop_assembler.go:20-36 | the GOPs of a stream with ascending timestamps ascend inside and lie wholly one before the other |
| EndToEnd.JobsAreCatalogue | internal/recorder/async_writer.go:205-247 | once batches with the camera's jobs have been committed, in any order and grouping and among other cameras' jobs, the index table of the camera is exactly the list of its jobs |
| EndToEnd.FragmentReadsInOrder | internal/playback/fragment_reader.go:42-52 | a built fragment with regular timestamps reads back with ascending times inside its metadata interval |
| EndToEnd.ArchivedReadsBack | internal/recorder/fmp4_builder.go:185-218 | a job's kept fragment reads back all its frames with units, key flags and codec, within the drift bound, the key frame first and at the very start, the last near the end |
| IndexRefinement.QueryAfterRun | internal/index/bolt_index.go:112-127 | after every run of writes, batches and deletions a V2 query returns exactly the table's entries in the range, each once, in ascending time |
| IndexRefinement.QueryAfterRunExact | internal/index/bolt_index.go:173-299 | after every run with deletions of any offsets, a query of any offset returns, in ascending time, exactly the entries whose day it visits of the table from which each deletion has erased the entries whose day it visited |
| IndexRefinement.RunSeenRefines | internal/index/bolt_index.go:56-236 | every such run keeps the V2 buckets equal to that table |
| IndexRefinement.CompatibleRun | internal/index/bolt_index.go:173-212 | which is the plain one if all deletions are compatible with the writer |
| IndexRefinement.FlatRunRefines | internal/index/bolt_index.go:56-110 | every run without V2 buckets keeps the flat bucket equal to the table, whatever the offsets of deletions |
| IndexRefinement.FlatQueryAfterRun | internal/index/bolt_index.go:112-127 | and its queries return exactly the table's entries in the range |
| IndexRefinement.RunRefines | internal/index/bolt_index.go:56-110 | every run keeps the camera/day buckets equal to the plain table, and the flat bucket too when its keys are plain |
| IndexRefinement.StepRefines | internal/index/bolt_index.go:173-236 | one public call moves both layouts and the table alike |
| IndexRefinement.BatchRefines | internal/index/bolt_index.go:79-110 | a batch moves both layouts like the writes of its items one by one |
| IndexRefinement.LayoutsAgree | internal/index/bolt_index.go:242-299 | queryV1 and queryV2 return the same list after every run of compatible offsets, for ids without ':' and 19-digit times |
| IndexRefinement.LayoutsAgreeExactly | internal/index/bolt_index.go:242-299 | with any offsets they do if and only if the query visits the day of an entry in its range exactly when no deletion has removed that from the flat bucket alone |
| IndexRefinement.IncompatibleDeletionParts | internal/index/bolt_index.go:173-236 | every incompatible pair of offsets has a deletion after which they differ |
| IndexRefinement.QueryV1Correct | internal/index/bolt_index.go:242-262 | the flat scan with its prefix test returns the table's listing |
| IndexRefinement.QueryV2Correct | internal/index/bolt_index.go:264-299 | the day loop over binary keys returns the table's listing |
| IndexRefinement.QueryV2Exact | internal/index/bolt_index.go:264-299 | for any offsets it returns the entries in the range whose day it visits, in ascending time |
| IndexRefinement.DeleteV2Exact | internal/index/bolt_index.go:173-212 | for any offsets a deletion removes exactly the entries in the range whose day it visits |
| IndexRefinement.PutV2Refines | internal/index/bolt_index.go:323-331 | a write changes one day bucket of one camera, as the table changes one entry |
| IndexRefinement.PutV1Refines | internal/index/bolt_index.go:301-303 | a write to the flat bucket changes one table entry |
| IndexRefinement.DeleteV2Refines | internal/index/bolt_index.go:173-212 | the day loop of a deletion removes the table's entries in the range and no others |
| IndexRefinement.DeleteV1Refines | internal/index/bolt_index.go:214-233 | so does the deletion in the flat bucket |
| IndexRefinement.ListingUnique | internal/index/bolt_index.go:112-127 | there is only one ascending list with given entries, so a listing is determined |
| IndexRefinement.BinaryKeyOrder | internal/index/bolt_index.go:305-311 | binary keys of a camera are ordered like their non-negative instants and tell them apart |
| IndexRefinement.NegativeKeysSortLast | internal/index/bolt_index.go:305-311 | a negative instant sorts after all that are not negative |
| IndexRefinement.BinaryKeyOrderExact | internal/index/bolt_index.go:305-311 | two binary keys are in time order if and only if the times have the same sign; equal keys have equal times |
| KeyLayout.KeyLayoutExactly | internal/index/bolt_index.go:305-311 | a binary key has 17 bytes and begins with version two; two are equal if and only if the hashes of the camera ids and the int64 times are |
| KeyLayout.OneByteApart | internal/index/bolt_index.go:317-321 | camera ids that differ in exactly one byte never share a hash |
| KeyLayout.HashOfA | internal/index/bolt_index.go:317-321 | the published FNV-1a hash of the text "a" |
| IndexRefinement.TextKeyOrder | internal/index/bolt_index.go:301-303 | any two text keys of a camera compare as the arithmetic of their digits says; equal keys have equal times |
| IndexRefinement.NineteenKeyOrder | internal/index/bolt_index.go:301-303 | in particular times of nineteen digits are in time order |
| IndexRefinement.TextWidthsInOrder | internal/index/bolt_index.go:301-303 | the times of j and of k digits all have text keys in time order if and only if j is k |
| IndexRefinement.PrefixSeparates | internal/index/bolt_index.go:242-262 | for ids without ':' the prefix test holds exactly for keys of the same camera |
| IndexRefinement.IncompatibleQueryMisses | internal/index/bolt_index.go:264-299 | for every incompatible pair of offsets there is one write that a query for that very instant does not find |
| Index.BoltIndex.WriteGOP | internal/index/bolt_index.go:56-77 | both layouts get the entry or nothing changes; order is kept |
| Index.BoltIndex.BatchWriteGOP | internal/index/bolt_index.go:79-110 | all items or none |
| Index.BoltIndex.QueryRange | internal/index/bolt_index.go:112-127 | the cursor loops compute the query function of the layout in use |
| Index.BoltIndex.DeleteRange | internal/index/bolt_index.go:173-236 | deletes from both layouts or changes nothing |
| Index.BoltIndex.ScanV1 | internal/index/bolt_index.go:242-262 | the seek-and-stop cursor loop sees exactly the pairs of the window with the camera's prefix |
| Index.BoltIndex.ScanV2 | internal/index/bolt_index.go:264-299 | the day loop concatenates the day scans |
| Index.ScanDay | internal/index/bolt_index.go:279-295 | the cursor loop over one day reports the values of the key window that decode and lie in the range |
| Index.Erase | internal/index/bolt_index.go:190-203 | collect under the cursor, then delete: what remains is the bucket without the window |
| Index.EraseDays | internal/index/bolt_index.go:183-212 | the deletion's day loop, with emptied days dropped |
| DayCover.CoverExact | internal/index/bolt_index.go:271-279 | exactly when the loop over truncated UTC days visits the day label of an entry in the range |
| DayCover.Cover | internal/index/bolt_index.go:183-184 | compatible offsets never miss |
| DayCover.IncompatibleMiss | internal/index/bolt_index.go:271-279 | every incompatible pair of offsets misses some instant |
| KeyOrder.DigitsOrder | internal/index/bolt_index.go:305-311 | fixed-width digit strings are ordered like the numbers, in any base |
| KeyOrder.SuffixOrder | internal/index/bolt_index.go:301-311 | keys that differ only in a fixed-width number at the end are ordered by it |
| KeyOrder.DecimalOrder | internal/index/bolt_index.go:301-303 | a shorter decimal text sorts first if and only if its number is at most the longer one cut to as many digits; equally long ones sort like the numbers |
| RecordingRanges.MergeGOPs | internal/index/bolt_index.go:142-170 | the loop with its current range computes the ranges of the gap grouping |
| RecordingRanges.GetRecordingRanges | internal/index/bolt_index.go:142-170 | the ranges of the GOPs listed from local midnight through 24 hours |
| RecordingRanges.LocalDay | internal/index/bolt_index.go:142-146 | an instant shows the date's day in its location exactly when it lies in the 24 hours from that midnight |
| RecordingRanges.GroupingUnique | internal/index/bolt_index.go:142-170 | a grouping splits exactly at the gaps of five seconds or more if and only if it is this one |
| RecordingRanges.RangesApart | internal/index/bolt_index.go:142-170 | consecutive ranges are at least five seconds apart |
| RecordingRanges.InOneRange | internal/index/bolt_index.go:142-170 | each GOP lies in exactly one range |
| RecordingRanges.DurationConserved | internal/index/bolt_index.go:142-170 | the ranges add up to the overall extent less the long gaps |
| Migrate.Run | cmd/migrate/main.go:24-91 | copies every value that decodes and counts them, in one transaction; a dry run or failure changes nothing |
| Migrate.MigrationRefines | cmd/migrate/main.go:46-91 | migrating a V1-only database builds exactly the V2 buckets of its table and counts its entries |
| Migrate.MigrationIdempotent | cmd/migrate/main.go:46-91 | a second migration changes nothing |
| Migrate.MigrationAgrees | cmd/migrate/main.go:46-91 | after it both layouts answer alike |
| Migrate.MigrationAfterRun | cmd/migrate/main.go:46-91 | after every run of a database without V2 buckets it builds the buckets of the run's table, and both layouts answer alike |
| Breaker.ThirtyEightTrip | internal/storage/seaweed_hybrid.go:314-328 | 38 failures in one 30 s span without a clear leave the breaker tripped, from any reachable state |
| Breaker.ThirtySevenMayNot | internal/storage/seaweed_hybrid.go:314-328 | 37 within a nanosecond may not |
| Breaker.TripsExactly | internal/storage/seaweed_hybrid.go:314-328 | n failures in one span, from any state and with no clear, always trip the breaker if and only if n is at least 38 |
| Breaker.TrippedExactly | internal/storage/seaweed_hybrid.go:292-337 | the breaker is tripped if and only if since the last clear a window has come to 20 failures or a failed probe has met it untripped |
| Breaker.TrippedWasCrowded | internal/storage/seaweed_hybrid.go:292-337 | without such a probe a tripped breaker has seen 20 failures within 30 s since the last clear |
| Breaker.LateProbeTrips | internal/storage/seaweed_hybrid.go:292-312 | two probes of a tripped breaker that end differently can leave it tripped without a failure since the clear |
| Breaker.NoEarlyProbe | internal/storage/seaweed_hybrid.go:292-328 | within five seconds of a trip or a failed probe no call probes or changes the breaker, whatever happens in between |
| Breaker.ProbeAfterPause | internal/storage/seaweed_hybrid.go:292-312 | the first call after these probes, and only the outcome decides |
| Breaker.CounterExactly | internal/storage/seaweed_hybrid.go:314-328 | the counter is the number of failures in the last window since the last clear, tripped or not |
| Breaker.CounterRestarts | internal/storage/seaweed_hybrid.go:314-328 | one that has reached the threshold starts over if and only if the next failure comes more than 30 s after the window's first |
| Breaker.CounterMayRestart | internal/storage/seaweed_hybrid.go:314-328 | a tripped breaker's counter may stand at one |
| HybridProtocol.UploadBeforeRegister | internal/storage/seaweed_hybrid.go:81-135 | in every interleaving, what is registered, cached, queued, pending or in flight names a file uploaded earlier with bytes of that size and MD5 |
| HybridProtocol.CompensationAccounted | internal/storage/seaweed_hybrid.go:358-402 | pending keys are the disjoint union of queued, in-flight, given-up and overflowed keys; no key is queued twice |
| HybridProtocol.StepAccounted | internal/storage/seaweed_hybrid.go:387-402 | each step keeps that, and removes a pending key only after its entry was created |
| HybridProtocol.LeavesOnlyCreated | internal/storage/seaweed_hybrid.go:387-402 | over any run, an entry that was pending still is, or that very entry has been created by the worker |
| HybridProtocol.EnqueueRemembers | internal/storage/seaweed_hybrid.go:358-370 | a Put that hands its entry over has its key pending; if it was not before, with this very entry, queued if there is room |
| HybridProtocol.LeftIsRemembered | internal/storage/seaweed_hybrid.go:358-402 | in every interleaving a Put that waited to hand its entry over and is done has done so, and the entry then pending for its key is pending still or has been created since |
| HybridRuns.PutProgress | internal/storage/seaweed_hybrid.go:81-135 | in every interleaving a Put that is done has fallen back if it was assigned no file, and otherwise, if its file was uploaded, has registered and cached its entry or handed it over; it gives up a server only after three failed attempts or one that is not worth retrying |
| HybridRuns.PutEnds | internal/storage/seaweed_hybrid.go:457-487 | however the rest interleaves a Put takes at most ten steps, and some step of it is possible until it is done |
| HybridRuns.ThreeTries | internal/storage/seaweed_hybrid.go:387-402 | the worker gives up an entry exactly when its third attempt has failed |
| HybridRuns.GivenUpForGood | internal/storage/seaweed_hybrid.go:358-402 | a key given up, or refused for lack of room, stays pending and is never queued or tried again |
| HybridRuns.LastChangeCounts | internal/storage/seaweed_hybrid.go:81-402 | after every run the filer names for a key the file of the last registration, fallback or retry that took effect, unless a deletion did since, and the cache that of the last Put, retry or lookup that cached it, unless it was taken out since |
| HybridProtocol.StepFresh | internal/storage/seaweed_hybrid.go:119-135 | a step of any interleaving leaves fillers and cache on the filer's files if and only if it does not disturb them |
| HybridProtocol.FreshExactly | internal/storage/seaweed_hybrid.go:111-194 | over every interleaving the states are fresh throughout if and only if no step disturbs |
| HybridProtocol.CacheCoherent | internal/storage/seaweed_hybrid.go:240-271 | then the cache names the filer's file for every key that nobody is writing, and so does what readers have looked up |
| HybridProtocol.DisturbedGoesStale | internal/storage/seaweed_hybrid.go:111-194 | after a disturbance of any kind the run can go on to a cached file that is not the filer's and that no filler and no deletion in progress sets right |
| HybridProtocol.CacheCanGoStale | internal/storage/seaweed_hybrid.go:111-128 | for instance two interleaved Puts of one key can leave the cache on the older file |
| HybridReads.ReadsWhatWasPut | internal/storage/seaweed_hybrid.go:81-155 | in every interleaving with file ids given away once, an entry served for a key by the filer or the cache, stale or not, names a file that holds the bytes of a Put of that key and nothing else |
| HybridReads.ReadsBackBytes | internal/storage/seaweed_hybrid.go:81-155 | so a key that is only put with the same bytes reads back as these |
| HybridStore.RetryDo | internal/storage/seaweed_hybrid.go:457-487 | succeeds exactly if one of three attempts does and all before it failed retryably |
| HybridStore.SeaweedHybridStorage.Put | internal/storage/seaweed_hybrid.go:81-135 | the result (stored, pending, failed, stored by the fallback with or without the degraded-store error) and the whole new state on every path |
| HybridStore.SeaweedHybridStorage.GetEntry | internal/storage/seaweed_hybrid.go:259-271 | an entry that has not expired, or what the filer has, which is then cached |
| HybridStore.SeaweedHybridStorage.Delete | internal/storage/seaweed_hybrid.go:179-194 | the entry leaves filer and cache together unless the fallback is used |
| HybridStore.CallCoherent | internal/storage/seaweed_hybrid.go:81-194 | a call keeps a coherent cache coherent if and only if its fallback does not replace or delete the file of a cached entry |
| HybridStore.RunCoherent | internal/storage/seaweed_hybrid.go:81-194 | over every run of atomic calls the cache is coherent throughout if and only if no call does that |
| HybridStore.CachedGet | internal/storage/seaweed_hybrid.go:240-271 | with a coherent cache a Get goes on with the file it would have found without one |
| HybridStore.SeaweedHybridStorage.EnqueueCompensation | internal/storage/seaweed_hybrid.go:358-370 | one pending entry per key; a full queue leaves it pending only |
| HybridStore.SeaweedHybridStorage.Compensate | internal/storage/seaweed_hybrid.go:372-402 | up to three attempts; success registers, unpends and caches, failure leaves it pending |
| HybridStore.SeaweedHybridStorage.ShouldUseFallback | internal/storage/seaweed_hybrid.go:292-312 | the breaker's decision, with the probe that is due |
| HybridStore.SeaweedHybridStorage.RecordControlFailure | internal/storage/seaweed_hybrid.go:314-328 | updates the four breaker fields as the window rule says |
| HybridStore.SeaweedHybridStorage.ClearControlFailures | internal/storage/seaweed_hybrid.go:330-337 | the breaker is healthy again |
| HybridStore.PutThenGet | internal/storage/seaweed_hybrid.go:81-135 | a Put is stored if and only if the breaker lets it and assignment, upload and registration succeed; then every Get of the key returns its entry, within its time in the cache whatever the lookup does and later if that succeeds; no Put changes the Gets of other keys |
| HybridStore.PutElseGet | internal/storage/seaweed_hybrid.go:81-135 | exactly when a Put is left pending or falls back; one that fails or is left pending changes no Get, one that falls back registers the fallback's entry and leaves the cache |
| HybridStore.GetThenGet | internal/storage/seaweed_hybrid.go:259-271 | what a Get has looked up is found again without a lookup while it is cached; other Gets are unchanged |
| HybridStore.DeleteThenGet | internal/storage/seaweed_hybrid.go:179-194 | after a deletion off the fallback path no Get finds the key; one on it leaves the key to be found in the cache only, or changes nothing if it fails; other keys are as before |
| HybridStore.CompensateThenGet | internal/storage/seaweed_hybrid.go:372-402 | if one of three attempts succeeds Gets return the queue's first entry and it is pending no longer; otherwise nothing changes but the queue |
| HybridStore.PendingIsQueued | internal/storage/seaweed_hybrid.go:358-370 | a Put that is left pending has its key pending; if it was not before, with this very entry, last in the queue if that had room |
| HybridStore.QueuedThenGet | internal/storage/seaweed_hybrid.go:372-402 | whatever becomes of the entries before it, a queued entry comes to the head, and a succeeding attempt makes Gets return it |
| HybridStore.LastStoredGets | internal/storage/seaweed_hybrid.go:81-271 | over every run of calls a Get whose lookup succeeds returns the last entry stored or compensated for its key, unless a fallback, deletion or compensation has touched it since |
| HybridStore.PutCounts | internal/storage/seaweed_hybrid.go:81-135 | a failed assignment or registration counts as a failure, a stored object clears the breaker, a failed upload does neither |
| HybridStore.DeleteCounts | internal/storage/seaweed_hybrid.go:179-194 | a failed deletion counts as a failure, one that succeeds clears the breaker; Gets and compensations do neither |
| HybridStore.TwentyFailuresTrip | internal/storage/seaweed_hybrid.go:292-328 | twenty Puts failing at the master or the filer within thirty seconds send every Put of the next five seconds to the fallback |
| SampleCodec.EncodeSampleData | internal/recorder/fmp4_builder.go:264-283 | the loop writes each unit behind its 32-bit length; error cases per codec |
| SampleCodec.DecodeSampleData | internal/recorder/fmp4_builder.go:285-307 | the loop splits at the lengths, with both errors |
| SampleCodec.DecodeEncode | internal/recorder/fmp4_builder.go:264-307 | decoding undoes encoding if and only if all units are non-empty and shorter than 2^32 |
| SampleCodec.EncodeDecode | internal/recorder/fmp4_builder.go:285-307 | whatever decodes re-encodes to the same bytes |
| SampleCodec.DecodableExactly | internal/recorder/fmp4_builder.go:285-307 | the accepted byte strings are exactly the encodings of such units |
| SampleCodec.DecodeErrors | internal/recorder/fmp4_builder.go:285-307 | one to three bytes behind an encoding are reported as trailing data, and nothing else is |
| SampleCodec.BigEndian | internal/recorder/fmp4_builder.go:264-307 | 32-bit lengths and sizes are written so that their byte order is their numeric order |
| SampleCodec.ParseBoxes | internal/recorder/fmp4_builder.go:129-141 | the loop builds the last-wins map of the box list |
| SampleCodec.ParseConcatenation | internal/recorder/fmp4_builder.go:122-141 | parsing concatenated boxes and a short tail gives the last-wins map |
| SampleCodec.ParsedIsConcatenation | internal/recorder/fmp4_builder.go:129-141 | conversely a buffer that parses is such a concatenation |
| SampleCodec.InitRoundTrip | internal/recorder/fmp4_builder.go:31-103 | the payload BuildInit appends comes back, whatever standard boxes precede it, if and only if its box fits a 32-bit size |
| SampleCodec.LegacyInit | internal/recorder/fmp4_builder.go:86-103 | an init segment is found exactly in a file with a rinf or init box, and without the former it is the last init box |
| SampleTiming.ComputeSampleDurations | internal/recorder/fmp4_builder.go:239-262 | the loop gives each sample the specified duration, never zero |
| SampleTiming.DurationExactly | internal/recorder/fmp4_builder.go:239-262 | the gap in whole ticks, as a 32-bit number and at least one, 40 ms for a gap that is not positive or a single sample, and the last sample's duration is that of the one before |
| SampleTiming.DecodeTimesIncrease | internal/recorder/fmp4_builder.go:55-76 | decode ticks strictly increase for any timestamps |
| SampleTiming.DriftBound | internal/recorder/fmp4_builder.go:185-218 | for regular timestamps the rebuilt time of sample i is never late and at most 11111*i ns early |
| SampleTiming.DriftReached | internal/recorder/fmp4_builder.go:239-262 | that bound is reached by every sample of an evenly spaced fragment, which is regular |
| FMP4.FMP4Builder.BuildFragment | internal/recorder/fmp4_builder.go:46-84 | sequence, durations, decode times and data of every sample; fails exactly when a sample does not encode or there is none |
| FMP4.ParseFragment | internal/recorder/fmp4_builder.go:185-218 | every sample with its rebuilt time, or the error |
| FMP4.UnitsRoundTrip | internal/recorder/fmp4_builder.go:46-84 | reading a built fragment gives back every sample's units if and only if its codec can carry them all |
| FMP4.FragmentRoundTrip | internal/recorder/fmp4_builder.go:46-218 | units, key flag and codec come back, key frames as I frames and all others as P frames, and the time within the drift bound |
| ObjectKeys.SequenceOfKey | internal/storage/seaweed_hybrid.go:524-526 | equal keys with equal suffixes have equal sequence numbers, whatever directory and time are |
| ObjectKeys.TimeOfKey | internal/storage/seaweed_hybrid.go:524-526 | with the same directory, sequence number and suffix, keys are equal exactly when their times are of the same millisecond |
| ObjectKeys.SequenceOrder | internal/storage/seaweed_hybrid.go:524-526 | keys of one directory and millisecond sort by sequence number, below a million |
| ObjectKeys.SuffixesDiffer | internal/recorder/stream_recorder.go:146-208 | a fragment key is never an init key |
| Segmentation.SegmentsAreGOPs | internal/recorder/gop_assembler.go:20-51 | every segment has its only key frame first, one codec and one parameter set |
| Segmentation.AppendKey | internal/recorder/gop_assembler.go:20-36 | a key frame opens a new segment |
| Segmentation.AppendContinuation | internal/recorder/gop_assembler.go:20-36 | a frame of the same coding extends the open segment |
| Segmentation.AppendBreak | internal/recorder/stream_recorder.go:64-144 | any other piece closes the open segment and changes none |
| StreamRecorder.GOPAssembler.AddSample | internal/recorder/gop_assembler.go:20-36 | when a flush is due, and the new buffer |
| StreamRecorder.GOPAssembler.Flush | internal/recorder/gop_assembler.go:38-51 | hands out the buffered GOP and empties the buffer, or reports that there is none |
| StreamRecorder.GOPAssembler.Reset | internal/recorder/gop_assembler.go:53-59 | empties the buffer |
| StreamRecorder.StreamRecorder.Start | internal/recorder/stream_recorder.go:51-62 | the whole new state |
| StreamRecorder.StreamRecorder.Stop | internal/recorder/stream_recorder.go:64-84 | the whole new state, with the last GOP flushed |
| StreamRecorder.StreamRecorder.ProcessSample | internal/recorder/stream_recorder.go:90-144 | the whole new state on every path, failures included, and exactly when it reports an error |
| StreamRecorder.StreamRecorder.RebuildBuilder | internal/recorder/stream_recorder.go:146-165 | the builder changes even when building its init segment fails |
| StreamRecorder.StreamRecorder.FlushGOP | internal/recorder/stream_recorder.go:167-208 | the sequence number and the pending init segment are spent even when the flush fails |
| RecorderRefinement.RunRefines | internal/recorder/stream_recorder.go:51-208 | over every smooth run, submitted GOPs plus the buffer equal the segmentation of the recorded stream, and every job describes its GOP |
| RecorderRefinement.StoppedRunComplete | internal/recorder/stream_recorder.go:64-84 | once stopped, the submitted GOPs are the whole segmentation |
| RecorderRefinement.OneJobPerCall | internal/recorder/stream_recorder.go:167-208 | a call submits at most one job, the GOP buffered before it, under the size of the fragment built in this call |
| InitSegments.InitTravelsExactly | internal/recorder/stream_recorder.go:146-208 | over every run whose init segments can be built: each job has its init segment at or before it if and only if no GOP is submitted between a failed flush that met a waiting init segment and the next rebuild |
| InitSegments.InitTravelsOnce | internal/recorder/stream_recorder.go:146-208 | in such a run exactly one job carries it, under the same init key |
| InitSegments.OneInitPerStretch | internal/recorder/stream_recorder.go:51-208 | over every run, failures included: as long as the frames have the recorder's coding it keeps its builder, every GOP goes out for that coding under one init key, and at most the first brings the init segment |
| InitSegments.NoLossNoOrphan | internal/recorder/stream_recorder.go:167-208 | the condition holds if no failing flush meets a waiting init segment |
| InitSegments.SmoothNeverLoses | internal/recorder/stream_recorder.go:146-208 | in particular if nothing fails |
| InitSegments.SharedInitAgrees | internal/recorder/stream_recorder.go:146-208 | jobs with the same init key have the same codec and parameters, whatever flushes fail |
| InitSegments.FragmentKeysDistinct | internal/recorder/stream_recorder.go:167-208 | in every run, failures included, the fragments of a recorder have distinct keys, none an init key |
| InitSegments.OwnCodingExactly | internal/recorder/stream_recorder.go:146-208 | over every run, failures included: every job is built for the coding of its frames if and only if no GOP is submitted while the builder is of another one |
| InitSegments.FailedSubmitLosesInit | internal/recorder/stream_recorder.go:182-205 | after a failed Submit the next job of the coding goes out and no job carries its init segment |
| AsyncWriter.ProcessBatch | internal/recorder/async_writer.go:205-247 | every fragment, and every init segment before the fragment of its job, is put before the index gets the whole batch; that happens if and only if none of these Puts reports an error and the index can commit, otherwise the index stays as it was |
| WriterSafety.WriterSafe | internal/recorder/async_writer.go:74-186 | in every interleaving of N workers each submitted job is in exactly one place, memory is charged for exactly the jobs not given back, queue and batches stay bounded |
| WriterSafety.IndexedWasStored | internal/recorder/async_writer.go:205-247 | an indexed job had its fragment and init segment put without error |
| WriterSafety.CloseDrains | internal/recorder/async_writer.go:249-258 | with a worker, when Close returns every job was indexed or failed, nothing is queued, no memory is held |
| WriterSafety.FailedExactly | internal/recorder/async_writer.go:205-247 | as many batches fail as steps report an error |
| WriterSafety.CloseIndexesAll | internal/recorder/async_writer.go:249-258 | so if none does, Close leaves every submitted job indexed |
| WriterSafety.DrainedExactly | internal/recorder/async_writer.go:249-258 | when Close returns the queue is empty if and only if there was a worker or nothing was submitted; without workers it holds every job |
| WriterSafety.NoWorkersNoDrain | internal/recorder/async_writer.go:249-258 | such a run exists |
| WriterSafety.CloseEnds | internal/recorder/async_writer.go:144-186 | however the workers interleave after Close, they take no more than a known number of steps, and a step is possible until all are gone |
| Quota.QuotaSafe | internal/memory/controller.go:19-30 | in every interleaving the counter is granted plus rejected-not-rolled-back sizes, and grants stay within the limit |
| Quota.GrantedExactly | internal/memory/controller.go:19-26 | a request is granted exactly when it fits beside both |
| Quota.SpuriousRejection | internal/memory/controller.go:19-26 | so one that fits the quota may be refused |
| Quota.Controller.AllocateAdd | internal/memory/controller.go:19-21 | the atomic add and the comparison it decides |
| Quota.Controller.AllocateRollback | internal/memory/controller.go:21-24 | takes a rejected size back |
| Quota.Controller.Release | internal/memory/controller.go:28-30 | gives a grant back |
| Quota.Controller.Allocate | internal/memory/controller.go:19-26 | without interruption: granted, or without effect |
| Playback.ListGOPs | internal/playback/fragment_reader.go:22-32 | lists what the index has from two seconds before the start to two seconds after the end, or for a day without an end |
| Playback.SendGOP | internal/playback/server.go:214-250 | sends the wanted samples of one GOP and waits the scaled differences |
| Playback.RunPlayback | internal/playback/server.go:178-253 | up to the first GOP that is to be played and cannot be read, sends exactly the wanted samples of orderly GOPs in order, each under its own GOP's init segment when these load |
| Playback.ExpectedExactly | internal/playback/server.go:220-234 | a stored sample is sent as often as it is stored if it lies between start and end and its speed class allows it (always below 4, all but B frames below 8, key frames from 8 on), and otherwise not at all |
| Playback.AllReached | internal/playback/server.go:208-214 | a playback gets through the whole list if and only if no GOP of it is missing |
| Playback.ParseScale | internal/playback/server.go:374-396 | every accepted speed is a power of two from 1/8 to 16 |
| Playback.ScaleDenotes | internal/playback/server.go:374-396 | an accepted speed is the number that its text writes |
| Playback.ScaleAccepted | internal/playback/server.go:374-396 | every power of two from 1/8 to 16 is accepted, and no text means one |
| Playback.OverlookedExactly | internal/playback/fragment_reader.go:22-32 | whether the window leaves out a GOP with something to play can be told from its metadata: there is no end and it starts more than a day after the start |
| Playback.PlaybackExact | internal/playback/fragment_reader.go:22-32 | if no GOP reaches over the start from more than 2 s before, what the index lists is all that is wanted if and only if the playback has an end or every GOP starts at most a day after its start |
| Playback.LongGOPMissed | internal/playback/fragment_reader.go:22-32 | a GOP that does reach over the start, by more than its last frame can be early, makes a playback below four times the speed incomplete |
| Playback.PaceKept | internal/playback/server.go:230-243 | the summed delays are the recorded time over the speed, short by less than 1 ns per sample |
| Playback.ExpectedAscending | internal/playback/server.go:178-253 | the samples to send ascend in time |
| Retention.CleanupCamera | internal/recorder/retention.go:82-140 | the day loop's deletions of objects and index entries, with queries, object deletions and index deletions that fail |
| Retention.CleanupSafe | internal/recorder/retention.go:82-140 | with any cutoff zone, writer offset and failures, only entries of the camera from the scanned days up to the cutoff go; if no deletion fails, only those a western writer filed under the day before stay |
| Retention.CleanupExact | internal/recorder/retention.go:82-140 | when nothing fails, for any cutoff zone and writer offset, exactly which entries go: one between the first scanned day and the cutoff is left if and only if no scanned day before its own sees an entry and it is filed under the day before, or lies in the cutoff's own date |
| Retention.WesternEntryLeft | internal/recorder/retention.go:82-140 | with every writer west of UTC an entry at the start of the first scanned day is left |
| Retention.EasternCleanup | internal/recorder/retention.go:82-140 | with a writer not west of UTC a cleanup is one deletion from 30 days before the cutoff's date through the cutoff, made exactly when the camera has an entry in the scanned days; nothing of these up to the cutoff stays |
| Retention.LiveFragmentsKept | internal/recorder/retention.go:97-120 | no fragment of a GOP that ends after the cutoff is deleted, whatever the zones are and whichever deletions fail |
| Retention.DayTakesUp | internal/recorder/retention.go:97-120 | on each scanned day whose query succeeds the cleaner takes up exactly the entries, of the table as it is then, that the scan sees and that end by the cutoff |
| Retention.DeletedExactly | internal/recorder/retention.go:82-140 | whatever fails: a key is handed to the storage as a fragment if and only if it is that of an entry taken up on some day, and as an init segment if and only if it is that of such an entry whose fragment could be deleted |
| Retention.FragmentsExact | internal/recorder/retention.go:82-140 | when nothing fails, that is exactly the entries that end by the cutoff and are seen on the first scanned day that sees any |

## Left out

- UnitsRoundTrip: the MP4 library is taken to carry sync flag, duration and data of a sample faithfully; composition offsets and the legacy fragment format are not modelled.
- InitRoundTrip: speaks of the metadata payload's bytes; their JSON decoding and the content of the standard boxes are library matters.
- RunRefines: supposes that no builder or Submit fails; the failing paths are in the state functions, and `FailedSubmitLosesInit` shows what they cost.
- WriterSafe: models the blocking strategy; the drop strategies and a Submit refused for memory are not in the step machine.
- LiveFragmentsKept: speaks of fragments; init segments shared with younger fragments may be deleted and are not protected.
- RecordedThenPlayed: supposes that the compensation worker has caught up, that no fallback or deletion has touched the fragments' keys, and that the fragment library decodes what it encodes.
- InitTravelsExactly: supposes that init segments can be built; `OwnCodingExactly` says what a failure to build one means for the jobs.
- Compensate: a compensated entry overwrites a newer Put of the same key, as in the code; the model proves where its file comes from, not that it is the newest.
- QuotaSafe: int64 overflow of the counter is not modelled, and neither is UpdateMetrics, which overwrites the counter.
- ShouldUseFallback: atomic in the call-by-call model; the breaker's own results take the probe apart from the lock.
- GetEntry: models the entry lookup of Get; volume locations, their cache, byte ranges and listings are left out.
- Time zones with a changing offset (daylight saving) are left out; an offset is fixed.
- The events bucket, key length limits, database opening and closing are left out.
- The fallback store is a parameter that registers an entry of its own or fails.
- SHA-1, MD5, JSON, the MP4 library and the store's pages and transactions are left out; MD5 is a function parameter.
- Aliasing of sample slices (copySample) does not arise with values.
- Submit racing Close, and ProcessSample interleaving with Stop, are left out: calls of one recorder are atomic.
- Context cancellation, timeouts and backoff delays are left out; only the number of attempts counts.
- RTP sending, prefetching, sessions, range headers, the REST API, schedules, snapshots, pressure levels and configuration are left out.
