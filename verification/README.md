# Verification of the upload store

This project models the upload store of `tn-file-upload` and its two front ends in Dafny, and proves
what clients rely on: that a reported checksum and length are those of the bytes the client sent, that
nothing unfinished is ever shown, that concurrent requests, the stale-upload reaper, restarts and I/O
faults do not change what an upload answers, and that downloads deliver what was uploaded.

The store keeps `{id}.data` and `{id}.meta` files in one flat directory, and a map of in-flight
hashers in memory. An upload is `create`, any number of `append`, then `finalize` or `abort`. The
model has two grains:

- **Whole operations.** `StoreModel` gives every storage operation as a function on a store and proves
  an invariant over every sequence of calls, evictions and restarts, in any order. `LocalStorage` is
  the same store as a class that changes a directory of named files and a map in place; each method is
  proved to be the operation of that name. `FrontEnds` drives that class as the gRPC and REST handlers
  do, and proves each handler's answer and what it leaves behind.
- **Single calls and lock sections.** `Interleaving` splits each operation at every filesystem call
  and every lock section, with partial writes, short reads and failing calls. `InterleavedRuns` lets
  any number of uploads, deletes, downloads, sweeps, cancellations and restarts take such steps in any
  order. `Guarantees` states what holds in every state that can be reached.

`UploadContract` is what both grains are proved against: the answer an upload is owed, as a function
of its own messages. `StreamingHash` is the block-buffered hasher of FIPS 180-4 (sections 5.1.1,
5.2.1 and 6.2) over an arbitrary compression step; the rest of the project works with any digest that
streams, and this one is proved to. `Paths` resolves paths in a tree of directories; `FileNames` uses
it for the rule on client-supplied names and for which entries of the storage directory an id leads
to, and covers the directory as two maps. `Liveness` shows that every upload which keeps being served
is answered, `Completion` the same for deletes and downloads, `Leftovers` what a failed upload answers
and leaves, told by the call that failed, and `ListingRuns` what a listing may show while others act,
and exactly when it fails. `Timestamps` and `Listing` cover the order of a listing, `Reaper` the timing
of the sweeps, and `DownloadPipe` the bounded channel behind a gRPC download.

Ids reach the store as clients spell them, and the store joins them to its directory unchecked
(`src/storage/local.rs:100-106`). So `./` followed by an id leads to that id's files: reads and deletes
under either spelling act alike, and the model resolves every id before it acts. The map of hashers,
though, goes by the spelling. An append under another spelling reaches the file and not the hasher;
`StoreModel.FinalizeTellsTheTruth` says exactly what `finalize` then reports, and
`StoreModel.DetourShows` shows it. The front ends append and finalize only under the ids they were
given, so the uploads they serve are not affected.

Assumptions: a new UUID version 7 was never handed out before (section 5.7 of RFC 9562), is not empty
and holds no slash; there are no links in the file tree, and nothing in the storage directory is a
directory; a record is written in one piece, and a filesystem call that fails has no effect, except
that a failing write may have written part of its chunk; clients delete only uploads they have been
shown, under any spelling of their ids; a read delivers any positive number of bytes that fits, and
none only at the end of the file; asked for chunks of 0 bytes, the stream library reads with a buffer of
its own choice; a directory scan hands out once each entry that is there all the time.

Where the code and its documentation part, the model follows the code.
`docs/rationale/0001_architecture.md:87` says that the server aborts when the stream errors. The gRPC
handler does; the REST handler returns without aborting when reading the body fails
(`src/rest.rs:183-187`). `FrontEnds.RestUpload` states on the request alone when something is left: the
file name is good, and reading fails before the body passes the limit. No reader is shown what is left.
Nothing rejects an append to a finalized id, so a record can fall short of its file, by exactly the
bytes appended since it was written. Under other spellings, a finalize can also write a checksum that
misses bytes, and an id can be finalized and keep its hasher. `StoreModel.RecordTellsIff` says exactly
when. Neither front end makes such calls, only code that calls the storage API itself could; through
the server every completed download is as long as its record declares
(`Guarantees.DownloadsAreWhole`).

## Model

| member | source | states |
|---|---|---|
| StreamingHash.UpdateAbsorbs | src/storage/local.rs:212 | feeding bytes to a hasher that absorbed `m` gives the hasher that absorbed `m` and those bytes, wherever block boundaries fall |
| StreamingHash.PaddingIsStandard | src/storage/local.rs:234 | the padding is a 1-bit, zeros and the length in bits as a 64-bit big-endian number, and no more than fills up a block of 64 bytes |
| StreamingHash.BigEndianValue | src/storage/local.rs:234 | big-endian bytes stand for the number itself, modulo what their width holds |
| StreamingHash.BlocksOf64 | src/storage/local.rs:234 | the standard's fold takes the padded message 64 bytes at a time |
| StreamingHash.FinishIsSha256 | src/storage/local.rs:234 | the hasher's answer is the standard's digest of everything it absorbed, with one padding block or two |
| StreamingHash.ChunkingIrrelevant | src/storage/local.rs:242-252 | every way of cutting a byte string into chunks, empty ones included, gives the same digest |
| StreamingHash.Sha256Streams | src/storage/local.rs:228-234 | block-buffered SHA-256 meets the law that the store's proofs need |
| StreamingHash.Sha256Digests | src/storage/local.rs:234 | the digest the store reports with it is the standard's |
| Paths.SegmentsSplit | src/storage/local.rs:113-114 | the segments a name is judged by are exactly what stands between its slashes: joined again they give the name, and none holds a slash |
| Paths.WhereToStart | src/storage/local.rs:100-106 | a path whose first character is "/" is resolved from the root, any other from the storage directory |
| Paths.ResolveInFolder | src/storage/local.rs:100-106 | a path with a file ending resolves to its last segment, looked up in the directory that the segments before it lead to |
| FileNames.ValidateFileName | src/storage/local.rs:109-125 | a name is refused exactly when it is empty, rooted, starts with "." as a whole segment, or has a ".." segment |
| FileNames.AllNormalMeansSafe | src/storage/local.rs:113-123 | all components of a non-empty name are normal exactly when it has no root, no leading "." segment and no ".." segment |
| FileNames.SafeNamesStayInside | src/storage/local.rs:113-123 | joined to any directory of any tree, an accepted name leads nowhere outside that directory (the store itself only records the name) |
| FileNames.RootRefused | src/storage/local.rs:109-125 | a name whose first character is "/" is refused as a traversal, and the empty name as empty |
| FileNames.DotRefused | src/storage/local.rs:113-123 | the converse fails: "./a" is refused although it stays inside |
| FileNames.UpRefused | src/storage/local.rs:113-123 | so is "a/../b" |
| FileNames.NamesNeverCollide | src/storage/local.rs:100-106 | as names, data and record entries never coincide, and either name determines its id |
| FileNames.NamesReach | src/storage/local.rs:100-106 | resolved as paths, both names of an id lead to the entries of one and the same id, or to no entry of the directory |
| FileNames.IdsMeetIff | src/storage/local.rs:100-106 | two ids meet in a file exactly when their names are looked up in the same existing directory and end in the same segment; data and records never meet |
| FileNames.PlainIdsApart | src/storage/local.rs:100-106 | different ids without a slash never meet |
| FileNames.ReachesIff | src/storage/local.rs:100-106 | a relative id without ".." leads to the files of x exactly when x is its last segment and all others are empty or "." |
| FileNames.DotSlashReaches | src/storage/local.rs:100-106 | "./" before an id leads to the files of that id, under a different name |
| FileNames.StaysInsideIff | src/storage/local.rs:100-106 | the names of an id lead into the storage directory exactly when they lead to the entries of some id |
| FileNames.ParentLeaves | src/storage/local.rs:100-106 | "../" before a name leads out of it, to files beside the directory |
| FileNames.RepresentsUnique | src/storage/local.rs:100-106 | a directory stands for exactly one pair of maps from id to data and to record |
| FileNames.PutData | src/storage/local.rs:148 | writing a data file changes one entry of the data map and nothing else |
| FileNames.PutRecord | src/storage/local.rs:162 | writing a record changes one entry of the record map and nothing else |
| FileNames.DropData | src/storage/local.rs:338 | removing a data file removes one entry of the data map and nothing else |
| FileNames.DropRecord | src/storage/local.rs:339 | removing a record removes one entry of the record map and nothing else |
| FileNames.ExtensionFindsRecords | src/storage/local.rs:347-354 | the extension filter of `list` picks exactly the record entries, but for the empty id |
| UploadContract.UploadSucceedsIff | src/service.rs:134-188 | an upload succeeds exactly when its stream is one good header, then only chunks and empty messages whose bytes fit; the answer is then their total length and digest |
| UploadContract.HeaderAnswers | src/service.rs:134-150 | the answer to an empty stream, to a first item that is data or broken, and to a first message with an empty or unsafe name |
| UploadContract.FirstOffenderDecides | src/service.rs:151-175 | the error is that of the first offending message, and no later message matters |
| UploadContract.FailureHasOffender | src/service.rs:151-182 | after a good header an upload fails exactly when some message is a first offender |
| UploadContract.ChunkingDoesNotMatter | src/service.rs:160-166 | two deliveries of the same bytes, cut differently, over either front end, succeed together with the same answer |
| UploadContract.TransportFailsIff | src/service.rs:151-159 | after a good header a request fails for its transport exactly when the first thing wrong with its body is a broken item |
| UploadContract.ReadFailsIff | src/rest.rs:183-187 | over REST that is exactly when the name is good and some read fails, with only pieces before it that fit |
| UploadContract.OneBrokenRead | src/rest.rs:183-187 | a body whose first read fails is such a request |
| StoreModel.CreateOutcome | src/storage/local.rs:142-175 | `create` answers with the new id exactly when the name is accepted, and has then made an empty file, an unfinished record with the given name and type, and a fresh hasher; otherwise it changes nothing |
| StoreModel.OnlyFinalizeWrites | src/storage/local.rs:218-275 | only a finalize changes a record, and then length, checksum, time and mark, never its id, name or type |
| StoreModel.OthersUntouched | src/storage/local.rs:142-341 | a call changes the files of no id but the one its own id leads to, and the hasher of no id but its own |
| StoreModel.RemovesIff | src/storage/local.rs:277-341 | a delete or an abort removes the files of an id exactly when the id it is given leads to them, however it is spelled |
| StoreModel.StepKeepsSound | src/storage/local.rs:142-341 | every operation, eviction and restart, under any ids, keeps data and records paired, files within the limit, and declared lengths within the files |
| StoreModel.StepKeepsInv | src/storage/local.rs:142-341 | as long as appends and finalizes name ids without a slash, every step also keeps each hasher equal to its file and each finalized record true and without a hasher |
| StoreModel.FinalizeTellsTheTruth | src/storage/local.rs:218-275 | after any calls under any ids, `finalize` succeeds exactly when its id leads to files, and reports their true length; its digest is that of the file, or, while the hasher is there, of the bytes appended under the id itself, which are those of the file exactly when none came under another spelling |
| StoreModel.StraightRunsAreTrue | src/storage/local.rs:218-275 | if no call appends bytes to the file under another spelling of its id, the digest is that of the whole file |
| StoreModel.DetourShows | src/storage/local.rs:206-213 | an append under "./" and the id leaves the hasher behind: `finalize` reports one byte and the digest of none, and would report the right digest had the hasher been evicted |
| StoreModel.RecordTellsIff | src/storage/local.rs:177-275 | after any calls under any ids, a finalized record falls short of its file by exactly the bytes appended since it was written; its checksum is of the prefix it declares exactly when the finalize that wrote it missed no bytes that came under another spelling; the id still has a hasher exactly when nothing under its own name, no eviction and no restart dropped it; and a hasher has absorbed the whole file exactly when nothing came under another spelling |
| StoreModel.RecordsDescribeData | src/storage/local.rs:177-275 | in every reachable state no file passes the limit and no record declares more than its file holds; if appends and finalizes used the id itself, its hasher has absorbed exactly the file, and its finalized record describes a prefix of the data and has no hasher (`StoreModel.RecordTellsIff` says exactly when) |
| StoreModel.LengthGoesStaleIff | src/storage/local.rs:177-215 | the declared length falls behind the data exactly on a non-empty append that leads to the file and fits; finalizing again makes the length right, and says nothing of the checksum |
| StoreModel.LateAppendShows | src/storage/local.rs:177-215 | create, finalize, append one byte: the record declares 0 bytes and the file holds one |
| StoreModel.RepairSpoils | src/storage/local.rs:218-275 | a record that describes its whole file, finalized once more with no append in between, ends with the checksum of no bytes |
| StoreModel.FinalizedWithHasher | src/storage/local.rs:226-232 | create, then finalize under "./" and the id: the upload is finalized and its hasher is still there |
| StoreModel.AbortFailsOnlyAstray | src/storage/local.rs:277-286 | `abort` fails only on ids that lead to no files of the directory, and then only drops the hasher of the id |
| StoreModel.AbortThroughFile | src/storage/local.rs:277-286 | it does fail on an id whose path runs through a data file |
| StoreModel.RemovalEffects | src/storage/local.rs:277-341 | `abort` clears the files its id leads to and its own hasher; `delete` clears the files, leaves the hasher, and fails exactly when there is no record |
| StoreModel.RemovedForGood | src/storage/local.rs:330-341 | once files are removed, every later call that leads to them but `abort` answers not-found, whatever happened in between |
| StoreModel.CacheDoesNotShow | src/storage/local.rs:226-253 | two stores with the same disk and different hasher maps answer every call alike and stay alike on disk, when appends and finalizes name ids without a slash |
| StoreModel.EvictionsInvisible | src/storage/local.rs:226-253 | a run with evictions and restarts anywhere gives the same answers and the same disk as the same calls without them, when its appends and finalizes name ids without a slash |
| StoreModel.AppendOutcome | src/storage/local.rs:183-202 | `append` to existing files is refused exactly when the bytes would pass the limit; a refusal changes nothing and reports the sum capped at the largest 64-bit number |
| LocalStore.HashFile | src/storage/local.rs:242-252 | the fallback loop ends with the digest of the whole file under any pattern of short reads |
| LocalStore.LocalStorage.constructor | src/storage/local.rs:43-55 | opening an existing directory is a restart: the same files, no hashers |
| LocalStore.LocalStorage.RemoveFiles | src/storage/local.rs:338-339 | removing by path removes the two entries of the id that the given id leads to, and nothing else, and fails exactly when the path runs through a file |
| LocalStore.LocalStorage.Create | src/storage/local.rs:142-175 | the new directory and hasher map are those of `create` and the answer is the new id, or nothing changed and the name was refused |
| LocalStore.LocalStorage.Append | src/storage/local.rs:177-216 | the new directory and hasher map are those of `append`, with the 64-bit overflow check |
| LocalStore.LocalStorage.Finalize | src/storage/local.rs:218-275 | the new directory and hasher map are those of `finalize`, whether or not the hasher is still there |
| LocalStore.LocalStorage.Abort | src/storage/local.rs:277-286 | the hasher of the id and the files it leads to are gone and nothing else changed; it fails exactly when its path runs through a file |
| LocalStore.LocalStorage.Metadata | src/storage/local.rs:288-307 | every field of the finalized record that the id leads to, and not-found for every other id |
| LocalStore.LocalStorage.ReadChunks | src/storage/local.rs:309-328 | the chunks are non-empty, at most the chunk size if it is positive, and concatenate to the file that the id leads to |
| LocalStore.LocalStorage.Delete | src/storage/local.rs:330-341 | the data file and record that the id leads to are gone, the hasher map is untouched |
| LocalStore.LocalStorage.List | src/storage/local.rs:343-378 | exactly one entry for each id that `metadata` knows, with every field of its record, newest first |
| LocalStore.LocalStorage.EvictStale | src/storage/local.rs:79-91 | exactly the entries older than the time-to-live are evicted, and nothing else changes |
| Listing.SortIsNewestFirst | src/storage/local.rs:375-376 | the stable sort by descending upload time yields a list in which no later record is newer |
| Listing.SortIsStable | src/storage/local.rs:375-376 | records of the same upload time stay in directory order |
| Listing.ListedByTime | src/storage/local.rs:375-376 | for records stamped with printed times, newest-first by string is newest-first by time |
| Timestamps.PrintShows | src/storage/local.rs:256 | a printed time reads year, month, day, hour, minute and second in fixed digits, then the fraction and "+00:00" |
| Timestamps.FractionShows | src/storage/local.rs:256 | the fraction is left out when zero, and else has the fewest of 3, 6 and 9 digits that show it exactly |
| Timestamps.PrintedOrderIsTimeOrder | src/storage/local.rs:256 | printed UTC times with 0, 3, 6 or 9 fraction digits compare as strings exactly as the times compare |
| FrontEnds.HandleUpload | src/service.rs:129-189 | the gRPC handler gives the answer its messages call for; success answers with the new id and adds exactly one finished file and record, with the name and type of the first message; failure leaves files, records and hashers as they were |
| FrontEnds.SendBody | src/rest.rs:183-192 | the REST body loop appends every piece in order or fails with the first offending piece, aborting on a refused append and not on a read error |
| FrontEnds.RestUpload | src/rest.rs:162-209 | the REST handler stores the field's name and type, or "unnamed" and "application/octet-stream", and refuses a name that is not safe; it gives the same answer for the same upload; if the name is good and reading fails before the limit is passed, it leaves one unfinished upload that no reader is shown, and every other failure leaves nothing |
| FrontEnds.FrontEndsAgree | src/rest.rs:180-200 | the same upload over either front end, however cut, succeeds over both, with equal length and checksum and the same file and record up to id and time, or fails over both and leaves nothing |
| FrontEnds.RestDownload | src/rest.rs:295-321 | a download succeeds exactly when `metadata` does, streams the bytes of the file that the id leads to, and declares the recorded length, never more than it streams |
| FrontEnds.UploadedIsThere | src/service.rs:177-188 | after success, reading gives the bytes sent, and `metadata` gives the id, the name and type of the first message, their length and digest, and the time |
| FrontEnds.RoundTrip | src/storage/local.rs:309-328 | until a call leads to its files, an upload keeps its content and record, under every id that leads to it, whatever else is called under any ids |
| Interleaving.UploadKeeps | src/storage/local.rs:142-286 | every single call or lock section of an upload, failing or not, keeps the exact relation between file, record, hasher and what has been sent, and keeps the upload on course for the answer it is owed |
| Interleaving.AnyPartIsWritten | src/storage/local.rs:200-202 | a write may be of any length, and a failing write may have written any part |
| Interleaving.AnyPartIsRead | src/storage/local.rs:245-251 | a read may be of any length up to the 64 KiB buffer |
| Interleaving.ReadsFitBuffer | src/storage/local.rs:245-251 | and of no more |
| Interleaving.EveryStepIsProgress | src/storage/local.rs:245-251 | every step of an unfinished upload brings it strictly closer to its end, however short its reads and writes are |
| Interleaving.EvictionHarmless | src/storage/local.rs:79-91 | losing the hasher between any two steps of an upload breaks nothing |
| InterleavedRuns.VisibleIsPublished | src/storage/local.rs:258-265 | a record that readers accept belongs to an upload whose `finalize` has written it |
| InterleavedRuns.EveryScheduleRuns | src/storage/local.rs:142-341 | every sequence of steps is the schedule of a run, so what holds of runs holds of every schedule |
| InterleavedRuns.StepKeepsInv | src/storage/local.rs:142-341 | every step of every actor keeps the invariant of the whole server |
| InterleavedRuns.RunKeepsInv | src/storage/local.rs:142-341 | so it holds after every schedule |
| Liveness.UploadsAnswer | src/service.rs:151-188 | in any endless schedule of all actors, an upload that is served again and again, is not cut off and meets no fault itself ends with the answer its messages call for, whatever short reads, short writes, evictions and faults of others occur |
| Completion.EveryScheduleHasCourse | src/storage/local.rs:142-341 | every endless schedule leads through some sequence of states, so what follows is about all of them |
| Completion.DeleteEnds | src/storage/local.rs:330-341 | in any endless schedule, a delete that keeps being served without a fault or restart looks for the record once; if it finds it, it ends with file and record gone, and otherwise answers not-found |
| Completion.DeleteMissesIff | src/storage/local.rs:330-337 | in every run a delete answers not-found exactly when its look for the record failed or the record was gone at that moment |
| InterleavedRuns.AnyPartIsDownloaded | src/storage/local.rs:318-327 | each read of a download may get any part of what is left |
| Completion.DownloadEnds | src/storage/local.rs:309-328 | a download that keeps being served without a fault or restart ends with all the uploaded bytes exactly when it found a finalized record and then the file, and otherwise fails |
| Guarantees.SuccessTellsTheTruth | src/service.rs:177-188 | in every schedule, an upload that reports success reports the length and digest of its own chunks in order |
| Guarantees.ChecksumIsSha256 | src/storage/local.rs:206-234 | with the block-buffered hasher the reported checksum is the SHA-256 of the bytes sent |
| Guarantees.ReportedIsComplete | src/storage/local.rs:288-307 | whenever a reader sees an id, its upload has succeeded, the record is right and describes the full content, and the file is there exactly unless a delete of it is half done |
| Guarantees.PublishedIsReported | src/storage/local.rs:288-307 | a successful upload is reported and its file is there, until a delete of it has passed the removal of the data |
| Guarantees.OthersDoNotMatter | src/service.rs:129-189 | an upload that meets no I/O fault ends with the answer its own messages call for, whatever the others do |
| Guarantees.SameAsAlone | src/service.rs:129-189 | the same request in two schedules ends with the same result, record and content, up to id and time |
| Guarantees.FailureLeavesNothing | src/service.rs:154-171 | an upload that has not succeeded is never reported; one that failed and cleaned up has left no file, record or hasher; one that met no I/O fault has failed to clean up exactly when it is a REST request with a good header whose body breaks before anything else is wrong with it, and its unfinished file and record are then still there |
| Leftovers.FirstFaultDecides | src/storage/local.rs:177-275 | the first fault decides the answer of an upload: not-found if it hit the look for a record, an I/O error otherwise, and the offence itself if the upload was already being aborted; no later fault changes it |
| Leftovers.LitterIff | src/service.rs:151-175 | an upload ends without cleaning up exactly when a call of `create` or of an abort failed on it, `finalize` failed over gRPC, or its REST body could not be read on |
| Leftovers.LeftoversStay | src/storage/local.rs:142-286 | what is then left, and stays: the data file unless `create` could not make it or the abort had removed it, the record unless `create` had not written it |
| Guarantees.FilesStayWithinLimit | src/storage/local.rs:183-202 | no data file passes the limit, not even between two writes of one chunk |
| Guarantees.DownloadsAreWhole | src/storage/local.rs:309-328 | a completed download has delivered exactly the bytes uploaded, and as many as its record declared, even across a delete; one under way, a prefix |
| Guarantees.DeletedStaysDeleted | src/storage/local.rs:330-341 | after a delete has succeeded the id never has a file or record again |
| Guarantees.StampIsWhenPublished | src/storage/local.rs:256-265 | the upload time in a record is the time read by the step that made it visible |
| Guarantees.DisclosedIff | src/service.rs:184-188 | clients have been shown exactly the uploads that have succeeded |
| Guarantees.EveryUploadWasBegun | src/service.rs:129-150 | every upload is the request that some client began, over that front end and with those messages |
| Guarantees.ReadersAreShown | src/storage/local.rs:288-307 | whoever reads a finalized record has been shown its id |
| Guarantees.RestartEndsAll | src/storage/local.rs:43-55 | a restart ends everything under way, loses every hasher, and leaves the directory alone |
| Guarantees.SweepAndCancel | src/storage/local.rs:79-91 | a sweep takes the hashers it names and nothing else; a client that goes away stops its own upload only |
| Guarantees.PublishedStaysPublished | src/storage/local.rs:218-275 | a published upload keeps its answer and its bytes for ever |
| Guarantees.SmoothRunIsExact | src/storage/local.rs:330-341 | without faults and restarts every finished upload got the answer it was owed, and a reported file is whole except between the two removals of a delete in progress |
| ListingRuns.ListingIsTrue | src/storage/local.rs:347-373 | every record of a listing that runs among other actors is the record of a successful upload and describes all its bytes |
| ListingRuns.ListedOnce | src/storage/local.rs:347-373 | no upload is listed twice |
| ListingRuns.ListingIsComplete | src/storage/local.rs:347-373 | an upload that was reported before the listing began and still has its record when it ends is listed with that record |
| ListingRuns.ListingFailsIff | src/storage/local.rs:356 | a listing fails for a missing record exactly when an upload it was handed has been aborted or deleted before its record is read |
| ListingRuns.ListingCanFail | src/storage/local.rs:356 | it happens: an upload with two headers is aborted after the listing was handed its entry |
| Reaper.YoungEntriesStay | src/storage/local.rs:79-91 | no sweep takes an entry before its time-to-live is over |
| Reaper.NoEntryOutlivesWindow | src/storage/local.rs:71-91 | while the reaper runs no entry is older than the time-to-live, half of it again, and the overrun of a sleep |
| Reaper.SettledAreGone | src/storage/local.rs:224-227 | an upload that was finalized or aborted has no entry and never gets one again |
| Reaper.SweepsAreApart | src/storage/local.rs:71-76 | two sweeps are at least half the time-to-live apart |
| Reaper.MapStaysSmall | src/storage/local.rs:66-98 | the map never holds more entries than uploads were created within that window |
| Reaper.WindowIsReached | src/storage/local.rs:71-91 | the window is tight: an entry can reach exactly that age |
| Reaper.WithoutReaper | src/storage/local.rs:73-75 | once the reaper is cancelled an entry can reach any age |
| DownloadPipe.DeliveredInOrder | src/service.rs:75-92 | in every run nothing is lost, repeated or reordered, the channel holds at most 128 items, and a client that stays gets the whole stream |
| DownloadPipe.NeverStuck | src/service.rs:77-90 | until both sides are through, one of them can move without anyone hanging up |
| DownloadPipe.HangUpStopsReading | src/service.rs:86-89 | once the client has hung up, the task reads at most one more item |
| DownloadPipe.EveryMoveCounts | src/service.rs:79-89 | every move brings the download closer to its end |
| DownloadPipe.CanBeFinished | src/service.rs:77-90 | every run can be continued to its end |
| DownloadPipe.BytesDelivered | src/service.rs:75-92 | read as bytes, the client holds a prefix of the file, and all of it once it has seen the end |

## Left out

- LocalStore.LocalStorage.Create: takes the new id and the time as parameters, because the identifier and clock libraries are not part of this model.
- FrontEnds.HandleUpload: drives whole operations without I/O faults, so the branch for a failing `finalize` is not in it; module Interleaving has that branch for both front ends.
- FrontEnds.RestUpload: the same.
- FrontEnds.RestDownload: the headers that carry content type and file name are not in it.
- LocalStore.LocalStorage.List: is one step, in which no record can vanish; module ListingRuns has the listing call by call.
- Reaper.WindowIsReached: is stated for an even time-to-live; the store's is 30 minutes.
- InterleavedRuns.StepKeepsInv: deletes go only to uploads a client has been shown, under any spelling; a client that guesses the id of an upload in progress is not modelled at this grain (StoreModel allows it, with whole operations).
- LocalStore.LocalStorage.Metadata: the model assumes that no files that ids can lead to exist outside the storage directory, so an id that leads out of it (FileNames.StaysInsideIff says which do) is not found; the code would answer from the files there.
- LocalStore.LocalStorage.ReadChunks: the same; the code would serve a file there.
- LocalStore.LocalStorage.Delete: the same; the code would remove the files there.
- LocalStore.LocalStorage.RemoveFiles: the same.
- Ids that the file system refuses for their length or characters.
- The compression step, its constants and the hexadecimal rendering of SHA-256 are parameters.
- JSON encoding of a record: a record is a value, so a record that fails to parse does not occur.
- Torn record writes, and several server processes on one directory.
- The status codes that errors are mapped to, and error texts beyond the data they carry.
- Authentication, request ids, health checks, configuration, routing, tracing, the web client, the demo client and the build.
