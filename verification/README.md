# Panther: a Dafny model of its partition, batching, pipeline and API code

Panther is a security-monitoring platform on AWS, written in Go. This project models the parts of it whose correctness
rests on more than one function and proves what they promise:

- **Glue partitions** (`pkg/awsglue`): the walk over hourly, daily and monthly time bins on the Gregorian calendar, the S3
  prefixes that name the bins, the parser that reads object keys back, and the worker pool that brings a table's
  partitions up to date.
- **Batch wrappers** (`pkg/awsbatch`): SQS, Kinesis, S3 and DynamoDB requests of limited size, with retries of what failed.
- **Pipelines**: the S3-to-SQS queue tool (`cmd/opstools/s3queue`) and the deletion of CloudFormation stacks
  (`tools/mage/teardown.go`).
- **Generators**: the SQL view over all tables (`tools/athenaviews`) and Glue types inferred from Go types
  (`tools/cfngen/gluecf`).
- **API plumbing** (`pkg/genericapi`): redaction of logged requests, route verification and dispatch.

`dafny verify dfyconfig.toml` checks everything.

## How things are modelled

- A time is an integer count of nanoseconds since Go's zero time, in UTC. A string is a sequence of characters, one per
  byte. Integers are unbounded except where the source's width shows: `Atoi` on a 64-bit platform, and the unsigned
  byte counter of the queue tool.
- Objects whose fields the source updates in place (batch requests and their inputs, DynamoDB's key lists, view columns,
  the router and its errors) are classes; the other loops are methods proved against functions.
- A service is a class whose method answers nondeterministically within a stated contract: a response splits the request
  into accepted and failed items, and a call that reports an error accepts nothing. It keeps a log of its answers, so that
  a failure can be traced to one. `backoff.Retry` is ended by a success, by a permanent error, or when its retries are used
  up; how many there are is arbitrary. A listing's first page is empty only if nothing lies under the prefix.
- Goroutines and channels are state machines: `Can` says which events are possible, `Do` what they do, and a run is any
  sequence of possible events (`Runs`). Deadlock freedom is that a run which cannot go on has returned; termination is
  a measure that every event lowers.
- A panic is a result like any other.

## Where the code does not do what one would expect

The members named prove each of these: an input at which it happens, the exact condition under which it does, or both.

- `SendMessageBatch` stops at an oversized entry that stands right before an entry of at least 260000 bytes; what comes after
  is neither sent nor returned (`SqsBatch.HiddenEntry`, `SqsBatch.ReachesEndIff`). The comment in the source says that
  this happens only when all remaining entries are oversized.
- When a send fails, `SendMessageBatch` returns the entries after as many as were accepted. These are the ones that were
  not accepted only if the last entries of the failed request are pending and no oversized entry was met
  (`SqsBatch.SendMessageBatch`, `SqsBatch.WrongEntryReturned`).
- Without a consumer, `s3Queue` sends nothing. For up to 1000 files it returns, with nil unless the listing fails
  (`S3Queue.NoConsumerQueuesNothing`, `S3Queue.NilMeansQueued`); for more, on a good path, it blocks on the full channel
  and never returns (`S3Queue.ManyFilesBlock`, `S3Queue.EveryRunReturnsIff`).
- `destroyCfnStacks` returns only if the frontend stack is in its list, and leaves no goroutine behind only if it is there
  exactly once (`Teardown.EveryRunReturns`, `Teardown.ReturnMeansAllHandled`).
- The quiet mode of S3 leaves the counter of `DeleteObjects` at zero (`S3Batch.DeleteObjects`).
- `BatchGetItem` never asks for some keys of tables that share one `KeysAndAttributes` object when a full request is sent
  between them (`DynamoLoop.SharedObjectLosesKeys`). It asks for all keys if no object is shared or there are at most 100
  keys (`DynamoLoop.OwnAsksAll`, `DynamoLoop.SmallAsksAll`).
- Two log types that differ only in `.` and `_` share a table name, and the view loses a column
  (`AthenaViews.SharedNameLosesColumn`, `AthenaViews.FillsExactlyIff`).
- A field tagged `redact` is logged raw behind an interface (`Redact.InterfaceLeaks`, `Redact.LogsShowExactly`).
- A `uint64` becomes a `bigint`, which does not hold all its values (`GlueMeaning.LeastIntegerType`), and an embedded struct
  without fields leaves a text that is no type, unless it is alone (`GlueMeaning.TextReadsIff`).
- A nested struct type and table columns flatten embedded structs differently if one of them has no columns or is tagged
  `json:"-"` (`GlueSchema.FlatteningsAgreeIff`, `GlueSchema.EmptyEmbeddingStrays`). A custom mapping of an embedded type
  can make them differ too, unless name and mapping happen to spell the columns (`GlueSchema.MappedAloneAgreesIff`,
  `GlueSchema.MappedEmbeddingParts`). Only table columns panic on an embedded pointer
  (`GlueSchema.EmbeddedNonStructPanics`).
- A handler that `VerifyHandlers` accepts can still make `Handle` panic, by returning an error that cannot be tagged with
  its route (`Router.VerifiedPanics`, `Router.VerifiedPanicIff`).
- Partition prefixes and partition values disagree for every bin number that `Validate` rejects
  (`Partitions.PrefixSpellsKeys`).

## Model

| member | source | states |
|---|---|---|
| Calendar.DayNumberOfCivil | pkg/awsglue/partition.go:191 | counting days from the epoch by the calendar's successor rule and the closed form of `time.Date` number every day alike, before and after the epoch |
| Calendar.CivilOfDayNumber | pkg/awsglue/partition.go:191 | every valid date has exactly the day number of the closed form: dates and day numbers are in bijection |
| TimeBins.Next | pkg/awsglue/glue_timebin.go:46-61 | for every time and each bin the result is the least bin boundary strictly after the time; the monthly loop takes exactly as many steps as the month has days left, at most 30 |
| TimeBins.NextBinIsLeastBoundary | pkg/awsglue/glue_timebin.go:46-61 | the closed form of the next bin is the least boundary after any time, across leap years and year ends |
| TimeBins.SameFieldsIffSameBin | pkg/awsglue/glue.go:341-354 | two times share the calendar fields of their bin exactly when no bin boundary separates them |
| TimeBins.WalkCovers | pkg/awsglue/glue.go:245-247 | the producer's walk visits the bin of every time in its range |
| TimeBins.WalkDistinctBins | pkg/awsglue/glue.go:245-247 | no two steps of the walk are in the same bin |
| Partitions.PrefixSpellsKeys | pkg/awsglue/partition.go:80-89 | the time prefix is the `name=value/` join of partition keys and values exactly for the bins that `Validate` accepts |
| Partitions.PrefixSeparatesBins | pkg/awsglue/partition.go:73-89 | two times have the same prefix exactly when no boundary separates them, and otherwise neither prefix begins the other |
| Partitions.ListingSeesOneBin | pkg/awsglue/glue.go:322-335 | an object listed under the prefix of a bin lies under the prefix of no other bin |
| Partitions.ValuesNameBin | pkg/awsglue/glue.go:341-354 | partition values are equal exactly for times of one bin |
| Partitions.ValuesAreIntegers | pkg/awsglue/glue.go:341-354 | every partition column is declared as an integer, and every value that is written reads as one |
| Partitions.TableNames | pkg/awsglue/glue.go:153-157 | table names have no dots and no capital letters, such names stay as they are, and two log types share a table name exactly when they differ in case, dots and underscores alone |
| Partitions.ReadColumns | pkg/awsglue/partition.go:141-172 | reads two to four columns in a row; the early returns for four and five segments are unreachable |
| Partitions.GetPartitionFromS3 | pkg/awsglue/partition.go:114-194 | accepts exactly the keys of the specification and returns their partition; the late `Atoi` failures are unreachable |
| Partitions.KeyAcceptedIff | pkg/awsglue/partition.go:114-194 | a key is accepted if and only if it ends in `.json.gz` and begins with `logs` or `rules`, a table, a `year=` and a `month=` with integers; a day is read exactly if one follows, and an hour exactly if one follows the day |
| Partitions.GetPartitionLocation | pkg/awsglue/partition.go:91-98 | the loop builds the bucket, table and `key=value/` path of the partition |
| Partitions.AcceptedKeySpellsColumns | pkg/awsglue/partition.go:114-207 | an accepted key ends in `.json.gz`, spells out root, table and columns segment by segment and goes on after them |
| Partitions.LocationHoldsObject | pkg/awsglue/partition.go:91-98 | for every accepted key the partition's location is a proper prefix of the object's URL |
| Partitions.ParsePrintedKey | pkg/awsglue/partition.go:114-207 | round trip: a key written under a bin's prefix parses back to its database, table, exactly the bin's columns and, for hourly bins, the time truncated to the hour |
| SyncPartitions.PartitionHasData | pkg/awsglue/glue.go:327-337 | true exactly when the first page shows a non-empty object; later pages are never looked at |
| SyncPartitions.StepKeepsInv | pkg/awsglue/glue.go:179-254 | every event keeps the invariant: bins taken plus queued are those pushed, one error per worker that failed and reported, one slot per worker, catalog as the outcomes say |
| SyncPartitions.ErrorChannelHasRoom | pkg/awsglue/glue.go:181-213 | a worker that is about to report always finds room in the error channel |
| SyncPartitions.NoDeadlock | pkg/awsglue/glue.go:179-254 | in every reachable state short of the return some event is possible |
| SyncPartitions.EveryRunReturns | pkg/awsglue/glue.go:179-254 | every run, in any interleaving and with any failures, has bounded length, and one that cannot go on has returned |
| SyncPartitions.NilMeansSynced | pkg/awsglue/glue.go:186-254 | if nil is returned each bin was taken exactly once; partitions that existed have the table's columns and serde info, and their own location and everything else as before; missing ones were created exactly when the first object listed was not empty, with the table's columns, serde info and other fields at the place of their own prefix; no other partition changed |
| SyncPartitions.ErrorMeansFailure | pkg/awsglue/glue.go:249-254 | an error is returned if and only if some call of a worker failed during the run, and it is the error of such a call, the first one reported |
| SyncPartitions.CallKeysDistinct | pkg/awsglue/glue.go:175-177 | the bins of one call have different partition values, so workers never meet on a partition |
| SyncPartitions.SyncCoversEveryTime | pkg/awsglue/glue.go:160-254 | after a nil return every time from the start of the start day (or else of the day the table was created) to the end of today falls in exactly one visited bin; if its partition existed it now has the table's columns and serde info and is otherwise as it was; if not, it is there only for a non-empty object under its prefix, and missing only if the prefix holds nothing or some empty object |
| SyncPartitions.SyncTouchesNothingElse | pkg/awsglue/glue.go:160-254 | after a nil return every catalog entry that is not of a time in that span is as it was |
| SyncPartitions.CreatedForItsOwnData | pkg/awsglue/glue.go:275-338 | a partition is created only if a non-empty object lies under its prefix and under the prefix of no other bin |
| Batching.SelectSplits | pkg/awsbatch/sqsbatch/send_message_batch.go:57-79 | the accepted and the failed items of a response make up the request, as multisets and in number |
| SqsBatch.StretchWithinLimits | pkg/awsbatch/sqsbatch/send_message_batch.go:105-131 | a batch stays within 10 entries and 260000 bytes, and an oversized entry can only be met first |
| SqsBatch.StretchMaximal | pkg/awsbatch/sqsbatch/send_message_batch.go:105-131 | a batch ends only at the end of the entries, at ten entries, or because the next entry would bring it to 260000 bytes |
| SqsBatch.BatchesWithinLimits | pkg/awsbatch/sqsbatch/send_message_batch.go:102-148 | every planned request has 1 to 10 entries and at most 260000 bytes |
| SqsBatch.PlanSplitsPrefix | pkg/awsbatch/sqsbatch/send_message_batch.go:102-148 | the prefix consumed is an order-preserving interleaving: the requests are exactly its fitting entries, the entries set aside exactly its oversized ones |
| SqsBatch.ReachesEndIff | pkg/awsbatch/sqsbatch/send_message_batch.go:126-137 | the pagination reaches the end exactly when no oversized entry stands right before one of at least 260000 bytes |
| SqsBatch.HiddenEntry | pkg/awsbatch/sqsbatch/send_message_batch.go:133-137 | two oversized entries in a row hide everything after them |
| SqsBatch.FailedByIds | pkg/awsbatch/sqsbatch/send_message_batch.go:64-77 | with distinct ids, picking entries by the failed ids gives exactly the failed entries, in order |
| SqsBatch.Request.Send | pkg/awsbatch/sqsbatch/send_message_batch.go:48-82 | one request; the counter grows by the number accepted and the input keeps exactly the failed entries; a refused call changes nothing |
| SqsBatch.Request.Retry | pkg/awsbatch/sqsbatch/send_message_batch.go:139 | it succeeds exactly if the last answer of the service is a success, and gives up only on a call error or once all retries are used up; over all attempts every entry is accepted once or still pending, and every request stays within the limits |
| SqsBatch.FillBatch | pkg/awsbatch/sqsbatch/send_message_batch.go:103-131 | the inner loop with its look-ahead builds exactly the next stretch of the plan |
| SqsBatch.SendBatches | pkg/awsbatch/sqsbatch/send_message_batch.go:102-148 | the outer loop carries out the plan request by request: as many successes as planned requests, or fewer and then an answer that is a failure; on failure the requests begun are accepted or pending |
| SqsBatch.SendMessageBatch | pkg/awsbatch/sqsbatch/send_message_batch.go:85-163 | it returns a send failure exactly if the service ends with a refusal or failed entries, and otherwise every planned request went through; nil means that every entry was accepted exactly once; a too-long error returns the oversized entries met and the fitting ones were accepted; a failure returns as many entries as were not accepted if none is oversized, and exactly the ones that were not accepted if and only if nothing oversized was met and the last entries of the failed request are pending |
| SqsBatch.WrongEntryReturned | pkg/awsbatch/sqsbatch/send_message_batch.go:139-146 | at an input: two small entries make one request, of which the service takes the second and then refuses the retry; the failure then reports the second, and the first is neither accepted nor reported |
| KinesisBatch.FailedRecords | pkg/awsbatch/kinesisbatch/put_records.go:65-71 | the retry list is exactly the records whose result carries an error message, in order |
| KinesisBatch.Request.Send | pkg/awsbatch/kinesisbatch/put_records.go:42-77 | one request; items are conserved and the counter moves with what was accepted |
| KinesisBatch.PutRecords | pkg/awsbatch/kinesisbatch/put_records.go:80-112 | success means each record was accepted exactly once, in as many successful calls as there are batches of 500; failure means that fewer succeeded and that the service ended with another error or, after all retries, with throttling or failed records; counter, outstanding and not yet batched records then add up to all; no request exceeds 500 |
| S3Batch.RetryObjects | pkg/awsbatch/s3batch/delete_objects.go:55-64 | each error, whatever its code and message, gives back the key and version of one object that failed |
| S3Batch.Request.Send | pkg/awsbatch/s3batch/delete_objects.go:41-69 | one request; items are conserved, also when errors come in another order |
| S3Batch.DeleteObjects | pkg/awsbatch/s3batch/delete_objects.go:72-108 | success means each object was deleted exactly once, in as many successful calls as there are batches of 1000; failure means that fewer succeeded and that S3 ended with an error for the call or for objects; every object is then deleted, outstanding or not yet batched; the counter is the number deleted, or zero in quiet mode |
| DynamoTables.Balance | pkg/awsbatch/dynamodbbatch/batch_write_item.go:42-48 | totals over tables balance when every table does, whatever the order in which a map is walked |
| DynamoWrite.WriteItemCount | pkg/awsbatch/dynamodbbatch/batch_write_item.go:42-48 | counts all items, in any order of the tables |
| DynamoWrite.Request.Send | pkg/awsbatch/dynamodbbatch/batch_write_item.go:51-81 | one request; items are conserved table by table and the counter moves with the number accepted |
| DynamoWrite.AddTable | pkg/awsbatch/dynamodbbatch/batch_write_item.go:111-126 | all items of a table go into requests in order; a full request is sent at once |
| DynamoWrite.BatchWriteItem | pkg/awsbatch/dynamodbbatch/batch_write_item.go:93-137 | success means each item was accepted exactly once, in as many successful calls as there are batches of 25; failure means that fewer succeeded and that the service ended with an error or unprocessed items; every item is then accepted, in the input or not yet batched, and the counter is the number accepted; no request exceeds 25 |
| DynamoGet.UpdateResult | pkg/awsbatch/dynamodbbatch/batch_get_item.go:56-61 | a page's rows are appended table by table |
| DynamoGet.Push | pkg/awsbatch/dynamodbbatch/batch_get_item.go:69-74 | clearing and refilling the table's own object is the step of the specified loop, for any sharing of objects |
| DynamoGet.AddTable | pkg/awsbatch/dynamodbbatch/batch_get_item.go:67-85 | the keys the table's object holds at that moment are taken once, in order, although the object is overwritten meanwhile; full requests are sent at once |
| DynamoGet.BatchGetItem | pkg/awsbatch/dynamodbbatch/batch_get_item.go:42-96 | for every input the requests are those of the specified loop for some order of the tables, and after an error a beginning of them; with an object per table, or at most 100 keys, every key is asked for once, in order, in requests of 1 to 100 keys, and after an error a beginning of each table's keys was; the call fails exactly if the last request does; on success the result per table is the concatenation of all pages |
| DynamoLoop.OwnAsksAll | pkg/awsbatch/dynamodbbatch/batch_get_item.go:64-93 | with an object per table the loop asks for every key exactly once, in order, whatever the order of the map; every request but the last asks for exactly 100 keys, and the last for 1 to 100 |
| DynamoLoop.SmallAsksAll | pkg/awsbatch/dynamodbbatch/batch_get_item.go:64-93 | with at most 100 keys the loop asks for every key, however the tables share objects |
| DynamoLoop.SharedObjectLosesKeys | pkg/awsbatch/dynamodbbatch/batch_get_item.go:69-84 | at an input: of two tables that share an object of 51 to 99 keys the first one's last keys are never asked for |
| S3Queue.StepKeepsInv | cmd/opstools/s3queue/s3queue.go:43-230 | every event keeps the invariant: each file pushed is queued, buffered, accepted or lost exactly once, counters match the listing, and every loss is or will be reported |
| S3Queue.NoDeadlock | cmd/opstools/s3queue/s3queue.go:56-88 | with a bad path, with at least one consumer, or with at most 1000 files to push, some event is possible in every reachable state short of the return |
| S3Queue.RunsAreBounded | cmd/opstools/s3queue/s3queue.go:43-88 | every run, in any interleaving and with any failures, has bounded length |
| S3Queue.EveryRunReturnsIff | cmd/opstools/s3queue/s3queue.go:43-88 | every run that cannot go on has returned if and only if the path is bad, there is a consumer, or at most 1000 files are to be pushed |
| S3Queue.FullChannelNeverReturns | cmd/opstools/s3queue/s3queue.go:56-88 | without a consumer and with more than 1000 files on a good path no run returns |
| S3Queue.NilMeansQueued | cmd/opstools/s3queue/s3queue.go:129-161 | nil means that the path was good, that the listing did not fail before the limit was reached, that the files counted are the first non-empty objects up to the limit and the bytes their sizes modulo 2^64; each of them was accepted by SQS exactly once if and only if there is a consumer or there are no files, and without a consumer nothing was accepted |
| S3Queue.ErrorMeansFailure | cmd/opstools/s3queue/s3queue.go:77-161 | a run that returns gives an error if and only if the path was bad, the listing failed before the limit was reached, or a consumer failed during the run; and it is the error of one of these |
| S3Queue.NeverTwice | cmd/opstools/s3queue/s3queue.go:176-229 | in every run nothing is accepted that was not pushed, and nothing twice |
| S3Queue.NoConsumerQueuesNothing | cmd/opstools/s3queue/s3queue.go:59-66 | with one object and no consumer, a run counts the file, returns nil and sends nothing |
| S3Queue.ManyFilesBlock | cmd/opstools/s3queue/s3queue.go:56-88 | with 1001 files and no consumer, no run returns and some run is stuck |
| S3Queue.EntriesMeetContract | cmd/opstools/s3queue/s3queue.go:208-211 | the ids a consumer gives its entries are distinct, as the SQS wrapper needs |
| S3Queue.SendBuffer | cmd/opstools/s3queue/s3queue.go:208-229 | sending a buffer through the SQS wrapper is a step of the machine: its success event if all entries were accepted, else its failure event with exactly the files whose entries were accepted |
| Teardown.WaitForInstance | tools/mage/teardown.go:270-294 | polling ends after at most 42 answers, with the outcome that the last answer says, and with a timeout only if more than ten minutes have passed |
| Teardown.WaitForSet | tools/mage/teardown.go:307-321 | the same for the stack set |
| Teardown.DeleteStackSet | tools/mage/teardown.go:235-322 | on every path exactly two results, the instance's first; an instance that is seen is deleted before it is waited for; the set is deleted only right after its instance was seen gone; success is reported exactly when a query saw it gone, and a failure is the error of the last call or comes after more than ten minutes |
| Teardown.DeleteStack | tools/mage/teardown.go:325-341 | exactly one result under the stack's name: the error of the deletion, the failed wait, or success |
| Teardown.StepKeepsInv | tools/mage/teardown.go:150-227 | every event keeps the books: each deletion started is owed or handled, one bootstrap deletion per frontend result, errors counted are the failures handled |
| Teardown.NoDeadlock | tools/mage/teardown.go:151-221 | with the frontend in the list the unbuffered channel never deadlocks |
| Teardown.EveryRunReturns | tools/mage/teardown.go:150-227 | every run is finite; it ends with the return if the frontend is in the list, and never returns if it is not |
| Teardown.EveryState | tools/mage/teardown.go:181-227 | stacks are deleted only after both stack-set results, the bootstrap stack only after a frontend result, and the errors counted are exactly the failures |
| Teardown.ReturnMeansAllHandled | tools/mage/teardown.go:212-227 | at the return length + 3 results were received; they are one per listed stack and one for the bootstrap stack, with no goroutine left, exactly when the frontend is listed once |
| Teardown.ErrorMeansFailure | tools/mage/teardown.go:150-227 | with the frontend listed once, in every run that returns an error is returned if and only if some deletion failed during the run, and it tells how many |
| Teardown.ParallelStacksFit | tools/mage/teardown.go:193-205 | the list in the source holds the frontend exactly once |
| AthenaViews.SortStrings | tools/athenaviews/athenaviews.go:153 | sorted, and a permutation |
| AthenaViews.LessIff | tools/athenaviews/athenaviews.go:153 | the order is that of Go's strings: the first differing character decides, and a prefix comes first |
| AthenaViews.ListUnique | tools/athenaviews/athenaviews.go:148-153 | a set of columns has only one sorted list, so the order of the map does not show |
| AthenaViews.PantherViewColumns.constructor | tools/athenaviews/athenaviews.go:138-156 | the columns are the sorted, duplicate-free union over all tables, with each table name's own columns beside them |
| AthenaViews.PantherViewColumns.InferViewColumns | tools/athenaviews/athenaviews.go:157-181 | a table contributes its Panther fields, the extra ones and its partition keys |
| AthenaViews.OwnColumnsAre | tools/athenaviews/athenaviews.go:157-181 | a column is taken from a table exactly if it begins with `p_` and is one of the event's or the extra ones, or is `year`, `month`, `day` or `hour` as the bin has it |
| AthenaViews.PantherViewColumns.ViewColumns | tools/athenaviews/athenaviews.go:183-195 | the text lists every column in order, NULL-filled where the table lacks it |
| AthenaViews.GenKeyTellsKeys | tools/athenaviews/athenaviews.go:97-104 | comparing the run-together text of partition keys is comparing the keys |
| AthenaViews.CheckKeys | tools/athenaviews/athenaviews.go:96-110 | passes exactly when all tables have the same partition keys |
| AthenaViews.GenerateViewAll | tools/athenaviews/athenaviews.go:94-129 | an error exactly when partition keys differ, and otherwise the text whose meaning `AthenaViewText` reads |
| AthenaViews.SelectListReads | tools/athenaviews/athenaviews.go:183-195 | the text of a select list can be read back to its items |
| AthenaViews.FillsExactlyIff | tools/athenaviews/athenaviews.go:172-192 | every select NULL-fills exactly the columns its table lacks if and only if tables that share a name agree on their columns |
| AthenaViews.ViewMeansPaddedUnion | tools/athenaviews/athenaviews.go:94-195 | the view means the bag union of all tables' rows padded with NULL, and every select resolves |
| AthenaViews.PartitionColumnsNeverNull | tools/athenaviews/athenaviews.go:168-170 | once the key check passes no select NULL-fills a partition column |
| AthenaViews.LaterTableStays | tools/athenaviews/athenaviews.go:172-173 | of two tables with one name the earlier one's select fills with NULL what the later one lacks |
| AthenaViews.SharedNameLosesColumn | tools/athenaviews/athenaviews.go:172-173 | at an input: two log types that differ in a dot and an underscore share a table name and lose a column |
| AthenaViewText.GeneratedViewReads | tools/athenaviews/athenaviews.go:112-128 | the whole text of a generated view reads, by a grammar of headers, selects and unions, as a view of the name asked for in `panther_views` over its selects, joined by `union all` throughout; without tables it reads as no view. For view names without blanks, dots or newlines, log types without blanks or newlines and columns without commas or newlines |
| AthenaViewText.TextMeansPaddedUnion | tools/athenaviews/athenaviews.go:94-195 | what the text of a generated view says, once read, header and separators included, is the view asked for with the bag union of all tables' rows padded with NULL |
| AthenaViewText.UnionReads | tools/athenaviews/athenaviews.go:121-123 | with `union` in place of `union all` the text reads as another query, which means the same if and only if no row comes twice |
| Redact.RedactedInput | pkg/genericapi/redact.go:31-52 | the recursion over kinds computes the specified log entry |
| Redact.RedactedArray | pkg/genericapi/redact.go:54-61 | element by element, in order |
| Redact.RedactedMap | pkg/genericapi/redact.go:63-73 | every key once, whatever the order of the map |
| Redact.RedactedStruct | pkg/genericapi/redact.go:89-109 | visible fields under their names, redacted where tagged; of two with one name the later stays |
| Redact.RedactedFieldIff | pkg/genericapi/redact.go:121-135 | two redacted fields are logged alike exactly when they agree in nil-ness, kind and length |
| Redact.RedactedTexts | pkg/genericapi/redact.go:119-135 | the texts of redacted fields: nil as nil, through pointers, `(redacted slice len=10)` and the like for what has a length, `(redacted struct)` and the like for the rest |
| Redact.LogNames | pkg/genericapi/redact.go:111-117 | a field is logged under its `json` tag up to the first comma, or else under its own name |
| Redact.AlikeLogsAlike | pkg/genericapi/redact.go:31-135 | noninterference: values that differ only in redacted fields, with the same shape there, and in fields that are hidden or give way to a later field of their name, are logged alike |
| Redact.LogsShowExactly | pkg/genericapi/redact.go:31-135 | for two values of one type the logs are equal if and only if the values are alike: everything else is shown |
| Redact.PlainDataReadsBack | pkg/genericapi/redact.go:31-87 | round trip: strings, slices, maps and the kinds that are passed through read back from the log |
| Redact.InterfaceLeaks | pkg/genericapi/redact.go:49-50 | behind an interface, secrets of the same shape give different logs |
| GlueSchema.InferJSONColumns | tools/cfngen/gluecf/schema.go:59-87 | the loop computes the columns or the first panic; what the columns say is in `GlueMeaning.ColumnsDescribe` |
| GlueSchema.InferStructFieldType | tools/cfngen/gluecf/schema.go:89-173 | name, type, comment, requiredness or skip of a field, or its panic; what the type says is in `GlueMeaning.KindReads` |
| GlueSchema.InferStruct | tools/cfngen/gluecf/schema.go:176-191 | the comma join of the key pairs of all fields that are not skipped, or the first panic |
| GlueSchema.InferMap | tools/cfngen/gluecf/schema.go:194-205 | the type text of a map, recursively |
| GlueTypes.SpelledReads | tools/cfngen/gluecf/schema.go:141-204 | round trip: the text of every Glue type whose names are free of `<>,:` reads back to the type |
| GlueTypes.TypeInSpells | tools/cfngen/gluecf/schema.go:141-204 | and a text that reads as a type is the one text of that type |
| GlueMeaning.TextReadsIff | tools/cfngen/gluecf/schema.go:176-251 | the text of every Go type reads back to what the type means (struct of its fields with embedded structs flattened, map of key and element, basic type) if and only if its names are free of the marks, its custom mappings spell types and no embedded struct without fields has company |
| GlueMeaning.KindReads | tools/cfngen/gluecf/schema.go:135-172 | what a field's type reads back as is an array exactly if the dereferenced Go type is a slice, a map exactly if it is a map, and a struct exactly if it is a struct that is not flattened; element types, the key and the fields read in turn |
| GlueMeaning.FieldReads | tools/cfngen/gluecf/schema.go:176-191 | each field of a struct that reads back is in it under its name, with the type that its own text reads as |
| GlueMeaning.ColumnsDescribe | tools/cfngen/gluecf/schema.go:59-87 | whatever columns are inferred are those of the declared fields in order, embedded structs in their place; each has the field's name, a type that reads as the field means (under the condition above), the description trimmed and cut to 255 characters, and is required exactly if the `validate` tag says so |
| GlueMeaning.InferableIff | tools/cfngen/gluecf/schema.go:59-251 | columns come without a panic if and only if, at any depth, everything embedded is a struct and every other field that is not skipped has a known type and a description |
| GlueMeaning.BasicNames | tools/cfngen/gluecf/schema.go:208-251 | exactly fourteen Go types have a basic Glue type; bool, string, interface and the floating types one by one |
| GlueMeaning.LeastIntegerType | tools/cfngen/gluecf/schema.go:214-245 | every integer type gets the least Glue type that holds all its values, except `uint64`, which gets `bigint` although that does not hold 2^63 |
| GlueMeaning.TagNames | tools/cfngen/gluecf/schema.go:115-124 | a column is named by its `json` tag up to the first comma, or else by its field |
| GlueSchema.FlatteningsAgreeIff | tools/cfngen/gluecf/schema.go:59-205 | whenever columns can be inferred and every custom-mapped embedded struct's name and mapping spell its own columns, the nested struct text is the comma join of `name:type` over the columns if and only if no embedded struct hides columns and one without columns is the only entry |
| GlueSchema.DescribedAgree | tools/cfngen/gluecf/schema.go:59-205 | for struct types whose embedded structs have columns and whose fields have descriptions, the two recursions give the same text or the same panic |
| GlueSchema.ColumnsAcceptable | tools/cfngen/gluecf/schema.go:69-83 | every inferred column has a name and a trimmed comment of 1 to 255 characters |
| GlueSchema.EmptyEmbeddingStrays | tools/cfngen/gluecf/schema.go:176-191 | an embedded struct without fields leaves a stray comma |
| GlueSchema.MappedAloneAgreesIff | tools/cfngen/gluecf/schema.go:60-63 | a struct of one custom-mapped embedded struct has that struct's columns in a table and `name:mapping` in a nested struct type; the two agree exactly when that text spells the columns |
| GlueSchema.MappedEmbeddingParts | tools/cfngen/gluecf/schema.go:130-133 | at an input: an embedded `E` with one integer field `x` is the column `x:bigint` in a table and `E:` with its mapping in a nested struct type |
| GlueSchema.MappingsMakeUp | tools/cfngen/gluecf/schema.go:130-133 | at an input: two custom mappings that do not spell their own columns make up for each other, so the two recursions agree all the same |
| GlueSchema.EmbeddedNonStructPanics | tools/cfngen/gluecf/schema.go:60-63 | embedding anything but a struct makes the columns panic |
| Router.VerifySignature | pkg/genericapi/verify.go:57-89 | no error exactly for one argument of the input's type and an error as only or second result |
| Router.VerifyHandlers | pkg/genericapi/verify.go:29-54 | no error exactly if there are as many handlers as routes and each route has a fitting handler |
| Router.VerifiedIsBijection | pkg/genericapi/verify.go:29-54 | accepted exactly when routes and handlers are in bijection by name and every handler fits |
| Router.FindRequest | pkg/genericapi/router.go:114-145 | finds the route exactly when exactly one is set; otherwise the error names the first route and the first superfluous one |
| Router.ToError | pkg/genericapi/router.go:148-159 | writes the route's name into the error, and panics exactly on errors that cannot be tagged |
| Router.Router.Find | pkg/genericapi/router.go:84-91 | the cached or fresh handler is the one of the route's name, and is cached |
| Router.Router.Conclude | pkg/genericapi/router.go:93-103 | results become the outcome; only the returned error is written to |
| Router.Router.Handle | pkg/genericapi/router.go:65-103 | cache, invocation, outcome and error for every request, through the handler that the cache or a lookup gives |
| Router.RunIgnoresCache | pkg/genericapi/router.go:84-93 | over every run each request invokes what it would invoke without a cache |
| Router.VerifiedRunsReachOwn | pkg/genericapi/router.go:65-103 | with verified handlers, over every run every valid single-route request reaches the handler of its own name with an argument of the type it takes |
| Router.VerifiedPanicIff | pkg/genericapi/router.go:65-103 | with verified handlers, over every run of calls each on the cache the earlier ones left, a request panics exactly when a handler ran and its error cannot be tagged; otherwise the caller gets the handler's result, if it has one, and its error exactly if that is not nil, or the complaint about an input for which no handler ran |
| Router.VerifiedPanics | pkg/genericapi/router.go:148-159 | at an input: a verified handler returns a struct by value with a `Route` field, and the request panics |

## Left out

- TimeBins.Next: requires a known bin, since the source panics on any other.
- Partitions.ParsePrintedKey: requires a log type without `/` and a year that fits 64 bits; daily and monthly names must not continue the path, since a further `day=` or `hour=` segment would be taken for a column.
- SqsBatch.SendMessageBatch: requires ids that are distinct within a request, as SQS demands.
- Partitions.GetTableName: `strings.ToLower` is modelled on ASCII letters only.
- SyncPartitions.PartitionHasData: completeness is not claimed, because the source looks at one page of one object.
- DynamoGet.BatchGetItem: for shared objects and more than 100 keys, what a plan asks for is not summed up beyond the losing input, because it depends on the order in which the map is walked.
- GlueSchema.FlatteningsAgreeIff: custom mappings of embedded types that do not spell their own columns are excluded when there is more than one field, because such texts are arbitrary and can make up for each other (GlueSchema.MappingsMakeUp).
- GlueSchema.DescribedAgree: excludes custom mappings of embedded types, which never panic where their columns may.
- GlueSchema.InferJSONColumns: Go types are finite trees, so a type that contains itself through a pointer, on which the source does not return, is not a model; `TrimSpace` trims ASCII blanks only.
- SyncPartitions: the read of the table before the pool starts, whose error is returned at once, and changes that others make to S3 or the catalog meanwhile.
- S3Queue: the lookup of the queue's URL before the pipeline starts, and statistics that do not start at zero. A negative concurrency acts like zero.
- Teardown: the clean-up of repositories, buckets, log groups and certificates around the stacks.
- Router.Router.Handle: replacing nil slices and maps in results (`pkg/gatewayapi/replace_nils.go`), and the deferred logging of the redacted request.
- Redact.RedactedInput: does not model the panic of `Interface` on what an unexported embedded field holds, unless that is a struct or a pointer to one; the model logs it.
- Redact.RedactedStruct: the same panic.
- Redact.RedactedMap: map keys are strings only.
- `cmd/opstools/requeue` ignores the response of its batch send, so conservation would rest on the service alone.
- AWS clients, HTTP signing, JSON, URL and YAML parsing, wall-clock time and sleep lengths beyond the fact that time advances.
- Deployment and build code in `tools/mage` other than teardown, dashboards, generated API clients and the web front end.
