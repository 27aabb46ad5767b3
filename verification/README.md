# Batch-upload task engine, modelled in Dafny

The engine takes a submission of rows, gives it a task id and an entry in an
in-process task ledger, and then runs one background runner for the task. The
runner cuts the rows into batches of 10 and posts each batch to a remote bulk
API. A 200 response commits a batch. A transport exception is retried, up to
3 attempts per batch, and each retry writes a "Retrying k/3" status and the
progress committed so far. A third transport exception writes an error and
progress 0, and the runner stops. Any other status code raises an exception
that the retry loop does not catch. The runner's outer handler catches it,
writes an error and progress 0, and the runner stops. After every committed
batch the progress becomes the share of rows sent so far, capped at 100. Once
every batch is committed the status becomes Completed. A poll reads one ledger
entry.

The model is split into these modules:

- `Batching` (`batching.dfy`) covers the splitter: `range(0, N, 10)` and the
  slices `rows[i:i+10]`.
- `Progress` (`progress.dfy`) covers the two percentage formulas and a
  reference definition, `Share`. `Share` is the percentage of rows in
  committed batches.
- `Ledger` (`ledger.dfy`) covers the task entries and the ledger writes as a
  trace, `Replay`. It also covers submission validation and insertion
  (`Submit`), polling (`Poll`), and a runner's writes landing in its own
  entry (`Commit`).
- `Uploader` (`uploader.dfy`) covers one batch's retry loop (`Attempt` and
  `Upload`).
  - The remote API is an oracle, `Network(batch, attempt)`, that gives a
    status code or a transport exception.
  - `Commits` is the reference definition of a batch that ends committed.
- `Runner` (`runner.dfy`) covers the loop over batches and the outer
  exception handler (`RunFrom` and `Run`). The ledger writes and the requests
  a run makes are kept in order as a `Trace`.
- `Service` (`service.dfy`) covers submission, then the run, then polling,
  as seen through the ledger.
- `UploadLoop` (`loop.dfy`) writes the retry loop as the engine does: a
  while-loop over the attempt counter. It is proved equal to the recursive
  definition.
- `Seqs` (`seqs.dfy`) holds concatenation facts that the proofs use.

## Model

| member | source | states |
|---|---|---|
| Batching.Batch | src/app.py:24 | Batch b is non-empty and holds at most 10 rows. It ends at the next batch's start or at the end of the rows. Its j-th row is row `10*b + j`. |
| Batching.StartsAreMultiples | src/app.py:18-23 | The loop's start indices are exactly the multiples of 10 below N, in increasing order. There are ceil(N/10) of them. |
| Batching.FirstBatchesArePrefix | src/app.py:22-24 | For every b up to ceil(N/10), the first b batches concatenated are exactly the first min(10b, N) rows, in order. |
| Batching.SplitCoversRows | src/app.py:17-24 | There are ceil(N/10) batches. Batch k starts at index 10k. Every batch holds 1 to 10 rows. Concatenated, the batches give back the submission's rows in order. |
| Progress.ShareIsCommittedRows | src/app.py:62-64 | `Share(b)` is the percentage of the rows that the splitter's first b batches carry. |
| Progress.ShareBounds | src/app.py:50-64 | The committed share starts at 0 and never exceeds 100. It is 100 exactly when the batches counted cover every row. |
| Progress.ShareMonotone | src/app.py:50-64 | The committed share never decreases as more batches are counted. |
| Progress.AfterBatch | src/app.py:62-64 | The progress written after a committed batch is never above 100. That it is the share of rows in the batches committed so far is stated by `Progress.AfterBatchIsShare`. |
| Progress.AtRetry | src/app.py:50 | The progress written on a retry. Its properties are stated by `Progress.AtRetryIsShare`: it is the share of rows in the batches before this one, below 100, and equal to the previous batch's value. |
| Progress.AfterBatchIsShare | src/app.py:62-64 | The progress written after batch b is the share of batches 0..b. It is 100 exactly when batch b is the last. |
| Progress.AtRetryIsShare | src/app.py:47-50 | The progress written on a retry of batch b is the share of batches before b. It is below 100, it is 0 for the first batch, and otherwise it equals the progress written after batch b-1. |
| Progress.AfterBatchMonotone | src/app.py:62-64 | Progress after a later batch is never below progress after an earlier one. |
| Ledger.Replay | src/app.py:49-70 | No ledger write changes totalemails. Progress writes alone leave the status as it was. Status writes alone leave the progress as it was. |
| Ledger.Submit | src/app.py:77-101 | The request is refused exactly when one of orgs, baseName, tableName, bulkRows or the token is missing or empty. A refusal leaves the ledger unchanged. Otherwise the reply carries the id and the row count (at least 1), the id gets an in-progress entry with progress 0, and every other entry is unchanged. |
| Ledger.Poll | src/app.py:109-119 | A poll answers not-found exactly when the id has no entry. Otherwise it returns that entry's progress, status and totalemails. |
| Ledger.Commit | src/app.py:16-71 | A runner's writes change only its own entry. The set of ids, every other entry, and its own totalemails are unchanged. |
| Uploader.Attempt | src/app.py:25-54 | A batch is posted at most 3 times, on consecutive attempts, with its own rows each time. Every attempt before the last met a transport exception. The batch is committed only on a 200 response. A non-200 code ends it as raised. It gives up only when attempt 3 met a transport exception. |
| Uploader.Upload | src/app.py:25-57 | One batch's retry loop from its first attempt. Its properties are stated by `Uploader.Attempt`, `Uploader.AttemptWrites` and `Uploader.UploadEnds`: at most 3 requests, committed exactly when `Commits` holds, given up exactly after 3 transport exceptions. |
| Uploader.AttemptWrites | src/app.py:46-54 | The k-th transport exception writes "Retrying k/3" and then the progress of the batch's start row. Giving up adds an error status and progress 0 at the end. |
| Uploader.UploadEnds | src/app.py:27-54 | A batch ends committed exactly when some attempt within the budget gets 200 after only transport exceptions. It gives up exactly when all 3 attempts meet transport exceptions. |
| Uploader.BadStatusNotRetried | src/app.py:40-46 | A non-200 response after only transport exceptions ends the batch's loop as raised with that code. No further attempt is sent. |
| Uploader.AttemptNeverCompletes | src/app.py:46-54 | The retry loop never writes Completed. |
| UploadLoop.UploadLoop | src/app.py:25-54 | The while-loop over the attempt counter makes the same requests and ledger writes, and ends the same way, as `Uploader.Upload`. |
| Runner.RunFrom | src/app.py:22-71 | The loop over batches from batch b on, with the outer handler. Its properties are stated by `Runner.RunFromEnds`, `Runner.RunFromSteady` and `Runner.FailAt`: Completed exactly when every remaining batch commits, progress steady, and an uncommitted batch ends the run with an error and progress 0. |
| Runner.Run | src/app.py:22-71 | A whole run on a new entry. Its properties are stated by `Runner.RunEnds`, `Runner.RunPosts`, `Runner.RunProgressSteady`, `Runner.AllFirstTry` and `Runner.FailFast`. |
| Runner.RunPosts | src/app.py:23-45 | Every request is an attempt below 3 of one of the submission's batches and carries exactly that batch's rows. Requests go out batch by batch and attempt by attempt. |
| Runner.RunFromSteady | src/app.py:46-70 | From any batch on, after each write progress is within 0..100. Progress does not decrease except when an error status resets it to 0. This needs the entry to hold the committed share when the run starts. |
| Runner.RunProgressSteady | src/app.py:47-70 | For a whole run, after each write progress is within 0..100. Progress does not decrease except when an error status resets it to 0. |
| Runner.RunFromEnds | src/app.py:22-71 | A run from batch b ends Completed exactly when every remaining batch is committed, with progress 100 if any batch was sent. Otherwise it ends in an error with progress 0. |
| Runner.RunEnds | src/app.py:22-71 | A non-empty run ends terminal and keeps totalemails. It ends Completed, with progress 100, exactly when every batch commits. Otherwise it ends in an error with progress 0. |
| Runner.AllFirstTry | src/app.py:23-67 | If every first attempt is answered 200, the task ends Completed with progress 100. Exactly one request per batch is sent, ceil(N/10) in all, and request k carries batch k. Concatenated, the payloads are the submission's rows. |
| Runner.FailAt | src/app.py:44-54 | A batch that is not committed ends the run. Its requests are the last ones sent, and it leaves an error status and progress 0. |
| Runner.FailFast | src/app.py:22-71 | When batch f is the first batch not committed, the task ends in error with progress 0, and the error carries the status code if there was one. The last request belongs to batch f, no later batch is sent, and Completed is never written. |
| Service.SubmitRunPoll | src/app.py:87-119 | After an accepted submission, a poll of the new id gives in progress, 0, and the row count. After the run it gives exactly the runner's final entry, which is terminal with progress 0..100. Every other id polls as before. |

## Left out

- Flask routing, JSON parsing and the 500 handlers (lines 102-103 and 121-122) are not modelled. Request fields are given as already parsed values. Field values that are not strings, and a body that is not JSON, are not modelled.
- A `bulkRows` that is a non-empty JSON object, not a list, passes the check at line 87. The runner then fails with a TypeError at the slice on line 24, before any request, and the handler at lines 68-70 writes an error status and progress 0. The model types `bulkRows` as a sequence of rows, so this path is not modelled.
- Threads are not modelled. The runner runs to its end as one step over the ledger (`Service.RunTask`). Polls between the individual writes are covered by the write trace and `Runner.RunProgressSteady`, not by interleaving.
- The status/progress pair is written by two separate assignments and is not atomic. The write trace keeps them as two writes, and no atomicity is claimed.
- `requests.post`, the URL, the headers and `verify=False` are replaced by the `Network` oracle, which gives a status code or a transport exception per (batch, attempt).
- The sleeps and their random jitter (lines 48 and 60) change no ledger state and are left out.
- The task id comes from the clock (line 90) and is an input of `Ledger.Submit`. Two submissions in the same second reuse an id, and the second overwrites the first's entry rather than being refused, as `Ledger.Submit` states.
- Progress.AfterBatchIsShare: percentages are exact integer floors, not Python floats. The float formula can land just below an integer, as with 290 rows done out of 1000 giving 28, and that is not modelled.
- Ledger.Poll: status messages are abstract. The "Error during insertion: ..." text is a `Cause`: a transport failure, or the API's status code. The response body in the message is not modelled.
- The `if not success: break` at lines 56-57 cannot be reached. The retry loop exits only by a 200 break, a `return`, or an exception. It has no counterpart in the model.
- Ledger.Commit: it requires the id to be in the ledger. The runner only runs on an id that submission just created, so the KeyError for a missing entry never arises.
- The loop over batches is modelled by recursion (`Runner.RunFrom`), not as a while-loop method. Only the retry loop is also written as a loop (`UploadLoop.UploadLoop`).
