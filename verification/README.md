# Art Institute image labelling, modelled in Dafny

This project models the core of `aic_google_vision_script.py`. The script reads
a CSV of artworks and keeps the rows whose line numbers fall in a window. It
checks that each kept row has the required columns. It then sends the rows, one
batch at a time, to an image-annotation service that detects labels. For every
label that is not filtered out, it writes one output row. Rows that failed go
to a second CSV file.

The model has one module per part of the script:

- `Values`: the Python values the script handles. These are CSV cells, decoded
  JSON, and the exceptions caught by the batch loop (`Exc`). A dictionary is a
  `Row`, and Python's `row | extra` is `Merge`.
- `Validation`: `assert_input_columns`.
- `InputLoader`: `AicInputCsv`, as the class `InputCsv`. Its row buffer and
  batch cursor are fields that the methods update. Each `csv.DictReader` record
  is given as a `ReadRecord` that carries the reader's `line_num`.
- `Batching`: Python slicing, the batches the cursor hands out, and their
  properties.
- `Requests`: `RequestJson`. The request body is a sequence of
  `AnnotateRequest` values. A row without an image URL raises `KeyError`.
- `Reconcile`: what `add_rows` and `add_error_rows` compute, as functions. This
  includes the Python exceptions that `add_rows` can raise part-way through a
  batch.
- `OutputSink`: `OutputCsv`. Its two row buffers are `seq<Row>` fields. Its two
  files are `seq<CsvLine>` fields that hold the lines `csv.DictWriter` has
  written. The constructor's header decision is `OpenedFile`.
- `Pipeline`: the `while` loop of the main block. The remote call is a function
  parameter. For batch number k and its request body, it returns either the
  decoded `responses` list or the exception raised on the way (`Failed`). That
  exception may come from HTTP, TLS, JSON decoding, or a missing `responses`
  key. `PipelineOutput` states what the loop writes, batch after batch.
- `Scenarios`: worked examples of single batches.

In several places the code behaves differently from a cleaner design one
might expect. The model follows the code:

- **Response count differs from the batch length.** One might expect a count
  mismatch to fail the whole batch as one transport failure, with no positional
  recovery. The code does something else:
  - If the reply is short, `add_rows` keeps the per-row error rows it has
    already appended. It drops the labels it collected. Then it raises
    `IndexError`, and `add_error_rows` adds one more error row for every row of
    the batch. A row can therefore reach the error file twice
    (`ShortReplyDuplicatesErrorRow`), and labels already found are lost
    (`ShortReplyDropsLabels`).
  - If the reply is long, the extra entries are ignored
    (`LongReplyIgnoresExtraEntries`).
- **Exception inside add_rows.** The same partial behaviour applies to any
  other exception raised inside `add_rows`. Examples are a malformed entry or
  an annotation without a string `description`. In those cases a failed row
  does not get exactly one error row.
- **Filtered label on a row without a string image URL.** Filtering a label
  only logs it, but the log message at line 110 concatenates the row's
  `IIIF Image URL`. A row without that column raises `KeyError`, and one whose
  value is not a string raises `TypeError`. Either exception fails the whole
  batch (`FilteredLabelNeedsImageUrl`). Validated rows always have the column.
- **Validation failure.** A failed load does not roll back: the rows appended
  before the failing row stay in the buffer. `ParseAndValidateInput` returns
  them in `kept`.

## Model

| member | source | states |
|---|---|---|
| Values.Merge | aic_google_vision_script.py:112 | `row \| extra` has the keys of both; the right-hand side wins on shared keys, the left keeps the rest |
| Values.Lower | aic_google_vision_script.py:109 | `lower()` keeps the length, leaves no upper-case letter, keeps other characters and shifts each upper-case letter by 32 |
| Validation.AssertInputColumns | aic_google_vision_script.py:26-33 | a row is accepted iff Title, Id, Website URL, IIIF Image URL and line_number are present, not None and not '', and Artist Title is present; a rejection carries the row |
| Validation.EmptyArtistTitleAccepted | aic_google_vision_script.py:32 | an empty or None Artist Title never causes a rejection |
| Validation.MissingValueRejected | aic_google_vision_script.py:30-33 | a required column that is missing, None or '' always rejects the row |
| InputLoader.WithLineNumber | aic_google_vision_script.py:47-48 | the buffered row keeps every field and gains line_number = the reader's line_num only when the file has no such column |
| InputLoader.Window | aic_google_vision_script.py:49 | the window is never longer than the records it is cut from |
| InputLoader.WindowMembers | aic_google_vision_script.py:49 | a record is in the window iff its reader line number lies in [start, end] |
| InputLoader.WindowOfPhysicalRecords | aic_google_vision_script.py:45-49 | on a plain file (header on line 1, one line per record) the window is the contiguous run of data rows with start <= i + 2 <= end |
| InputLoader.Load | aic_google_vision_script.py:46-52 | a completed load buffers at most one row per record; a failed one reports a row that fails validation, with fewer rows kept than records |
| InputLoader.ValidateWindow | aic_google_vision_script.py:49-52 | validating a window yields one row per record when it succeeds; a failure reports a row that fails validation, with fewer rows kept than records |
| InputLoader.LoadSeesOnlyWindow | aic_google_vision_script.py:46-52 | records outside the window are neither validated nor kept: loading is validating the window |
| InputLoader.LoadStopsAtRejection | aic_google_vision_script.py:51 | after the first rejection, later records change nothing |
| InputLoader.ValidateWindowLoaded | aic_google_vision_script.py:49-52 | loading succeeds iff every record in the window gives a valid row, and then yields all of them in file order |
| InputLoader.ValidateWindowInvalid | aic_google_vision_script.py:49-52 | a failed load reports the first invalid row of the window, with exactly the rows before it buffered |
| InputLoader.LoadKeepsOnlyValidRows | aic_google_vision_script.py:49-52 | every row the load leaves in the buffer passed assert_input_columns, even when a later row failed it |
| InputLoader.InputCsv.constructor | aic_google_vision_script.py:37-41 | empty buffer, cursor at 0, the given batch size |
| InputLoader.InputCsv.ParseAndValidateInput | aic_google_vision_script.py:43-52 | the buffer grows by the loaded rows, or by the rows kept before the AssertionError, whose row is returned |
| InputLoader.InputCsv.GetNextBatch | aic_google_vision_script.py:54-58 | returns the Python slice at the cursor and moves the cursor by a whole batch |
| Batching.Slice | aic_google_vision_script.py:56 | `s[i:j]` has length min(j, \|s\|) - i when i < j and i < \|s\|, else 0, and element k is s[i + k] |
| Batching.SliceShift | aic_google_vision_script.py:56 | dropping b elements shifts every slice by b |
| Batching.Cursor | aic_google_vision_script.py:57 | `current_index` after k calls, each adding the batch size; CursorIsProduct states its value |
| Batching.CursorIsProduct | aic_google_vision_script.py:57 | the cursor after k calls stands at k * batch_size |
| Batching.CeilDiv | aic_google_vision_script.py:54-58 | the fewest cursor steps that cover n rows: at or past n, with the step before it short of n, and 0 only for n = 0 |
| Batching.Batches | aic_google_vision_script.py:54-58 | reference definition of the batches the cursor hands out; its properties are BatchesPartition, BatchAt and CursorBatch |
| Batching.BatchesPartition | aic_google_vision_script.py:54-58 | there are ceil(n/b) batches, none empty, none longer than b, and together, in order, they are the buffer |
| Batching.BatchesFromBuffer | aic_google_vision_script.py:54-58 | every row of every batch comes from the buffer |
| Batching.CursorPastEnd | aic_google_vision_script.py:54-58 | after ceil(n/b) calls the cursor is at or past the end of the buffer |
| Batching.BatchAt | aic_google_vision_script.py:54-58 | batch k is the slice of b rows where the cursor stands after k calls |
| Batching.BatchCount | aic_google_vision_script.py:226-227 | the loop sees ceil(n/b) batches |
| Batching.CursorBatch | aic_google_vision_script.py:54-58 | call k + 1 of get_next_batch returns batch k, which is non-empty, while batches remain, and [] afterwards |
| Requests.RequestsFor | aic_google_vision_script.py:69-80 | one request per batch row, in order, each with the given features and the row's image URL; KeyError iff some row lacks the image URL column |
| Requests.RequestJson.constructor | aic_google_vision_script.py:61-67 | one LABEL_DETECTION feature with maxResults = max |
| Requests.RequestJson.GetJsonForBatch | aic_google_vision_script.py:69-80 | builds, row by row, exactly the request list of RequestsFor with the object's features |
| Reconcile.Iterated | aic_google_vision_script.py:108-109 | what the loop at :108-109 meets for `v`: a list gives its items, a string one single-character string per character, an empty dict nothing; a non-empty dict is iterated over its string keys, so its first `a['description']` raises TypeError, and a value that is not iterable raises TypeError at once; the model reports both TypeErrors here |
| Reconcile.Description | aic_google_vision_script.py:109 | `a['description'].lower()` gets its string iff the annotation is a dict with a string description; otherwise the subscript raises KeyError (no such key) or TypeError (not a dict), or `.lower()` raises AttributeError (a value that is not a string) |
| Reconcile.Filtered | aic_google_vision_script.py:109 | the test of :109: the lower-cased description is in the filter list |
| Reconcile.LogError | aic_google_vision_script.py:110 | the exception of the log message at :110: KeyError for a row without the image URL column, TypeError for one whose URL is not a string |
| Reconcile.LabelRows | aic_google_vision_script.py:108-112 | the annotation loop never produces an error row: it labels the row or raises |
| Reconcile.KeptLabelsSnoc | aic_google_vision_script.py:108-112 | one more well-formed annotation adds its merged row iff its description is not filtered |
| Reconcile.LabelRowsKeepsUnfiltered | aic_google_vision_script.py:108-112 | with well-formed annotations the annotation loop yields exactly the unfiltered annotations merged into the row, in response order, unless a label is filtered on a row whose image URL cannot be logged: then it raises KeyError or TypeError |
| Reconcile.KeptLabelsMembers | aic_google_vision_script.py:108-112 | an annotation's merged row is produced iff its description is not filtered, and nothing else is produced |
| Reconcile.AllFilteredGivesNoRows | aic_google_vision_script.py:108-113 | a row whose labels are all filtered yields no output row and no error row when its image URL is a string; otherwise its first label raises |
| Reconcile.LabelRowsStopsAtRaise | aic_google_vision_script.py:108-109 | once an annotation raises, the rest are never looked at |
| Reconcile.LabelRowsRaisesAtFirstMalformed | aic_google_vision_script.py:108-110 | the first annotation without a string description decides the exception raised, unless an earlier filtered label has already raised on the row's image URL |
| Reconcile.FilteredLabelNeedsImageUrl | aic_google_vision_script.py:109-110 | the first filtered label on a row whose image URL is missing, or not a string, raises KeyError or TypeError and ends the loop |
| Reconcile.EntryOutcomeOf | aic_google_vision_script.py:107-119 | a non-dict entry raises AttributeError; an entry gives an error row iff it is a dict without labelAnnotations, and that row is the batch row plus `error` set to the entry's error or 'unknown error' |
| Reconcile.AddRowsEffect | aic_google_vision_script.py:105-120 | a response list shorter than the batch always ends in an exception; there are at most as many error rows as batch rows, and each has an `error` column |
| Reconcile.AddRowsAccounting | aic_google_vision_script.py:105-120 | with an entry for every row and no exception, each row contributes exactly its surviving labels, or exactly one error row, in batch order |
| Reconcile.ShortResponsesRaise | aic_google_vision_script.py:105-107 | a short response list raises IndexError after the error rows of the rows that had an entry, with the collected labels discarded |
| Reconcile.AddRowsStopsAtRaise | aic_google_vision_script.py:105-120 | once a row raises, the rest of the batch is never looked at |
| Reconcile.ExtraResponsesIgnored | aic_google_vision_script.py:105 | response entries past the batch length change nothing |
| Reconcile.ErrorRows | aic_google_vision_script.py:122-124 | one error row per batch row, in order: the row's own fields plus `error` set to the same value |
| Reconcile.ErrorRowsAppend | aic_google_vision_script.py:122-124 | failing two parts of a buffer is failing the whole buffer |
| OutputSink.Project | aic_google_vision_script.py:93-95 | writerow with extrasaction='ignore': exactly the writer's columns in order; a missing key or None becomes '' and other keys are dropped |
| OutputSink.Records | aic_google_vision_script.py:128-131 | the lines the writerow loop writes: one projected record per buffered row, in buffer order |
| OutputSink.RecordsAppend | aic_google_vision_script.py:128-131 | writing two runs of rows one after the other writes their lines in order |
| OutputSink.WritesHeader | aic_google_vision_script.py:96-99 | a header is written iff the file is overwritten or did not exist |
| OutputSink.OpenedFile | aic_google_vision_script.py:86-99 | overwriting or a new file gives exactly one header; otherwise the existing lines are kept unchanged and no header is added |
| OutputSink.ResumeAppends | aic_google_vision_script.py:86-99 | re-opening without overwriting and flushing keeps earlier lines, appends only the new rows and writes no second header |
| OutputSink.FreshFileSingleHeader | aic_google_vision_script.py:86-99 | a fresh or overwritten file holds one header followed only by rows |
| OutputSink.OutputCsv.constructor | aic_google_vision_script.py:83-100 | empty buffers, the given filters, and both files as OpenedFile says |
| OutputSink.OutputCsv.CollectLabels | aic_google_vision_script.py:106-113 | the annotation loop for one row computes LabelRows, including the KeyError or TypeError of logging a filtered label at line 110 |
| OutputSink.OutputCsv.ReconcileEntry | aic_google_vision_script.py:107-119 | one row against its entry: labelled rows, one error row with the entry's error or 'unknown error', or the exception raised |
| OutputSink.OutputCsv.AddRows | aic_google_vision_script.py:102-120 | error rows are appended as met; the collected labels reach the buffer only if nothing was raised; a raised exception is returned |
| OutputSink.OutputCsv.AddErrorRows | aic_google_vision_script.py:122-124 | the error buffer grows by one error row per batch row, and the success buffer is untouched |
| OutputSink.OutputCsv.FlushOutput | aic_google_vision_script.py:126-133 | every buffered success row, then every buffered error row, is written in arrival order, and both buffers end empty |
| Pipeline.ValidBatchesReachService | aic_google_vision_script.py:230-237 | every batch cut from validated rows builds its request without KeyError, with one entry per row, and so reaches the service |
| Pipeline.CallOutcome | aic_google_vision_script.py:230-237 | a row without an image URL gives KeyError before any call; otherwise the outcome is the service's answer to the batch's request body |
| Pipeline.BatchEffect | aic_google_vision_script.py:240-244 | a failed call labels nothing and gives exactly one error row per batch row; an exception inside add_rows labels nothing and gives at least one error row per batch row; labels are written only after a reply that raised nothing; every error row has an `error` column |
| Pipeline.RaiseAtFailsBatch | aic_google_vision_script.py:105-120 | any exception raised inside add_rows at row j (a non-dict entry, a malformed annotation, the log message at :110): the error rows of the rows before j stay, all labels are lost, and every batch row gets one more error row carrying that exception |
| Pipeline.IterationOutput | aic_google_vision_script.py:228-244 | one try/except iteration: BatchEffect applied to what the request build and the call give |
| Pipeline.PipelineOutput | aic_google_vision_script.py:226-248 | every row the loop sends to the error file has an `error` column |
| Pipeline.ReconcileReply | aic_google_vision_script.py:240-244 | on a reply the buffers grow by BatchEffect: the reconciled rows, or the error rows kept from add_rows followed by one per batch row |
| Pipeline.HandleOutcome | aic_google_vision_script.py:240-244 | the buffers grow by BatchEffect: the reconciled reply, or one error row per batch row for an exception |
| Pipeline.ProcessBatch | aic_google_vision_script.py:228-244 | the try block grows the buffers by the k-th iteration's output |
| Pipeline.FilesAfterBatch | aic_google_vision_script.py:246 | after one more flush the files hold the output of one more batch |
| Pipeline.RunBatch | aic_google_vision_script.py:228-246 | after batch k is processed and flushed, the files hold the output of the first k + 1 batches and the buffers are empty |
| Pipeline.NextBatch | aic_google_vision_script.py:248 | the next call of get_next_batch hands out batch k + 1, or [] once the batches are exhausted |
| Pipeline.Iteration | aic_google_vision_script.py:227-248 | one pass of the loop body moves both files and the cursor on by one batch |
| Pipeline.RunPipeline | aic_google_vision_script.py:226-248 | the loop runs ceil(n/b) times, stops one batch past the end, writes exactly PipelineOutput to the files and leaves the buffers empty |
| Pipeline.TransportFailureFailsWholeBatch | aic_google_vision_script.py:241-244 | a failed call fails every row of the batch, once each, with the same error, and labels nothing |
| Pipeline.WellFormedReplyAccounting | aic_google_vision_script.py:240 | a complete reply that raises nothing gives each row its own labels or its one error row, and nothing is failed in bulk |
| Pipeline.ShortReplyFailsBatchAfterPartialErrors | aic_google_vision_script.py:240-244 | a short reply keeps the per-row error rows already made, drops all labels and then fails every row of the batch |
| Pipeline.ShortReplyDuplicatesErrorRow | aic_google_vision_script.py:240-244 | two rows with one error entry: the first row reaches the error file twice |
| Pipeline.ShortReplyDropsLabels | aic_google_vision_script.py:240-244 | two rows with one labelled entry: the label found is never written |
| Pipeline.LongReplyIgnoresExtraEntries | aic_google_vision_script.py:240 | reply entries past the batch length change nothing |
| Pipeline.AllCallsFailingFailsEveryRow | aic_google_vision_script.py:226-248 | if every call fails, the first n batches put each of their rows in the error file once, in input order, and nothing in the output file |
| Pipeline.FailingRunFailsEveryInputRow | aic_google_vision_script.py:226-248 | a whole run in which every call fails gives one error row per input row, in input order |
| Scenarios.SunflowersLabelled | aic_google_vision_script.py:112 | one row and one "flower" label with no filter give one output row, with description "flower" |
| Scenarios.SunflowersFiltered | aic_google_vision_script.py:109-110 | the same row filtered on "flower" gives no output row and no error row |
| Scenarios.SunflowersServiceError | aic_google_vision_script.py:114-116 | an `{"error": {"message": "bad image"}}` entry gives one error row carrying that error object |
| Scenarios.ThreeRowTransportFailure | aic_google_vision_script.py:241-244 | a three-row batch whose call raises gives three error rows with the same error and no output row |

## Left out

- Argument parsing, configuration checks, default file names and the API key
  (`find_next_filename` and the main block up to line 217) are outside the
  model. The pipeline receives the batch size, the label limit and the filter
  list as values.
- The HTTP request, TLS context, `json.dumps` and `json.loads` (lines 231-237)
  are not modelled. They are the `remote` parameter, which returns the decoded
  `responses` list or the exception raised. `responses` is taken to be a list.
  A `responses` value of another JSON kind is not modelled.
- Pipeline.RunPipeline: the log line at line 229 is not modelled. It reads
  `line_number` and `Title` of the first and last rows of the batch and
  concatenates `Title`. For rows read from a CSV file and validated, it cannot
  raise. The model also accepts other buffers. For a row without
  `line_number`, or one whose `Title` is not a string, the script raises
  KeyError or TypeError there and writes that exception to the error file,
  which the model does not show. The same gap applies to the members below.
- Pipeline.ProcessBatch: does not model the line 229 exception (see RunPipeline).
- Pipeline.RunBatch: does not model the line 229 exception (see RunPipeline).
- Pipeline.Iteration: does not model the line 229 exception (see RunPipeline).
- Pipeline.AllCallsFailingFailsEveryRow: the error value `Exc(e)` it states is
  the call's exception; for a batch whose first or last row lacks
  `line_number` or has a non-string `Title`, the script writes the line 229
  exception instead.
- Pipeline.FailingRunFailsEveryInputRow: the same line 229 gap as
  AllCallsFailingFailsEveryRow.
- Logging, `time.sleep` (line 247), `close_files` and the final message are
  left out. So is the opening of real files: a file is the sequence of lines
  written to it. Whether a file already exists is an input to the
  `OutputCsv` constructor.
- `csv.DictReader` parsing is left out. That covers quoting, the `restkey`
  entry for extra fields and `restval` for missing fields. The records arrive
  already split, each with the reader's `line_num`.
- `csv.DictWriter` formatting of cell values with `str()` is left out: a line
  holds the cell values themselves.
- Values.Lower: lower-cases only the ASCII letters A-Z. Python's `str.lower`
  also lower-cases other Unicode letters.
- InputLoader.InputCsv.GetNextBatch: the batch size is a `nat`. Batching
  properties and the loop require a batch size of at least 1. With a batch
  size of 0 the first `get_next_batch` returns `rows[0:0]`, which is `[]`, so
  the loop body never runs and nothing is processed. The configuration check
  at lines 178-179 rejects such a size anyway.
- Dictionary iteration order does not matter to the script and is not
  modelled: a `Row` is a map.
- An uncaught AssertionError from validation ends the script before any batch
  is sent. The model returns it from `ParseAndValidateInput` and does not
  model the process exit.
