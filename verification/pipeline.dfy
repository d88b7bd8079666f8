/**
 * The batch loop of the script's main block: fetch a batch, build its request,
 * call the annotation service, reconcile the responses or fail the whole batch,
 * flush both buffers, and go on until the cursor hands out an empty batch.
 * The service is a parameter: for the k-th batch and its request body it gives
 * either the decoded `responses` list or the exception the call raised.
 */
module Pipeline {
  import opened Values
  import opened Validation
  import opened Batching
  import opened InputLoader
  import opened Requests
  import opened Reconcile
  import opened OutputSink

  /** The result of one remote call: the response entries, or the exception raised on the way. */
  datatype RemoteOutcome = Responded(responses: seq<Value>) | Failed(error: PyError)

  /** The rows one iteration adds to the success buffer and to the error buffer. */
  datatype BatchOutput = BatchOutput(successes: seq<Row>, errors: seq<Row>)

  /**
   * What the try block meets for the k-th batch: the KeyError of a row without
   * an image URL, raised while the request is built and before any call, or
   * else the service's answer to the request body.
   */
  function CallOutcome(batch: seq<Row>, k: nat, features: seq<Feature>,
                       remote: (nat, seq<AnnotateRequest>) -> RemoteOutcome): (r: RemoteOutcome)
    ensures (exists i :: 0 <= i < |batch| && ImageUrlColumn !in batch[i]) ==> r == Failed(KeyError(ImageUrlColumn))
    ensures (forall i :: 0 <= i < |batch| ==> ImageUrlColumn in batch[i]) ==>
              RequestsFor(batch, features).Success? && r == remote(k, RequestsFor(batch, features).value)
  {
    match RequestsFor(batch, features)
    case Failure(e) => Failed(e)
    case Success(requests) => remote(k, requests)
  }

  /**
   * One iteration of the loop body: add_rows on a reply, add_error_rows with the
   * exception otherwise. An exception raised inside add_rows keeps the error rows
   * it already appended, drops its local successes, and then fails every batch row.
   */
  function BatchEffect(batch: seq<Row>, outcome: RemoteOutcome, filters: seq<string>): (r: BatchOutput)
    ensures outcome.Failed? ==> r.successes == [] && |r.errors| == |batch|
    ensures outcome.Responded? && AddRowsEffect(batch, outcome.responses, filters).raised.Some? ==>
              r.successes == [] && |r.errors| >= |batch|
    ensures r.successes != [] ==> outcome.Responded? && AddRowsEffect(batch, outcome.responses, filters).raised.None?
    ensures forall i :: 0 <= i < |r.errors| ==> ErrorKey in r.errors[i]
  {
    match outcome
    case Failed(e) => BatchOutput([], ErrorRows(batch, Exc(e)))
    case Responded(responses) =>
      var added := AddRowsEffect(batch, responses, filters);
      if added.raised.None? then BatchOutput(added.labelled, added.failed)
      else BatchOutput([], added.failed + ErrorRows(batch, Exc(added.raised.value)))
  }

  /** The rows the k-th iteration hands to the two buffers. */
  function IterationOutput(batch: seq<Row>, k: nat, features: seq<Feature>, filters: seq<string>,
                           remote: (nat, seq<AnnotateRequest>) -> RemoteOutcome): BatchOutput
  {
    BatchEffect(batch, CallOutcome(batch, k, features, remote), filters)
  }

  /** Everything the loop hands to the two buffers over the first n batches, batch by batch. */
  function PipelineOutput(batches: seq<seq<Row>>, n: nat, features: seq<Feature>, filters: seq<string>,
                          remote: (nat, seq<AnnotateRequest>) -> RemoteOutcome): (r: BatchOutput)
    requires n <= |batches|
    ensures forall i :: 0 <= i < |r.errors| ==> ErrorKey in r.errors[i]
  {
    if n == 0 then BatchOutput([], [])
    else
      var prev := PipelineOutput(batches, n - 1, features, filters, remote);
      var out := IterationOutput(batches[n - 1], n - 1, features, filters, remote);
      BatchOutput(prev.successes + out.successes, prev.errors + out.errors)
  }

  /**
   * Every batch cut from validated rows reaches the service: its request body is
   * built without a KeyError, and the call gets one entry per row.
   */
  lemma ValidBatchesReachService(rows: seq<Row>, b: nat, features: seq<Feature>,
                                 remote: (nat, seq<AnnotateRequest>) -> RemoteOutcome)
    requires b >= 1
    requires forall i :: 0 <= i < |rows| ==> RowIsValid(rows[i])
    ensures forall k :: 0 <= k < |Batches(rows, b)| ==>
              RequestsFor(Batches(rows, b)[k], features).Success?
              && |RequestsFor(Batches(rows, b)[k], features).value| == |Batches(rows, b)[k]|
              && CallOutcome(Batches(rows, b)[k], k, features, remote)
                 == remote(k, RequestsFor(Batches(rows, b)[k], features).value)
  {
    var all := Batches(rows, b);
    BatchesFromBuffer(rows, b);
    forall k | 0 <= k < |all|
      ensures RequestsFor(all[k], features).Success?
    {
      forall i | 0 <= i < |all[k]|
        ensures ImageUrlColumn in all[k][i]
      {
        assert all[k][i] in all[k];
        assert all[k][i] in rows;
        var j :| 0 <= j < |rows| && rows[j] == all[k][i];
        assert RowIsValid(rows[j]);
      }
    }
  }

  /** The files after one more batch: what they held, then that batch's rows. */
  lemma FilesAfterBatch(batches: seq<seq<Row>>, k: nat, features: seq<Feature>, filters: seq<string>,
                        remote: (nat, seq<AnnotateRequest>) -> RemoteOutcome, outputFile: seq<CsvLine>, errorFile: seq<CsvLine>)
    requires k < |batches|
    ensures var out := IterationOutput(batches[k], k, features, filters, remote);
            outputFile + Records(PipelineOutput(batches, k, features, filters, remote).successes, OutputColumns)
                       + Records(out.successes, OutputColumns)
              == outputFile + Records(PipelineOutput(batches, k + 1, features, filters, remote).successes, OutputColumns)
    ensures var out := IterationOutput(batches[k], k, features, filters, remote);
            errorFile + Records(PipelineOutput(batches, k, features, filters, remote).errors, ErrorColumns)
                      + Records(out.errors, ErrorColumns)
              == errorFile + Records(PipelineOutput(batches, k + 1, features, filters, remote).errors, ErrorColumns)
  {
    var prev := PipelineOutput(batches, k, features, filters, remote);
    var out := IterationOutput(batches[k], k, features, filters, remote);
    RecordsAppend(prev.successes, out.successes, OutputColumns);
    RecordsAppend(prev.errors, out.errors, ErrorColumns);
  }

  /**
   * add_rows on a reply, and add_error_rows when add_rows raised: the error rows
   * add_rows appended before raising stay, followed by one per batch row.
   */
  method ReconcileReply(output: OutputCsv, batch: seq<Row>, responses: seq<Value>)
    modifies output`rows, output`errorRows
    ensures output.rows == old(output.rows) + BatchEffect(batch, Responded(responses), output.labelFilters).successes
    ensures output.errorRows == old(output.errorRows) + BatchEffect(batch, Responded(responses), output.labelFilters).errors
  {
    ghost var added := AddRowsEffect(batch, responses, output.labelFilters);
    ghost var effect := BatchEffect(batch, Responded(responses), output.labelFilters);
    var raised := output.AddRows(batch, responses);
    ghost var kept := output.errorRows;
    if raised.Some? {
      output.AddErrorRows(batch, Exc(raised.value));
      assert effect == BatchOutput([], added.failed + ErrorRows(batch, Exc(added.raised.value)));
      assert kept == old(output.errorRows) + added.failed;
      assert output.errorRows == kept + ErrorRows(batch, Exc(added.raised.value));
    } else {
      assert effect == BatchOutput(added.labelled, added.failed);
    }
  }

  /**
   * The except clause and the add_rows call: a reply is reconciled, and an
   * exception, whether raised before the reply or inside add_rows, fails the
   * whole batch; the buffers grow by BatchEffect.
   */
  method HandleOutcome(output: OutputCsv, batch: seq<Row>, outcome: RemoteOutcome)
    modifies output`rows, output`errorRows
    ensures output.rows == old(output.rows) + BatchEffect(batch, outcome, output.labelFilters).successes
    ensures output.errorRows == old(output.errorRows) + BatchEffect(batch, outcome, output.labelFilters).errors
  {
    match outcome {
      case Responded(responses) =>
        ReconcileReply(output, batch, responses);
      case Failed(e) =>
        output.AddErrorRows(batch, Exc(e));
    }
  }

  /**
   * The try block of one iteration: build the request, call the service, and
   * hand the reply or the exception raised on the way to HandleOutcome.
   */
  method ProcessBatch(output: OutputCsv, batch: seq<Row>, k: nat, maxLabels: int,
                      remote: (nat, seq<AnnotateRequest>) -> RemoteOutcome)
    modifies output`rows, output`errorRows
    ensures output.rows == old(output.rows)
              + IterationOutput(batch, k, Features(maxLabels), output.labelFilters, remote).successes
    ensures output.errorRows == old(output.errorRows)
              + IterationOutput(batch, k, Features(maxLabels), output.labelFilters, remote).errors
  {
    var requestJson := new RequestJson(maxLabels);
    var requests := requestJson.GetJsonForBatch(batch);
    var outcome: RemoteOutcome;
    match requests {
      case Failure(e) =>
        outcome := Failed(e);
      case Success(body) =>
        outcome := remote(k, body);
    }
    assert outcome == CallOutcome(batch, k, Features(maxLabels), remote);
    HandleOutcome(output, batch, outcome);
  }

  /**
   * One full iteration of the loop on the k-th batch: the try/except, then
   * flush_output. Both files grow by that batch's rows, so that after it they
   * hold the output of the first k + 1 batches.
   */
  method RunBatch(output: OutputCsv, batch: seq<Row>, k: nat, maxLabels: int,
                  remote: (nat, seq<AnnotateRequest>) -> RemoteOutcome,
                  ghost batches: seq<seq<Row>>, ghost outputFile: seq<CsvLine>, ghost errorFile: seq<CsvLine>)
    requires k < |batches| && batch == batches[k]
    requires output.rows == [] && output.errorRows == []
    requires output.outputFile == outputFile
               + Records(PipelineOutput(batches, k, Features(maxLabels), output.labelFilters, remote).successes, OutputColumns)
    requires output.errorFile == errorFile
               + Records(PipelineOutput(batches, k, Features(maxLabels), output.labelFilters, remote).errors, ErrorColumns)
    modifies output`rows, output`errorRows, output`outputFile, output`errorFile
    ensures output.rows == [] && output.errorRows == []
    ensures output.outputFile == outputFile
              + Records(PipelineOutput(batches, k + 1, Features(maxLabels), output.labelFilters, remote).successes, OutputColumns)
    ensures output.errorFile == errorFile
              + Records(PipelineOutput(batches, k + 1, Features(maxLabels), output.labelFilters, remote).errors, ErrorColumns)
  {
    ProcessBatch(output, batch, k, maxLabels, remote);
    output.FlushOutput();
    FilesAfterBatch(batches, k, Features(maxLabels), output.labelFilters, remote, outputFile, errorFile);
  }

  /** get_next_batch after k + 1 batches: the cursor moves on and hands out batch k + 1, or nothing. */
  method NextBatch(input: InputCsv, ghost k: nat) returns (next: seq<Row>)
    requires input.batchSize >= 1 && input.currentIndex == Cursor(k + 1, input.batchSize)
    modifies input`currentIndex
    ensures input.currentIndex == Cursor(k + 2, input.batchSize)
    ensures next == if k + 1 < |Batches(input.rows, input.batchSize)| then Batches(input.rows, input.batchSize)[k + 1] else []
  {
    CursorBatch(input.rows, input.batchSize, k + 1);
    next := input.GetNextBatch();
  }

  /**
   * The body of the main loop on batch k: the batch is processed and flushed,
   * and the cursor hands out the next batch. Afterwards the files hold the
   * output of the first k + 1 batches.
   */
  method Iteration(input: InputCsv, output: OutputCsv, batch: seq<Row>, k: nat, maxLabels: int,
                   remote: (nat, seq<AnnotateRequest>) -> RemoteOutcome,
                   ghost all: seq<seq<Row>>, ghost outputFile: seq<CsvLine>, ghost errorFile: seq<CsvLine>)
    returns (next: seq<Row>)
    requires input.batchSize >= 1 && all == Batches(input.rows, input.batchSize)
    requires input.currentIndex == Cursor(k + 1, input.batchSize)
    requires k < |all| && batch == all[k]
    requires output.rows == [] && output.errorRows == []
    requires output.outputFile == outputFile
               + Records(PipelineOutput(all, k, Features(maxLabels), output.labelFilters, remote).successes, OutputColumns)
    requires output.errorFile == errorFile
               + Records(PipelineOutput(all, k, Features(maxLabels), output.labelFilters, remote).errors, ErrorColumns)
    modifies input`currentIndex, output`rows, output`errorRows, output`outputFile, output`errorFile
    ensures input.currentIndex == Cursor(k + 2, input.batchSize)
    ensures next == if k + 1 < |all| then all[k + 1] else []
    ensures output.rows == [] && output.errorRows == []
    ensures output.outputFile == outputFile
              + Records(PipelineOutput(all, k + 1, Features(maxLabels), output.labelFilters, remote).successes, OutputColumns)
    ensures output.errorFile == errorFile
              + Records(PipelineOutput(all, k + 1, Features(maxLabels), output.labelFilters, remote).errors, ErrorColumns)
  {
    RunBatch(output, batch, k, maxLabels, remote, all, outputFile, errorFile);
    next := NextBatch(input, k);
  }

  /**
   * The main loop. It runs once per batch, ceil(n/b) times, leaves the cursor one
   * batch past the end, and writes to the files exactly what PipelineOutput says,
   * batch after batch, with nothing left in the buffers.
   */
  method RunPipeline(input: InputCsv, output: OutputCsv, maxLabels: int,
                     remote: (nat, seq<AnnotateRequest>) -> RemoteOutcome) returns (iterations: nat)
    requires input.batchSize >= 1 && input.currentIndex == 0
    requires output.rows == [] && output.errorRows == []
    modifies input`currentIndex, output`rows, output`errorRows, output`outputFile, output`errorFile
    ensures output.rows == [] && output.errorRows == []
    ensures iterations == CeilDiv(|input.rows|, input.batchSize) == |Batches(input.rows, input.batchSize)|
    ensures input.currentIndex == Cursor(iterations + 1, input.batchSize)
    ensures output.outputFile == old(output.outputFile)
              + Records(PipelineOutput(Batches(input.rows, input.batchSize), iterations, Features(maxLabels),
                                       output.labelFilters, remote).successes, OutputColumns)
    ensures output.errorFile == old(output.errorFile)
              + Records(PipelineOutput(Batches(input.rows, input.batchSize), iterations, Features(maxLabels),
                                       output.labelFilters, remote).errors, ErrorColumns)
  {
    var b := input.batchSize;
    ghost var all := Batches(input.rows, b);
    ghost var outputFile, errorFile := output.outputFile, output.errorFile;
    BatchCount(input.rows, b);
    CursorBatch(input.rows, b, 0);
    var batch := input.GetNextBatch();
    iterations := 0;
    while batch != []
      invariant input.currentIndex == Cursor(iterations + 1, b)
      invariant all == Batches(input.rows, b)
      invariant iterations <= |all|
      invariant batch == if iterations < |all| then all[iterations] else []
      invariant output.rows == [] && output.errorRows == []
      invariant output.outputFile == outputFile
                  + Records(PipelineOutput(all, iterations, Features(maxLabels), output.labelFilters, remote).successes, OutputColumns)
      invariant output.errorFile == errorFile
                  + Records(PipelineOutput(all, iterations, Features(maxLabels), output.labelFilters, remote).errors, ErrorColumns)
      decreases |all| - iterations
    {
      batch := Iteration(input, output, batch, iterations, maxLabels, remote, all, outputFile, errorFile);
      iterations := iterations + 1;
    }
    CursorBatch(input.rows, b, iterations);
  }

  /** A failed remote call fails every row of the batch, once each, with the same error, and labels nothing. */
  lemma TransportFailureFailsWholeBatch(batch: seq<Row>, e: PyError, filters: seq<string>)
    ensures BatchEffect(batch, Failed(e), filters).successes == []
    ensures |BatchEffect(batch, Failed(e), filters).errors| == |batch|
    ensures forall i :: 0 <= i < |batch| ==>
              BatchEffect(batch, Failed(e), filters).errors[i] == Merge(batch[i], map[ErrorKey := Exc(e)])
  {
  }

  /**
   * A complete, well-formed reply: each row contributes exactly its surviving
   * labels, or exactly one error row, and nothing is failed in bulk.
   */
  lemma WellFormedReplyAccounting(batch: seq<Row>, responses: seq<Value>, filters: seq<string>)
    requires |responses| >= |batch|
    requires NoneRaise(Outcomes(batch, responses, filters))
    ensures BatchEffect(batch, Responded(responses), filters)
         == BatchOutput(Successes(Outcomes(batch, responses, filters)), Errors(Outcomes(batch, responses, filters)))
  {
    AddRowsAccounting(batch, responses, filters);
  }

  /**
   * A reply with fewer entries than rows: add_rows raises IndexError, the labels of
   * the rows that did have an entry are lost, their per-row error rows stay, and
   * then every row of the batch gets one more error row.
   */
  lemma ShortReplyFailsBatchAfterPartialErrors(batch: seq<Row>, responses: seq<Value>, filters: seq<string>)
    requires |responses| < |batch|
    requires NoneRaise(Outcomes(batch[..|responses|], responses, filters))
    ensures BatchEffect(batch, Responded(responses), filters)
         == BatchOutput([], Errors(Outcomes(batch[..|responses|], responses, filters)) + ErrorRows(batch, Exc(IndexError)))
  {
    ShortResponsesRaise(batch, responses, filters);
  }

  /**
   * Any exception raised inside add_rows, at row j: the error rows of the rows
   * before j stay, every label is lost, and then every row of the batch gets one
   * more error row carrying that exception.
   */
  lemma RaiseAtFailsBatch(batch: seq<Row>, responses: seq<Value>, filters: seq<string>, j: nat)
    requires j < |batch| && j < |responses|
    requires NoneRaise(Outcomes(batch[..j], responses, filters))
    requires EntryOutcomeOf(batch[j], responses[j], filters).Raises?
    ensures BatchEffect(batch, Responded(responses), filters)
         == BatchOutput([], Errors(Outcomes(batch[..j], responses, filters))
                            + ErrorRows(batch, Exc(EntryOutcomeOf(batch[j], responses[j], filters).error)))
  {
    AddRowsAccounting(batch[..j], responses, filters);
    assert batch[..j + 1][..j] == batch[..j];
    assert batch[..j + 1][j] == batch[j];
    AddRowsStopsAtRaise(batch, responses, filters, j + 1);
  }

  /** Concretely: two rows, one error entry. The first row is written to the error file twice. */
  lemma ShortReplyDuplicatesErrorRow(r0: Row, r1: Row, e: Value, filters: seq<string>)
    ensures BatchEffect([r0, r1], Responded([Object(map[ErrorKey := e])]), filters)
         == BatchOutput([], [Merge(r0, map[ErrorKey := e]), Merge(r0, map[ErrorKey := Exc(IndexError)]),
                             Merge(r1, map[ErrorKey := Exc(IndexError)])])
  {
    var reply := Object(map[ErrorKey := e]);
    assert [r0, r1][..1] == [r0];
    assert [r0][..0] == [];
    assert AddRowsEffect([r0], [reply], filters) == RowsAdded([], [Merge(r0, map[ErrorKey := e])], None);
  }

  /** Concretely: two rows, one labelled entry. The label that was found is never written. */
  lemma ShortReplyDropsLabels(r0: Row, r1: Row, description: string, filters: seq<string>)
    requires Lower(description) !in filters
    ensures (var reply := Object(map[LabelAnnotationsKey := List([Object(map[DescriptionKey := Str(description)])])]);
             BatchEffect([r0, r1], Responded([reply]), filters) == BatchOutput([], ErrorRows([r0, r1], Exc(IndexError))))
  {
    var a := Object(map[DescriptionKey := Str(description)]);
    var reply := Object(map[LabelAnnotationsKey := List([a])]);
    assert [a][..0] == [];
    assert LabelRows(r0, [a], filters) == Labelled([Merge(r0, a.fields)]);
    assert EntryOutcomeOf(r0, reply, filters) == Labelled([Merge(r0, a.fields)]);
    assert [r0][..0] == [];
    assert AddRowsEffect([r0], [reply], filters) == RowsAdded([Merge(r0, a.fields)], [], None);
    assert [r0, r1][..1] == [r0];
    assert AddRowsEffect([r0, r1], [reply], filters) == RowsAdded([Merge(r0, a.fields)], [], Some(IndexError));
  }

  /** Entries past the end of the batch change nothing. */
  lemma LongReplyIgnoresExtraEntries(batch: seq<Row>, responses: seq<Value>, extra: seq<Value>, filters: seq<string>)
    requires |responses| >= |batch|
    ensures BatchEffect(batch, Responded(responses + extra), filters) == BatchEffect(batch, Responded(responses), filters)
  {
    ExtraResponsesIgnored(batch, responses, extra, filters);
  }

  /** Every row of every batch has an image URL, so every request body can be built. */
  predicate HasImages(batches: seq<seq<Row>>) {
    forall k, i :: 0 <= k < |batches| && 0 <= i < |batches[k]| ==> ImageUrlColumn in batches[k][i]
  }

  /**
   * If every call fails, the error file receives every row of the first n batches
   * exactly once, in input order, and the output file receives nothing.
   */
  lemma {:induction false} AllCallsFailingFailsEveryRow(batches: seq<seq<Row>>, n: nat, features: seq<Feature>,
                                                        filters: seq<string>, e: PyError)
    requires HasImages(batches) && n <= |batches|
    ensures PipelineOutput(batches, n, features, filters, (k: nat, r: seq<AnnotateRequest>) => Failed(e))
         == BatchOutput([], ErrorRows(Flatten(batches[..n]), Exc(e)))
  {
    if n > 0 {
      AllCallsFailingFailsEveryRow(batches, n - 1, features, filters, e);
      assert RequestsFor(batches[n - 1], features).Success?;
      assert batches[..n] == batches[..n - 1] + [batches[n - 1]];
      FlattenSnoc(batches[..n - 1], batches[n - 1]);
      ErrorRowsAppend(Flatten(batches[..n - 1]), batches[n - 1], Exc(e));
    }
  }

  /** The whole run with every call failing: one error row per input row, in input order. */
  lemma FailingRunFailsEveryInputRow(rows: seq<Row>, b: nat, features: seq<Feature>, filters: seq<string>, e: PyError)
    requires b >= 1
    requires forall i :: 0 <= i < |rows| ==> ImageUrlColumn in rows[i]
    ensures var all := Batches(rows, b);
            PipelineOutput(all, |all|, features, filters, (k: nat, r: seq<AnnotateRequest>) => Failed(e))
              == BatchOutput([], ErrorRows(rows, Exc(e)))
  {
    var all := Batches(rows, b);
    BatchesFromBuffer(rows, b);
    forall k, i | 0 <= k < |all| && 0 <= i < |all[k]|
      ensures ImageUrlColumn in all[k][i]
    {
      assert all[k][i] in all[k];
      assert all[k][i] in rows;
    }
    AllCallsFailingFailsEveryRow(all, |all|, features, filters, e);
    assert all[..|all|] == all;
    BatchesPartition(rows, b);
  }
}
