/**
 * The output side of the pipeline (OutputCsv): two in-memory buffers, one for
 * labelled rows and one for failed rows, and the two CSV files they are flushed
 * to. A file is modelled by the sequence of lines its csv.DictWriter has written.
 */
module OutputSink {
  import opened Values
  import opened Reconcile

  /** The columns of the output file, in writer order. */
  const OutputColumns: seq<string> :=
    ["line_number", "Title", "Artist Title", "Id", "Website URL", "IIIF Image URL", "mid", "description", "score", "topicality"]

  /** The columns of the failed-row file, in writer order. */
  const ErrorColumns: seq<string> :=
    ["line_number", "Title", "Artist Title", "Id", "Website URL", "IIIF Image URL", "error"]

  /** A line of a CSV file: the header, or one written row. */
  datatype CsvLine = HeaderLine(names: seq<string>) | RecordLine(cells: seq<Value>)

  /** What DictWriter writes for one column: a missing key or None becomes the empty string. */
  function Cell(row: Row, column: string): Value {
    if column in row && row[column] != Null then row[column] else Str("")
  }

  /** writerow with extrasaction='ignore': exactly the writer's columns, in its order; other keys are dropped. */
  function Project(row: Row, columns: seq<string>): (cells: seq<Value>)
    ensures |cells| == |columns|
    ensures forall j :: 0 <= j < |columns| && columns[j] in row && row[columns[j]] != Null ==> cells[j] == row[columns[j]]
    ensures forall j :: 0 <= j < |columns| && (columns[j] !in row || row[columns[j]] == Null) ==> cells[j] == Str("")
  {
    seq(|columns|, j requires 0 <= j < |columns| => Cell(row, columns[j]))
  }

  /** The lines that writing `rows` one after the other appends. */
  function Records(rows: seq<Row>, columns: seq<string>): seq<CsvLine> {
    seq(|rows|, i requires 0 <= i < |rows| => RecordLine(Project(rows[i], columns)))
  }

  lemma RecordsAppend(a: seq<Row>, b: seq<Row>, columns: seq<string>)
    ensures Records(a + b, columns) == Records(a, columns) + Records(b, columns)
  {
  }

  /** The header decision of the constructor. */
  predicate WritesHeader(overwrite: bool, fileExists: bool) {
    overwrite || !fileExists
  }

  /**
   * The file right after the constructor: mode 'w' truncates, mode 'a' keeps what
   * is there; a header follows when overwriting or when the file did not exist.
   */
  function OpenedFile(existing: Option<seq<CsvLine>>, overwrite: bool, columns: seq<string>): (f: seq<CsvLine>)
    ensures overwrite || existing.None? ==> f == [HeaderLine(columns)]
    ensures !overwrite && existing.Some? ==> f == existing.value
  {
    var kept := if overwrite || existing.None? then [] else existing.value;
    kept + (if WritesHeader(overwrite, existing.Some?) then [HeaderLine(columns)] else [])
  }

  /** A file made of one header line followed by written rows. */
  predicate SingleHeader(f: seq<CsvLine>, columns: seq<string>) {
    |f| >= 1 && f[0] == HeaderLine(columns) && forall i :: 1 <= i < |f| ==> f[i].RecordLine?
  }

  /**
   * Resuming: re-opening a file without overwriting and flushing more rows keeps
   * every earlier line unchanged, appends only the new rows, and writes no second header.
   */
  lemma ResumeAppends(f: seq<CsvLine>, columns: seq<string>, rows: seq<Row>)
    requires SingleHeader(f, columns)
    ensures OpenedFile(Some(f), false, columns) + Records(rows, columns) == f + Records(rows, columns)
    ensures SingleHeader(f + Records(rows, columns), columns)
  {
  }

  /** A fresh or overwritten file starts with exactly one header, and flushing keeps it so. */
  lemma FreshFileSingleHeader(existing: Option<seq<CsvLine>>, overwrite: bool, columns: seq<string>, rows: seq<Row>)
    requires overwrite || existing.None?
    ensures SingleHeader(OpenedFile(existing, overwrite, columns) + Records(rows, columns), columns)
  {
  }

  /** OutputCsv: the two row buffers, the filter list and the two output files. */
  class OutputCsv {
    var rows: seq<Row>
    var errorRows: seq<Row>
    var outputFile: seq<CsvLine>
    var errorFile: seq<CsvLine>
    const labelFilters: seq<string>

    /** Opens both files (their earlier contents, if they exist, are given) and writes the headers that are due. */
    constructor(labelFilters: seq<string>, overwrite: bool,
                existingOutput: Option<seq<CsvLine>>, existingErrors: Option<seq<CsvLine>>)
      ensures rows == [] && errorRows == [] && this.labelFilters == labelFilters
      ensures outputFile == OpenedFile(existingOutput, overwrite, OutputColumns)
      ensures errorFile == OpenedFile(existingErrors, overwrite, ErrorColumns)
    {
      rows := [];
      errorRows := [];
      outputFile := if overwrite || existingOutput.None? then [] else existingOutput.value;
      errorFile := if overwrite || existingErrors.None? then [] else existingErrors.value;
      if WritesHeader(overwrite, existingOutput.Some?) {
        outputFile := outputFile + [HeaderLine(OutputColumns)];
      }
      if WritesHeader(overwrite, existingErrors.Some?) {
        errorFile := errorFile + [HeaderLine(ErrorColumns)];
      }
      this.labelFilters := labelFilters;
    }

    /**
     * The annotation loop of add_rows for one row: the surviving labels merged
     * into the row. Logging a filtered label reads the row's image URL.
     */
    method CollectLabels(row: Row, annotations: seq<Value>) returns (outcome: EntryOutcome)
      ensures outcome == LabelRows(row, annotations, labelFilters)
    {
      var currentRows: seq<Row> := [];
      for k := 0 to |annotations|
        invariant LabelRows(row, annotations[..k], labelFilters) == Labelled(currentRows)
      {
        assert annotations[..k + 1][..k] == annotations[..k];
        var description := Description(annotations[k]);
        if description.Failure? {
          LabelRowsStopsAtRaise(row, annotations, labelFilters, k + 1);
          return Raises(description.error);
        }
        if Lower(description.value) in labelFilters {
          if ImageUrlColumn !in row {
            LabelRowsStopsAtRaise(row, annotations, labelFilters, k + 1);
            return Raises(KeyError(ImageUrlColumn));
          }
          if !row[ImageUrlColumn].Str? {
            LabelRowsStopsAtRaise(row, annotations, labelFilters, k + 1);
            return Raises(TypeError);
          }
        } else {
          currentRows := currentRows + [Merge(row, annotations[k].fields)];
        }
      }
      assert annotations[..|annotations|] == annotations;
      outcome := Labelled(currentRows);
    }

    /**
     * The body of the outer loop of add_rows for one row and its response entry:
     * the row's labelled rows, its single error row, or the exception raised.
     */
    method ReconcileEntry(row: Row, entry: Value) returns (outcome: EntryOutcome)
      ensures outcome == EntryOutcomeOf(row, entry, labelFilters)
    {
      if !entry.Object? {
        return Raises(AttributeError);
      }
      if LabelAnnotationsKey in entry.fields {
        var annotations := Iterated(entry.fields[LabelAnnotationsKey]);
        if annotations.Failure? {
          return Raises(annotations.error);
        }
        outcome := CollectLabels(row, annotations.value);
      } else if ErrorKey in entry.fields {
        outcome := RowError(Merge(row, map[ErrorKey := entry.fields[ErrorKey]]));
      } else {
        outcome := RowError(Merge(row, map[ErrorKey := Str(UnknownError)]));
      }
    }

    /**
     * add_rows: error rows go straight into the error buffer; labelled rows are
     * collected locally and reach the buffer only if the whole batch went through.
     * A raised exception is returned, with the error rows appended before it kept.
     */
    method AddRows(batch: seq<Row>, responses: seq<Value>) returns (raised: Option<PyError>)
      modifies this`rows, this`errorRows
      ensures raised == AddRowsEffect(batch, responses, labelFilters).raised
      ensures errorRows == old(errorRows) + AddRowsEffect(batch, responses, labelFilters).failed
      ensures rows == if raised.None? then old(rows) + AddRowsEffect(batch, responses, labelFilters).labelled
                      else old(rows)
    {
      var collected: seq<Row> := [];
      var i := 0;
      while i < |batch|
        invariant 0 <= i <= |batch|
        invariant AddRowsEffect(batch[..i], responses, labelFilters).raised.None?
        invariant collected == AddRowsEffect(batch[..i], responses, labelFilters).labelled
        invariant errorRows == old(errorRows) + AddRowsEffect(batch[..i], responses, labelFilters).failed
        invariant rows == old(rows)
      {
        assert batch[..i + 1][..i] == batch[..i] && batch[..i + 1][i] == batch[i];
        ghost var prev := AddRowsEffect(batch[..i], responses, labelFilters);
        ghost var next := AddRowsEffect(batch[..i + 1], responses, labelFilters);
        if i >= |responses| {
          AddRowsStopsAtRaise(batch, responses, labelFilters, i + 1);
          return Some(IndexError);
        }
        var outcome := ReconcileEntry(batch[i], responses[i]);
        match outcome {
          case Raises(e) =>
            AddRowsStopsAtRaise(batch, responses, labelFilters, i + 1);
            return Some(e);
          case Labelled(current) =>
            assert next == prev.(labelled := prev.labelled + current);
            collected := collected + current;
          case RowError(r) =>
            assert next == prev.(failed := prev.failed + [r]);
            errorRows := errorRows + [r];
        }
        i := i + 1;
      }
      assert batch[..i] == batch;
      rows := rows + collected;
      raised := None;
    }

    /** add_error_rows: one error row per batch row, in order, all with the same error; the success buffer is untouched. */
    method AddErrorRows(batch: seq<Row>, error: Value)
      modifies this`errorRows
      ensures errorRows == old(errorRows) + ErrorRows(batch, error)
    {
      for k := 0 to |batch|
        invariant errorRows == old(errorRows) + ErrorRows(batch[..k], error)
      {
        assert batch[..k + 1] == batch[..k] + [batch[k]];
        errorRows := errorRows + [Merge(batch[k], map[ErrorKey := error])];
      }
      assert batch[..|batch|] == batch;
    }

    /** flush_output: every buffered success row, then every buffered error row, in arrival order; both buffers end empty. */
    method FlushOutput()
      modifies this`rows, this`errorRows, this`outputFile, this`errorFile
      ensures outputFile == old(outputFile) + Records(old(rows), OutputColumns)
      ensures errorFile == old(errorFile) + Records(old(errorRows), ErrorColumns)
      ensures rows == [] && errorRows == []
    {
      for k := 0 to |rows|
        invariant rows == old(rows) && errorRows == old(errorRows) && errorFile == old(errorFile)
        invariant outputFile == old(outputFile) + Records(rows[..k], OutputColumns)
      {
        assert rows[..k + 1] == rows[..k] + [rows[k]];
        outputFile := outputFile + [RecordLine(Project(rows[k], OutputColumns))];
      }
      assert rows[..|rows|] == rows;
      for k := 0 to |errorRows|
        invariant rows == old(rows) && errorRows == old(errorRows)
        invariant outputFile == old(outputFile) + Records(rows, OutputColumns)
        invariant errorFile == old(errorFile) + Records(errorRows[..k], ErrorColumns)
      {
        assert errorRows[..k + 1] == errorRows[..k] + [errorRows[k]];
        errorFile := errorFile + [RecordLine(Project(errorRows[k], ErrorColumns))];
      }
      assert errorRows[..|errorRows|] == errorRows;
      rows := [];
      errorRows := [];
    }
  }
}
