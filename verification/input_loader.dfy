/**
 * The input side of the pipeline (AicInputCsv): reading the CSV rows that lie in
 * a line-number window, validating them, buffering them, and handing them out
 * in batches through a cursor.
 */
module InputLoader {
  import opened Values
  import opened Validation
  import opened Batching

  /**
   * One record as csv.DictReader yields it: the reader's `line_num` after the
   * record was read (a physical line count that includes the header line) and
   * the record's fields.
   */
  datatype ReadRecord = ReadRecord(lineNum: int, fields: Row)

  /** The buffered row: the record's fields, given a line_number when the file has no such column. */
  function WithLineNumber(rec: ReadRecord): (row: Row)
    ensures row.Keys == rec.fields.Keys + {"line_number"}
    ensures forall k :: k in rec.fields ==> row[k] == rec.fields[k]
    ensures "line_number" !in rec.fields ==> row["line_number"] == Int(rec.lineNum)
  {
    if "line_number" in rec.fields then rec.fields else rec.fields["line_number" := Int(rec.lineNum)]
  }

  /** The window test, on the reader's line number (never on the line_number column). */
  predicate InWindow(lineNum: int, start: int, end: int) {
    start <= lineNum && lineNum <= end
  }

  /** The records whose reader line number lies in [start, end], in file order. */
  function Window(records: seq<ReadRecord>, start: int, end: int): (w: seq<ReadRecord>)
    ensures |w| <= |records|
  {
    if records == [] then []
    else
      var last := records[|records| - 1];
      Window(records[..|records| - 1], start, end) + (if InWindow(last.lineNum, start, end) then [last] else [])
  }

  /** The window keeps exactly the records whose line number is in range, and no more of them. */
  lemma {:induction false} WindowMembers(records: seq<ReadRecord>, start: int, end: int)
    ensures |Window(records, start, end)| <= |records|
    ensures forall r :: r in Window(records, start, end) <==> r in records && InWindow(r.lineNum, start, end)
  {
    if records != [] {
      var init := records[..|records| - 1];
      WindowMembers(init, start, end);
      assert records == init + [records[|records| - 1]];
    }
  }

  /** The rows a window contributes when every one of them is valid. */
  function RowsOf(w: seq<ReadRecord>): seq<Row> {
    seq(|w|, i requires 0 <= i < |w| => WithLineNumber(w[i]))
  }

  /**
   * What parse_and_validate_input leaves behind: either every row of the window,
   * or the AssertionError for the first invalid one, together with the rows
   * appended to the buffer before it was raised.
   */
  datatype LoadOutcome = Loaded(rows: seq<Row>) | Invalid(offending: Row, kept: seq<Row>)

  /** The loop of parse_and_validate_input, record by record. */
  function Load(records: seq<ReadRecord>, start: int, end: int): (r: LoadOutcome)
    ensures r.Loaded? ==> |r.rows| <= |records|
    ensures r.Invalid? ==> !RowIsValid(r.offending) && |r.kept| < |records|
  {
    if records == [] then Loaded([])
    else
      var prev := Load(records[..|records| - 1], start, end);
      var rec := records[|records| - 1];
      if prev.Invalid? || !InWindow(rec.lineNum, start, end) then prev
      else
        var row := WithLineNumber(rec);
        match AssertInputColumns(row)
        case Accepted => Loaded(prev.rows + [row])
        case Rejected(bad) => Invalid(bad, prev.rows)
  }

  /** Validation of an already windowed sequence of records. */
  function ValidateWindow(w: seq<ReadRecord>): (r: LoadOutcome)
    ensures r.Loaded? ==> |r.rows| == |w|
    ensures r.Invalid? ==> !RowIsValid(r.offending) && |r.kept| < |w|
  {
    if w == [] then Loaded([])
    else
      var prev := ValidateWindow(w[..|w| - 1]);
      var row := WithLineNumber(w[|w| - 1]);
      if prev.Invalid? then prev
      else if RowIsValid(row) then Loaded(prev.rows + [row])
      else Invalid(row, prev.rows)
  }

  /** Row j of the window is the first one that fails validation. */
  predicate FirstInvalidAt(w: seq<ReadRecord>, j: int)
    requires 0 <= j < |w|
  {
    !RowIsValid(WithLineNumber(w[j])) && forall i :: 0 <= i < j ==> RowIsValid(WithLineNumber(w[i]))
  }

  /** Once a row has been rejected, later records change nothing. */
  lemma {:induction false} LoadStopsAtRejection(records: seq<ReadRecord>, k: nat, start: int, end: int)
    requires k <= |records|
    requires Load(records[..k], start, end).Invalid?
    ensures Load(records, start, end) == Load(records[..k], start, end)
  {
    if k < |records| {
      var init := records[..|records| - 1];
      assert init[..k] == records[..k];
      LoadStopsAtRejection(init, k, start, end);
    } else {
      assert records[..k] == records;
    }
  }

  /**
   * Records outside the window are neither validated nor kept: loading the file
   * is validating its window.
   */
  lemma {:induction false} LoadSeesOnlyWindow(records: seq<ReadRecord>, start: int, end: int)
    ensures Load(records, start, end) == ValidateWindow(Window(records, start, end))
  {
    if records != [] {
      var init := records[..|records| - 1];
      var last := records[|records| - 1];
      LoadSeesOnlyWindow(init, start, end);
      var w := Window(init, start, end);
      var prev := Load(init, start, end);
      assert prev == ValidateWindow(w);
      if InWindow(last.lineNum, start, end) {
        assert Window(records, start, end) == w + [last];
        assert (w + [last])[..|w|] == w;
        assert ValidateWindow(w + [last])
            == if prev.Invalid? then prev
               else if RowIsValid(WithLineNumber(last)) then Loaded(prev.rows + [WithLineNumber(last)])
               else Invalid(WithLineNumber(last), prev.rows);
      } else {
        assert Window(records, start, end) == w;
        assert Load(records, start, end) == prev;
      }
    }
  }

  /**
   * Validating a window succeeds exactly when every row in it is valid, and then
   * yields all of them, in order.
   */
  lemma {:induction false} ValidateWindowLoaded(w: seq<ReadRecord>)
    ensures ValidateWindow(w).Loaded? <==> forall rec :: rec in w ==> RowIsValid(WithLineNumber(rec))
    ensures ValidateWindow(w).Loaded? ==> ValidateWindow(w).rows == RowsOf(w)
  {
    if w != [] {
      var n := |w| - 1;
      var init := w[..n];
      var prev := ValidateWindow(init);
      var row := WithLineNumber(w[n]);
      ValidateWindowLoaded(init);
      assert w == init + [w[n]];
      if prev.Invalid? {
        assert ValidateWindow(w) == prev;
      } else if RowIsValid(row) {
        assert ValidateWindow(w) == Loaded(prev.rows + [row]);
        assert RowsOf(w) == RowsOf(init) + [row];
      } else {
        assert ValidateWindow(w) == Invalid(row, prev.rows);
      }
    }
  }

  /**
   * A failed validation reports the first invalid row of the window, and the rows
   * before it are the ones already buffered.
   */
  lemma {:induction false} ValidateWindowInvalid(w: seq<ReadRecord>)
    requires ValidateWindow(w).Invalid?
    ensures exists j :: 0 <= j < |w| && FirstInvalidAt(w, j)
                        && ValidateWindow(w).offending == WithLineNumber(w[j]) && ValidateWindow(w).kept == RowsOf(w[..j])
  {
    var n := |w| - 1;
    var init := w[..n];
    var prev := ValidateWindow(init);
    if prev.Invalid? {
      ValidateWindowInvalid(init);
      var j :| 0 <= j < |init| && FirstInvalidAt(init, j)
        && prev.offending == WithLineNumber(init[j]) && prev.kept == RowsOf(init[..j]);
      assert init[..j] == w[..j];
      forall i | 0 <= i <= j
        ensures w[i] == init[i]
      {
      }
      assert FirstInvalidAt(w, j);
    } else {
      ValidateWindowLoaded(init);
      forall i | 0 <= i < n
        ensures RowIsValid(WithLineNumber(w[i]))
      {
        assert w[i] == init[i] && init[i] in init;
      }
      assert FirstInvalidAt(w, n);
      assert w[..n] == init;
    }
  }

  /** Whatever the load leaves in the buffer passed assert_input_columns, even when a later row failed it. */
  lemma LoadKeepsOnlyValidRows(records: seq<ReadRecord>, start: int, end: int)
    ensures Load(records, start, end).Loaded? ==>
              forall i :: 0 <= i < |Load(records, start, end).rows| ==> RowIsValid(Load(records, start, end).rows[i])
    ensures Load(records, start, end).Invalid? ==>
              forall i :: 0 <= i < |Load(records, start, end).kept| ==> RowIsValid(Load(records, start, end).kept[i])
  {
    var w := Window(records, start, end);
    LoadSeesOnlyWindow(records, start, end);
    if ValidateWindow(w).Loaded? {
      ValidateWindowLoaded(w);
      forall i | 0 <= i < |w|
        ensures RowIsValid(RowsOf(w)[i])
      {
        assert w[i] in w;
      }
    } else {
      ValidateWindowInvalid(w);
      var j :| 0 <= j < |w| && FirstInvalidAt(w, j) && ValidateWindow(w).kept == RowsOf(w[..j]);
      forall i | 0 <= i < j
        ensures RowIsValid(RowsOf(w[..j])[i])
      {
        assert w[..j][i] == w[i];
      }
    }
  }

  /** A file read by csv.DictReader with no quoted newlines and no blank lines: data row i sits on line i + 2. */
  function PhysicalRecords(rows: seq<Row>): seq<ReadRecord> {
    seq(|rows|, i requires 0 <= i < |rows| => ReadRecord(i + 2, rows[i]))
  }

  function Clamp(x: int, lo: int, hi: int): int {
    if x < lo then lo else if x > hi then hi else x
  }

  lemma SliceOfPrefix<T>(s: seq<T>, n: nat, lo: nat, hi: nat)
    requires lo <= hi <= n <= |s|
    ensures s[..n][lo..hi] == s[lo..hi]
  {
  }

  lemma SliceSnoc<T>(s: seq<T>, lo: nat, n: nat)
    requires lo <= n < |s|
    ensures s[lo..n + 1] == s[lo..n] + [s[n]]
  {
  }

  /**
   * On such a file the window [start, end] is a contiguous run of data rows:
   * data row i is kept iff start <= i + 2 <= end, because the header is line 1.
   */
  lemma {:induction false} WindowOfPhysicalRecords(rows: seq<Row>, start: int, end: int)
    ensures var lo := Clamp(start - 2, 0, |rows|);
            Window(PhysicalRecords(rows), start, end) == PhysicalRecords(rows)[lo..Clamp(end - 1, lo, |rows|)]
  {
    if rows != [] {
      var n := |rows| - 1;
      var init := rows[..n];
      var all := PhysicalRecords(rows);
      var prev := PhysicalRecords(init);
      WindowOfPhysicalRecords(init, start, end);
      assert all[..n] == prev;
      assert all[n].lineNum == n + 2;
      var lo := Clamp(start - 2, 0, n + 1);
      var hi := Clamp(end - 1, lo, n + 1);
      if InWindow(n + 2, start, end) {
        assert Window(all, start, end) == Window(prev, start, end) + [all[n]];
        assert Window(prev, start, end) == prev[lo..n];
        SliceOfPrefix(all, n, lo, n);
        SliceSnoc(all, lo, n);
      } else if start - 2 > n {
        assert Window(all, start, end) == Window(prev, start, end);
        assert lo == hi == n + 1;
      } else {
        assert Window(all, start, end) == Window(prev, start, end);
        assert lo == Clamp(start - 2, 0, n) && hi == Clamp(end - 1, lo, n);
        SliceOfPrefix(all, n, lo, hi);
      }
    }
  }

  /** AicInputCsv: the validated row buffer and the batch cursor over it. */
  class InputCsv {
    var rows: seq<Row>
    var currentIndex: nat
    const batchSize: nat

    constructor(batchSize: nat)
      ensures rows == [] && currentIndex == 0 && this.batchSize == batchSize
    {
      rows := [];
      currentIndex := 0;
      this.batchSize := batchSize;
    }

    /**
     * parse_and_validate_input: appends the window's rows in file order, or stops
     * at the first invalid row in the window with the AssertionError's row.
     */
    method ParseAndValidateInput(records: seq<ReadRecord>, start: int, end: int) returns (error: Option<Row>)
      modifies this`rows
      ensures Load(records, start, end).Loaded? ==> error == None && rows == old(rows) + Load(records, start, end).rows
      ensures Load(records, start, end).Invalid? ==>
        error == Some(Load(records, start, end).offending) && rows == old(rows) + Load(records, start, end).kept
    {
      var i := 0;
      while i < |records|
        invariant 0 <= i <= |records|
        invariant Load(records[..i], start, end).Loaded?
        invariant rows == old(rows) + Load(records[..i], start, end).rows
      {
        assert records[..i + 1][..i] == records[..i];
        var row := records[i].fields;
        if !("line_number" in row.Keys) {
          row := row["line_number" := Int(records[i].lineNum)];
        }
        if records[i].lineNum >= start && records[i].lineNum <= end {
          var checked := AssertInputColumns(row);
          if checked.Rejected? {
            LoadStopsAtRejection(records, i + 1, start, end);
            return Some(checked.offending);
          }
          rows := rows + [row];
        }
        i := i + 1;
      }
      assert records[..i] == records;
      error := None;
    }

    /** get_next_batch: the slice at the cursor; the cursor always moves by a whole batch. */
    method GetNextBatch() returns (batch: seq<Row>)
      modifies this`currentIndex
      ensures batch == Slice(rows, old(currentIndex), old(currentIndex) + batchSize)
      ensures currentIndex == old(currentIndex) + batchSize
    {
      batch := Slice(rows, currentIndex, currentIndex + batchSize);
      currentIndex := currentIndex + batchSize;
    }
  }
}
