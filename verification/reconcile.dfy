/**
 * What OutputCsv.add_rows and add_error_rows compute, as functions: how each
 * response entry is matched to its batch row by position, how label annotations
 * are filtered and merged into the row, and which rows become error rows.
 */
module Reconcile {
  import opened Values

  const DescriptionKey: string := "description"
  const LabelAnnotationsKey: string := "labelAnnotations"
  const ErrorKey: string := "error"
  const UnknownError: string := "unknown error"

  /** What one (row, response entry) pair gives: output rows, one error row, or an exception. */
  datatype EntryOutcome = Labelled(rows: seq<Row>) | RowError(row: Row) | Raises(error: PyError)

  /**
   * What `for a in v` hands to the annotation loop. A list gives its items and a
   * string its characters; a dict gives its keys, which are strings, so a non-empty
   * dict fails on the first `a['description']` exactly as a non-iterable value does.
   */
  function Iterated(v: Value): (r: Result<seq<Value>, PyError>)
    ensures r.Success? <==> v.List? || v.Str? || (v.Object? && v.fields == map[])
    ensures r.Failure? ==> r.error == TypeError
    ensures v.List? ==> r == Success(v.items)
    ensures v.Str? ==> |r.value| == |v.s| && forall i :: 0 <= i < |v.s| ==> r.value[i] == Str([v.s[i]])
    ensures v.Object? && r.Success? ==> r.value == []
  {
    match v
    case List(items) => Success(items)
    case Str(s) => Success(seq(|s|, i requires 0 <= i < |s| => Str([s[i]])))
    case Object(fields) => if fields == map[] then Success([]) else Failure(TypeError)
    case _ => Failure(TypeError)
  }

  /** `a['description'].lower()` up to the lower-casing: the description string, or what Python raises. */
  function Description(a: Value): (r: Result<string, PyError>)
    ensures r.Success? <==> a.Object? && DescriptionKey in a.fields && a.fields[DescriptionKey].Str?
    ensures r.Success? ==> r.value == a.fields[DescriptionKey].s
  {
    match a
    case Object(fields) =>
      if DescriptionKey !in fields then Failure(KeyError(DescriptionKey))
      else if fields[DescriptionKey].Str? then Success(fields[DescriptionKey].s)
      else Failure(AttributeError)
    case _ => Failure(TypeError)
  }

  /** The annotation is dropped when its lower-cased description is in the filter list. */
  predicate Filtered(description: string, filters: seq<string>) {
    Lower(description) in filters
  }

  /**
   * The message logged for a filtered label concatenates the row's image URL, so
   * that URL must be present and a string.
   */
  predicate LoggableRow(row: Row) {
    ImageUrlColumn in row && row[ImageUrlColumn].Str?
  }

  /** What building that message raises on a row that is not loggable. */
  function LogError(row: Row): PyError {
    if ImageUrlColumn !in row then KeyError(ImageUrlColumn) else TypeError
  }

  /**
   * The inner loop of add_rows over the annotations of one entry, annotation by
   * annotation. A filtered label is only logged, but logging it reads the row's
   * image URL and can raise.
   */
  function LabelRows(row: Row, annotations: seq<Value>, filters: seq<string>): (r: EntryOutcome)
    ensures !r.RowError?
    decreases |annotations|
  {
    if annotations == [] then Labelled([])
    else
      var prev := LabelRows(row, annotations[..|annotations| - 1], filters);
      var a := annotations[|annotations| - 1];
      if prev.Raises? then prev
      else match Description(a)
        case Failure(e) => Raises(e)
        case Success(d) =>
          if !Filtered(d, filters) then Labelled(prev.rows + [Merge(row, a.fields)])
          else if LoggableRow(row) then prev
          else Raises(LogError(row))
  }

  /** Every annotation has a string description, so the annotation loop cannot raise. */
  predicate WellFormedAnnotations(annotations: seq<Value>) {
    forall i :: 0 <= i < |annotations| ==> Description(annotations[i]).Success?
  }

  /** Reference definition of the label filter: the surviving annotations, merged into the row, in response order. */
  function KeptLabels(row: Row, annotations: seq<Value>, filters: seq<string>): seq<Row>
    requires WellFormedAnnotations(annotations)
  {
    if annotations == [] then []
    else
      var a := annotations[0];
      (if Filtered(Description(a).value, filters) then [] else [Merge(row, a.fields)])
      + KeptLabels(row, annotations[1..], filters)
  }

  /** Every slice of well-formed annotations is well-formed. */
  lemma WellFormedSlice(annotations: seq<Value>, i: nat, j: nat)
    requires WellFormedAnnotations(annotations) && i <= j <= |annotations|
    ensures WellFormedAnnotations(annotations[i..j])
  {
    forall k | 0 <= k < j - i
      ensures Description(annotations[i..j][k]).Success?
    {
      assert annotations[i..j][k] == annotations[i + k];
    }
  }

  lemma {:induction false} KeptLabelsSnoc(row: Row, annotations: seq<Value>, a: Value, filters: seq<string>)
    requires WellFormedAnnotations(annotations + [a])
    ensures WellFormedAnnotations(annotations) && Description(a).Success?
    ensures KeptLabels(row, annotations + [a], filters)
         == KeptLabels(row, annotations, filters)
            + (if Filtered(Description(a).value, filters) then [] else [Merge(row, a.fields)])
  {
    var all := annotations + [a];
    assert all[..|annotations|] == annotations;
    WellFormedSlice(all, 0, |annotations|);
    assert all[|annotations|] == a;
    if annotations != [] {
      var rest := annotations[1..];
      assert all[1..] == rest + [a];
      WellFormedSlice(all, 1, |all|);
      KeptLabelsSnoc(row, rest, a, filters);
      var head := if Filtered(Description(annotations[0]).value, filters) then [] else [Merge(row, annotations[0].fields)];
      assert KeptLabels(row, all, filters) == head + KeptLabels(row, rest + [a], filters);
      assert KeptLabels(row, annotations, filters) == head + KeptLabels(row, rest, filters);
    }
  }

  /** Some annotation's description is filtered. */
  predicate AnyFiltered(annotations: seq<Value>, filters: seq<string>)
    requires WellFormedAnnotations(annotations)
  {
    exists i :: 0 <= i < |annotations| && Filtered(Description(annotations[i]).value, filters)
  }

  lemma AnyFilteredSnoc(annotations: seq<Value>, a: Value, filters: seq<string>)
    requires WellFormedAnnotations(annotations + [a])
    ensures WellFormedAnnotations(annotations) && Description(a).Success?
    ensures AnyFiltered(annotations + [a], filters)
        <==> AnyFiltered(annotations, filters) || Filtered(Description(a).value, filters)
  {
    var all := annotations + [a];
    assert all[|annotations|] == a;
    assert forall i :: 0 <= i < |annotations| ==> all[i] == annotations[i];
  }

  /**
   * With well-formed annotations the annotation loop yields exactly the merged
   * rows of the annotations that survive the filter, in response order, unless a
   * label is filtered on a row whose image URL cannot be logged: then it raises
   * what building the log message raises.
   */
  lemma {:induction false} LabelRowsKeepsUnfiltered(row: Row, annotations: seq<Value>, filters: seq<string>)
    requires WellFormedAnnotations(annotations)
    ensures LabelRows(row, annotations, filters)
         == if LoggableRow(row) || !AnyFiltered(annotations, filters) then Labelled(KeptLabels(row, annotations, filters))
            else Raises(LogError(row))
    decreases |annotations|
  {
    if annotations != [] {
      var n := |annotations| - 1;
      assert annotations == annotations[..n] + [annotations[n]];
      KeptLabelsSnoc(row, annotations[..n], annotations[n], filters);
      AnyFilteredSnoc(annotations[..n], annotations[n], filters);
      LabelRowsKeepsUnfiltered(row, annotations[..n], filters);
    }
  }

  /**
   * The filter decides membership: an annotation's merged row is produced iff its
   * description is not filtered, and nothing else is produced.
   */
  lemma {:induction false} KeptLabelsMembers(row: Row, annotations: seq<Value>, filters: seq<string>)
    requires WellFormedAnnotations(annotations)
    ensures forall i :: 0 <= i < |annotations| && !Filtered(Description(annotations[i]).value, filters) ==>
              Merge(row, annotations[i].fields) in KeptLabels(row, annotations, filters)
    ensures forall r :: r in KeptLabels(row, annotations, filters) ==>
              exists i :: 0 <= i < |annotations| && !Filtered(Description(annotations[i]).value, filters)
                          && r == Merge(row, annotations[i].fields)
  {
    if annotations != [] {
      var rest := annotations[1..];
      KeptLabelsMembers(row, rest, filters);
      forall i | 1 <= i < |annotations|
        ensures annotations[i] == rest[i - 1]
      {
      }
    }
  }

  /**
   * A row whose every annotation is filtered contributes no output row (and, being
   * Labelled, no error row), provided its image URL can be logged; otherwise its
   * first label raises.
   */
  lemma {:induction false} AllFilteredGivesNoRows(row: Row, annotations: seq<Value>, filters: seq<string>)
    requires WellFormedAnnotations(annotations)
    requires forall i :: 0 <= i < |annotations| ==> Filtered(Description(annotations[i]).value, filters)
    ensures KeptLabels(row, annotations, filters) == []
    ensures LabelRows(row, annotations, filters)
         == if annotations == [] || LoggableRow(row) then Labelled([]) else Raises(LogError(row))
  {
    LabelRowsKeepsUnfiltered(row, annotations, filters);
    if annotations != [] {
      assert Filtered(Description(annotations[0]).value, filters);
      assert forall i :: 1 <= i < |annotations| ==> annotations[i] == annotations[1..][i - 1];
      AllFilteredGivesNoRows(row, annotations[1..], filters);
    }
  }

  /** Once an annotation has raised, the remaining annotations are never looked at. */
  lemma {:induction false} LabelRowsStopsAtRaise(row: Row, annotations: seq<Value>, filters: seq<string>, k: nat)
    requires k <= |annotations|
    requires LabelRows(row, annotations[..k], filters).Raises?
    ensures LabelRows(row, annotations, filters) == LabelRows(row, annotations[..k], filters)
    decreases |annotations|
  {
    if k < |annotations| {
      var n := |annotations| - 1;
      assert annotations[..n][..k] == annotations[..k];
      LabelRowsStopsAtRaise(row, annotations[..n], filters, k);
    } else {
      assert annotations[..k] == annotations;
    }
  }

  /**
   * A malformed annotation aborts the loop with the first annotation's exception;
   * the rows collected before it are lost with the local list. An earlier filtered
   * label on a row whose image URL cannot be logged raises first.
   */
  lemma {:induction false} LabelRowsRaisesAtFirstMalformed(row: Row, annotations: seq<Value>, filters: seq<string>, j: nat)
    requires j < |annotations| && Description(annotations[j]).Failure?
    requires WellFormedAnnotations(annotations[..j])
    ensures LabelRows(row, annotations, filters)
         == if LoggableRow(row) || !AnyFiltered(annotations[..j], filters) then Raises(Description(annotations[j]).error)
            else Raises(LogError(row))
    decreases |annotations|
  {
    var n := |annotations| - 1;
    if j < n {
      assert annotations[..n][..j] == annotations[..j];
      LabelRowsRaisesAtFirstMalformed(row, annotations[..n], filters, j);
    } else {
      assert annotations[..n] == annotations[..j];
      LabelRowsKeepsUnfiltered(row, annotations[..n], filters);
    }
  }

  /**
   * The first filtered label on a row whose image URL is missing, or is not a
   * string, raises KeyError or TypeError and aborts the loop.
   */
  lemma {:induction false} FilteredLabelNeedsImageUrl(row: Row, annotations: seq<Value>, filters: seq<string>, j: nat)
    requires j < |annotations| && WellFormedAnnotations(annotations[..j + 1])
    requires Filtered(Description(annotations[j]).value, filters)
    requires !LoggableRow(row)
    ensures LabelRows(row, annotations, filters)
         == Raises(if ImageUrlColumn !in row then KeyError(ImageUrlColumn) else TypeError)
  {
    var prefix := annotations[..j + 1];
    assert prefix[j] == annotations[j];
    LabelRowsKeepsUnfiltered(row, prefix, filters);
    LabelRowsStopsAtRaise(row, annotations, filters, j + 1);
  }

  /** One iteration of the outer loop of add_rows: response entry `entry` for batch row `row`. */
  function EntryOutcomeOf(row: Row, entry: Value, filters: seq<string>): (r: EntryOutcome)
    ensures !entry.Object? ==> r == Raises(AttributeError)
    ensures r.RowError? <==> entry.Object? && LabelAnnotationsKey !in entry.fields
    ensures r.RowError? ==>
              r.row.Keys == row.Keys + {ErrorKey}
              && r.row[ErrorKey] == (if ErrorKey in entry.fields then entry.fields[ErrorKey] else Str(UnknownError))
              && forall k :: k in row && k != ErrorKey ==> r.row[k] == row[k]
  {
    match entry
    case Object(fields) =>
      if LabelAnnotationsKey in fields then
        match Iterated(fields[LabelAnnotationsKey])
        case Failure(e) => Raises(e)
        case Success(annotations) => LabelRows(row, annotations, filters)
      else if ErrorKey in fields then RowError(Merge(row, map[ErrorKey := fields[ErrorKey]]))
      else RowError(Merge(row, map[ErrorKey := Str(UnknownError)]))
    case _ => Raises(AttributeError)  // `.keys()` on something that is not a dict
  }

  /**
   * The effect of add_rows: the local success list, the error rows already appended
   * to the buffer, and the exception that stopped the loop, if any.
   */
  datatype RowsAdded = RowsAdded(labelled: seq<Row>, failed: seq<Row>, raised: Option<PyError>)

  /** The outer loop of add_rows, row by row; a missing response entry raises IndexError. */
  function AddRowsEffect(batch: seq<Row>, responses: seq<Value>, filters: seq<string>): (r: RowsAdded)
    ensures |responses| < |batch| ==> r.raised.Some?
    ensures |r.failed| <= |batch|
    ensures forall i :: 0 <= i < |r.failed| ==> ErrorKey in r.failed[i]
    decreases |batch|
  {
    if batch == [] then RowsAdded([], [], None)
    else
      var i := |batch| - 1;
      var prev := AddRowsEffect(batch[..i], responses, filters);
      if prev.raised.Some? then prev
      else if i >= |responses| then prev.(raised := Some(IndexError))
      else match EntryOutcomeOf(batch[i], responses[i], filters)
        case Labelled(rs) => prev.(labelled := prev.labelled + rs)
        case RowError(r) => prev.(failed := prev.failed + [r])
        case Raises(e) => prev.(raised := Some(e))
  }

  /** The outcome of every row of the batch against the response entry at the same position. */
  function Outcomes(batch: seq<Row>, responses: seq<Value>, filters: seq<string>): (outs: seq<EntryOutcome>)
    requires |responses| >= |batch|
    ensures |outs| == |batch|
  {
    seq(|batch|, i requires 0 <= i < |batch| => EntryOutcomeOf(batch[i], responses[i], filters))
  }

  predicate NoneRaise(outs: seq<EntryOutcome>) {
    forall i :: 0 <= i < |outs| ==> !outs[i].Raises?
  }

  /** Reference accounting: the output rows of all labelled rows, in batch order. */
  function Successes(outs: seq<EntryOutcome>): seq<Row> {
    if outs == [] then [] else (if outs[0].Labelled? then outs[0].rows else []) + Successes(outs[1..])
  }

  /** Reference accounting: one error row per row whose entry is an error, in batch order. */
  function Errors(outs: seq<EntryOutcome>): seq<Row> {
    if outs == [] then [] else (if outs[0].RowError? then [outs[0].row] else []) + Errors(outs[1..])
  }

  lemma {:induction false} AccountingSnoc(outs: seq<EntryOutcome>, o: EntryOutcome)
    ensures Successes(outs + [o]) == Successes(outs) + (if o.Labelled? then o.rows else [])
    ensures Errors(outs + [o]) == Errors(outs) + (if o.RowError? then [o.row] else [])
  {
    if outs != [] {
      assert (outs + [o])[1..] == outs[1..] + [o];
      AccountingSnoc(outs[1..], o);
    }
  }

  /**
   * When every row has a response entry and no entry raises, add_rows accounts
   * for each row separately: its surviving labels go to the output, an error entry
   * gives exactly one error row, and nothing is raised.
   */
  lemma {:induction false} AddRowsAccounting(batch: seq<Row>, responses: seq<Value>, filters: seq<string>)
    requires |responses| >= |batch|
    requires NoneRaise(Outcomes(batch, responses, filters))
    ensures AddRowsEffect(batch, responses, filters)
         == RowsAdded(Successes(Outcomes(batch, responses, filters)), Errors(Outcomes(batch, responses, filters)), None)
    decreases |batch|
  {
    if batch != [] {
      var i := |batch| - 1;
      var outs := Outcomes(batch, responses, filters);
      assert Outcomes(batch[..i], responses, filters) == outs[..i];
      assert outs == outs[..i] + [outs[i]];
      AddRowsAccounting(batch[..i], responses, filters);
      AccountingSnoc(outs[..i], outs[i]);
    }
  }

  /**
   * When the response list is shorter than the batch (and the entries it has do
   * not raise), add_rows raises IndexError after appending the error rows of the
   * rows that had an entry, and its collected successes never reach the buffer.
   */
  lemma {:induction false} ShortResponsesRaise(batch: seq<Row>, responses: seq<Value>, filters: seq<string>)
    requires |responses| < |batch|
    requires NoneRaise(Outcomes(batch[..|responses|], responses, filters))
    ensures AddRowsEffect(batch, responses, filters)
         == RowsAdded(Successes(Outcomes(batch[..|responses|], responses, filters)),
                      Errors(Outcomes(batch[..|responses|], responses, filters)), Some(IndexError))
    decreases |batch|
  {
    var i := |batch| - 1;
    if i == |responses| {
      AddRowsAccounting(batch[..i], responses, filters);
    } else {
      assert batch[..i][..|responses|] == batch[..|responses|];
      ShortResponsesRaise(batch[..i], responses, filters);
    }
  }

  /** Once a row has raised, the rest of the batch is never looked at. */
  lemma {:induction false} AddRowsStopsAtRaise(batch: seq<Row>, responses: seq<Value>, filters: seq<string>, k: nat)
    requires k <= |batch|
    requires AddRowsEffect(batch[..k], responses, filters).raised.Some?
    ensures AddRowsEffect(batch, responses, filters) == AddRowsEffect(batch[..k], responses, filters)
    decreases |batch|
  {
    if k < |batch| {
      var i := |batch| - 1;
      assert batch[..i][..k] == batch[..k];
      AddRowsStopsAtRaise(batch[..i], responses, filters, k);
    } else {
      assert batch[..k] == batch;
    }
  }

  /** Response entries beyond the batch length are never looked at. */
  lemma {:induction false} ExtraResponsesIgnored(batch: seq<Row>, responses: seq<Value>, extra: seq<Value>, filters: seq<string>)
    requires |responses| >= |batch|
    ensures AddRowsEffect(batch, responses + extra, filters) == AddRowsEffect(batch, responses, filters)
    decreases |batch|
  {
    if batch != [] {
      var i := |batch| - 1;
      ExtraResponsesIgnored(batch[..i], responses, extra, filters);
      assert (responses + extra)[i] == responses[i];
    }
  }

  /** add_error_rows: every batch row, in order, merged with the same error value. */
  function ErrorRows(batch: seq<Row>, error: Value): (r: seq<Row>)
    ensures |r| == |batch|
    ensures forall i :: 0 <= i < |batch| ==> r[i].Keys == batch[i].Keys + {ErrorKey} && r[i][ErrorKey] == error
    ensures forall i, k :: 0 <= i < |batch| && k in batch[i] && k != ErrorKey ==> r[i][k] == batch[i][k]
  {
    seq(|batch|, i requires 0 <= i < |batch| => Merge(batch[i], map[ErrorKey := error]))
  }

  /** Failing two parts of a buffer is failing the whole buffer. */
  lemma ErrorRowsAppend(a: seq<Row>, b: seq<Row>, error: Value)
    ensures ErrorRows(a + b, error) == ErrorRows(a, error) + ErrorRows(b, error)
  {
  }
}
