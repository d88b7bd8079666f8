/**
 * Required-column validation of one input row (assert_input_columns).
 */
module Validation {
  import opened Values

  /** The columns that must be present, not None and not the empty string. */
  const ValueColumns: seq<string> := ["Title", "Id", "Website URL", ImageUrlColumn, "line_number"]

  /** The column that only has to be present; its value may be empty. */
  const ArtistTitle: string := "Artist Title"

  /** validate_column: present, not None, not ''. */
  predicate HasValue(row: Row, column: string) {
    column in row && row[column] != Null && row[column] != Str("")
  }

  /** The condition of assert_input_columns, in the order the source tests it. */
  predicate RowIsValid(row: Row) {
    HasValue(row, "Title") && ArtistTitle in row && HasValue(row, "Id")
    && HasValue(row, "Website URL") && HasValue(row, ImageUrlColumn) && HasValue(row, "line_number")
  }

  /** The AssertionError raised for an invalid row carries the row's data. */
  datatype Checked = Accepted | Rejected(offending: Row)

  /**
   * assert_input_columns: a row is accepted exactly when every value column
   * holds a value and the artist-title key exists.
   */
  function AssertInputColumns(row: Row): (r: Checked)
    ensures r.Accepted? <==> (forall c :: c in ValueColumns ==> HasValue(row, c)) && ArtistTitle in row
    ensures r.Rejected? ==> r.offending == row
  {
    if RowIsValid(row) then Accepted else Rejected(row)
  }

  /** An empty Artist Title never causes a rejection: only the key matters. */
  lemma EmptyArtistTitleAccepted(row: Row)
    requires AssertInputColumns(row).Accepted?
    ensures AssertInputColumns(row[ArtistTitle := Str("")]).Accepted?
    ensures AssertInputColumns(row[ArtistTitle := Null]).Accepted?
  {
  }

  /** A required value that is missing, None or '' is always rejected. */
  lemma MissingValueRejected(row: Row, column: string)
    requires column in ValueColumns
    requires column !in row || row[column] == Null || row[column] == Str("")
    ensures AssertInputColumns(row) == Rejected(row)
  {
  }
}
