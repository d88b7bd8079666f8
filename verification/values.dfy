/**
 * Values that flow through the labelling pipeline: the cells of CSV rows, the
 * JSON that the annotation service returns, and the exceptions the batch loop
 * catches. Python dictionaries keyed by strings become `Row`s.
 */
module Values {

  datatype Option<+T> = None | Some(value: T)

  datatype Result<+T, +E> = Success(value: T) | Failure(error: E)

  /** The exceptions that can surface inside one iteration of the batch loop. */
  datatype PyError =
    | IndexError                     // responses[i] past the end of the response list
    | KeyError(key: string)          // a missing dictionary key
    | TypeError                      // subscripting or iterating a value of the wrong kind
    | AttributeError                 // calling .keys() or .lower() on a value that has none
    | TransportError(detail: string) // whatever the HTTP call or the JSON decoding raised

  /** A Python value as the script sees it: CSV cells, decoded JSON, caught exceptions. */
  datatype Value =
    | Null
    | Bool(b: bool)
    | Int(i: int)
    | Real(r: real)
    | Str(s: string)
    | List(items: seq<Value>)
    | Object(fields: map<string, Value>)
    | Exc(error: PyError)

  /** A dictionary with string keys: one CSV row, or one row of output. */
  type Row = map<string, Value>

  /** The column holding a row's image URL; both the request body and the label log message read it. */
  const ImageUrlColumn: string := "IIIF Image URL"

  /** Python's `row | extra`: every key of either side, the right-hand side wins. */
  function Merge(row: Row, extra: Row): (r: Row)
    ensures r.Keys == row.Keys + extra.Keys
    ensures forall k :: k in extra ==> r[k] == extra[k]
    ensures forall k :: k in row && k !in extra ==> r[k] == row[k]
  {
    row + extra
  }

  predicate IsUpper(c: char) {
    'A' <= c <= 'Z'
  }

  function LowerChar(c: char): char {
    if IsUpper(c) then (c as int + 32) as char else c
  }

  /** `str.lower()`, restricted to the ASCII letters. */
  function Lower(s: string): (r: string)
    ensures |r| == |s|
    ensures forall i :: 0 <= i < |r| ==> !IsUpper(r[i])
    ensures forall i :: 0 <= i < |s| && !IsUpper(s[i]) ==> r[i] == s[i]
    ensures forall i :: 0 <= i < |s| && IsUpper(s[i]) ==> r[i] as int == s[i] as int + 32
  {
    seq(|s|, i requires 0 <= i < |s| => LowerChar(s[i]))
  }
}
