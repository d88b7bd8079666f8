/**
 * Worked examples of one batch going through the loop: a labelled row, the same
 * row with its only label filtered out, a row the service reports as failed,
 * and a three-row batch whose remote call fails.
 */
module Scenarios {
  import opened Values
  import opened Requests
  import opened Reconcile
  import opened Pipeline

  /** The input row of the examples. It has no Artist Title column. */
  function Sunflowers(): Row {
    map["Title" := Str("Sunflowers"), "Id" := Str("42"), "Website URL" := Str("u"),
        "IIIF Image URL" := Str("img1"), "line_number" := Int(2)]
  }

  /** The one label annotation the service returns for it. */
  function FlowerLabel(): Value {
    Object(map["description" := Str("flower"), "score" := Real(0.9), "topicality" := Real(0.8), "mid" := Str("/m/1")])
  }

  function LabelReply(): Value {
    Object(map[LabelAnnotationsKey := List([FlowerLabel()])])
  }

  function BadImage(): Value {
    Object(map["message" := Str("bad image")])
  }

  /** With no filter, the row yields one output row, which carries the label's description. */
  lemma SunflowersLabelled()
    ensures BatchEffect([Sunflowers()], Responded([LabelReply()]), [])
         == BatchOutput([Merge(Sunflowers(), FlowerLabel().fields)], [])
    ensures Merge(Sunflowers(), FlowerLabel().fields)["description"] == Str("flower")
  {
    var a := FlowerLabel();
    assert Description(a) == Success("flower");
    assert [a][..0] == [];
    assert LabelRows(Sunflowers(), [a], []) == Labelled([Merge(Sunflowers(), a.fields)]);
    assert EntryOutcomeOf(Sunflowers(), LabelReply(), []) == Labelled([Merge(Sunflowers(), a.fields)]);
    assert [Sunflowers()][..0] == [];
  }

  /** With "flower" filtered, the row yields neither an output row nor an error row. */
  lemma SunflowersFiltered()
    ensures BatchEffect([Sunflowers()], Responded([LabelReply()]), ["flower"]) == BatchOutput([], [])
  {
    var a := FlowerLabel();
    assert Description(a) == Success("flower");
    assert Lower("flower") == "flower";
    assert [a][..0] == [];
    assert LabelRows(Sunflowers(), [a], ["flower"]) == Labelled([]);
    assert EntryOutcomeOf(Sunflowers(), LabelReply(), ["flower"]) == Labelled([]);
    assert [Sunflowers()][..0] == [];
  }

  /** A per-row service error yields one error row carrying the service's error object. */
  lemma SunflowersServiceError(filters: seq<string>)
    ensures BatchEffect([Sunflowers()], Responded([Object(map[ErrorKey := BadImage()])]), filters)
         == BatchOutput([], [Merge(Sunflowers(), map[ErrorKey := BadImage()])])
    ensures Merge(Sunflowers(), map[ErrorKey := BadImage()])[ErrorKey] == BadImage()
  {
    var reply := Object(map[ErrorKey := BadImage()]);
    assert LabelAnnotationsKey !in reply.fields;
    assert EntryOutcomeOf(Sunflowers(), reply, filters) == RowError(Merge(Sunflowers(), map[ErrorKey := BadImage()]));
    assert [Sunflowers()][..0] == [];
  }

  /**
   * A three-row batch whose remote call raises: three error rows, one per input
   * row in order, each with the same error, and no output row.
   */
  lemma ThreeRowTransportFailure(r0: Row, r1: Row, r2: Row, k: nat, features: seq<Feature>,
                                 filters: seq<string>, e: PyError)
    requires ImageUrlColumn in r0 && ImageUrlColumn in r1 && ImageUrlColumn in r2
    ensures IterationOutput([r0, r1, r2], k, features, filters, (j: nat, body: seq<AnnotateRequest>) => Failed(e))
         == BatchOutput([], [Merge(r0, map[ErrorKey := Exc(e)]), Merge(r1, map[ErrorKey := Exc(e)]),
                             Merge(r2, map[ErrorKey := Exc(e)])])
  {
    var batch := [r0, r1, r2];
    assert RequestsFor(batch, features).Success?;
    assert batch[..2] == [r0, r1] && [r0, r1][..1] == [r0] && [r0][..0] == [];
  }
}
