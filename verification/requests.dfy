/**
 * The body of one images:annotate call (RequestJson): one request entry per
 * batch row, each asking for label detection on the row's image.
 */
module Requests {
  import opened Values

  const LabelDetection: string := "LABEL_DETECTION"

  /** {'maxResults': ..., 'type': ...} */
  datatype Feature = Feature(maxResults: int, featureType: string)

  /** {'features': [...], 'image': {'source': {'imageUri': ...}}} */
  datatype AnnotateRequest = AnnotateRequest(features: seq<Feature>, imageUri: Value)

  /** The feature list RequestJson(max) holds. */
  function Features(max: int): seq<Feature> {
    [Feature(max, LabelDetection)]
  }

  /**
   * The request entries for a batch, or the KeyError that row['IIIF Image URL']
   * raises for the first row without that column.
   */
  function RequestsFor(batch: seq<Row>, features: seq<Feature>): (r: Result<seq<AnnotateRequest>, PyError>)
    ensures r.Success? <==> forall i :: 0 <= i < |batch| ==> ImageUrlColumn in batch[i]
    ensures r.Failure? ==> r.error == KeyError(ImageUrlColumn)
    ensures r.Success? ==>
              |r.value| == |batch|
              && forall i :: 0 <= i < |batch| ==>
                   r.value[i].features == features && r.value[i].imageUri == batch[i][ImageUrlColumn]
  {
    if forall i :: 0 <= i < |batch| ==> ImageUrlColumn in batch[i] then
      Success(seq(|batch|, i requires 0 <= i < |batch| => AnnotateRequest(features, batch[i][ImageUrlColumn])))
    else
      Failure(KeyError(ImageUrlColumn))
  }

  /** RequestJson: the feature list is fixed when the object is built. */
  class RequestJson {
    const features: seq<Feature>

    constructor(max: int)
      ensures features == Features(max)
    {
      features := [Feature(max, LabelDetection)];
    }

    /**
     * get_json_for_batch: request i asks for this object's features on the image
     * of batch row i; a row without an image column raises KeyError.
     */
    method GetJsonForBatch(batch: seq<Row>) returns (requests: Result<seq<AnnotateRequest>, PyError>)
      ensures requests == RequestsFor(batch, features)
    {
      var built: seq<AnnotateRequest> := [];
      for k := 0 to |batch|
        invariant forall i :: 0 <= i < k ==> ImageUrlColumn in batch[i]
        invariant |built| == k
        invariant forall i :: 0 <= i < k ==> built[i] == AnnotateRequest(features, batch[i][ImageUrlColumn])
      {
        if ImageUrlColumn !in batch[k] {
          return Failure(KeyError(ImageUrlColumn));
        }
        built := built + [AnnotateRequest(features, batch[k][ImageUrlColumn])];
      }
      assert built == seq(|batch|, i requires 0 <= i < |batch| => AnnotateRequest(features, batch[i][ImageUrlColumn]));
      requests := Success(built);
    }
  }
}
