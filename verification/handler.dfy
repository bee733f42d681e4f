/**
 The form handler's gate: the transform, and the prediction after it, run
 only when the form was submitted and a classifier was loaded at start-up.
 A loaded classifier matters to the transform only through the ordered
 feature names it was trained on, which scikit-learn records only when the
 training frame's column names were all strings.
 */
module Handler {
  import opened Patient
  import opened FeatureTransform
  import opened TransformProperties

  datatype Option<T> = None | Some(value: T)

  /** A loaded classifier: `feature_names_in_`, if it has that attribute. */
  datatype Classifier = Classifier(featureNames: Option<seq<string>>)

  /** What one run of the form leads to. */
  datatype Outcome =
    | NoPrediction                           // not submitted, or no classifier loaded
    | MissingFeatureNames                    // reading `feature_names_in_` raises AttributeError
    | Features(row: seq<(string, real)>)     // the row handed to the classifier

  /**
   Handles one run of the form. Nothing happens unless the form was
   submitted and a classifier is present; a classifier without feature
   names makes the handler fail; otherwise the classifier receives the
   transformed row.
   */
  function Submit(submitted: bool, model: Option<Classifier>, raw: RawRecord): (r: Outcome)
    requires submitted && model.Some? && model.value.featureNames.Some? ==> raw.thalach != 0
    ensures r.NoPrediction? <==> !submitted || model.None?
    ensures r.MissingFeatureNames? <==> submitted && model.Some? && model.value.featureNames.None?
    ensures r.Features? <==> submitted && model.Some? && model.value.featureNames.Some?
    ensures r.Features? ==> |r.row| == |model.value.featureNames.value|
    ensures r.Features? ==> forall j :: 0 <= j < |r.row| ==>
      r.row[j] == (model.value.featureNames.value[j], Reference(raw, model.value.featureNames.value[j]))
  {
    if !submitted || model.None? then
      NoPrediction
    else if model.value.featureNames.None? then
      MissingFeatureNames
    else
      var cols := model.value.featureNames.value;
      TransformMatchesReference(raw, cols);
      Features(Transform(raw, cols))
  }
}
