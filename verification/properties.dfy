/**
 What the transform promises, stated against an independent description of
 the feature vector: Reference gives, for any column name, the number the
 classifier should read under that name, from Produced and ProducedValue,
 which say column by column what the encoding makes of a submission. The
 central result, TransformMatchesReference, says that every entry of the
 transformed row is its expected name paired with Reference; the lemmas
 after it are the individual promises of the form handler read off from
 that result.
 */
module TransformProperties {
  import opened Table
  import opened Patient
  import opened FeatureTransform

  /** True iff the encoding produces a column labelled `name` for `raw`. */
  ghost predicate IsProducedName(raw: RawRecord, name: string) {
    exists c :: Produced(raw, c) && c.Name() == name
  }

  /**
   The number the classifier should read under `name`: the value of the
   produced column of that label, and 0 for every other name (a category not
   submitted, a dropped categorical field, or a name the encoding never
   produces). Labels never collide, so the column is unique.
   */
  ghost function Reference(raw: RawRecord, name: string): real
    requires raw.thalach != 0
  {
    if IsProducedName(raw, name) then
      var c :| Produced(raw, c) && c.Name() == name;
      ProducedValue(raw, c)
    else 0.0
  }

  /** The reference value under the label of a produced column is that column's value. */
  lemma ReferenceOfProduced(raw: RawRecord, c: Column)
    requires raw.thalach != 0 && Produced(raw, c)
    ensures Reference(raw, c.Name()) == ProducedValue(raw, c)
  {
    var d :| Produced(raw, d) && d.Name() == c.Name() && Reference(raw, c.Name()) == ProducedValue(raw, d);
    NameInjective(c, d);
  }

  /**
   The labels of the encoded frame are exactly the labels of produced
   columns, and each holds its reference value.
   */
  lemma LabelReference(raw: RawRecord, name: string)
    requires raw.thalach != 0
    ensures name in Labels(Encode(raw)) <==> IsProducedName(raw, name)
    ensures name in Labels(Encode(raw)) ==> Labels(Encode(raw))[name].Value() == Reference(raw, name)
  {
    var e := Encode(raw);
    if name in Labels(e) {
      LabelOrigin(e, name);
      var c :| c in e && c.Name() == name;
      LabelsAt(e, c);
      EncodeColumn(raw, c);
      ReferenceOfProduced(raw, c);
    } else if IsProducedName(raw, name) {
      var c :| Produced(raw, c) && c.Name() == name;
      EncodeColumn(raw, c);
      LabelsAt(e, c);
    }
  }

  /** Entry `j` of the row is the expected name `expectedCols[j]` with its reference value. */
  lemma TransformAt(raw: RawRecord, expectedCols: seq<string>, j: int)
    requires raw.thalach != 0 && 0 <= j < |expectedCols|
    ensures Transform(raw, expectedCols)[j] == (expectedCols[j], Reference(raw, expectedCols[j]))
  {
    LabelReference(raw, expectedCols[j]);
  }

  /**
   The transform computes the reference: the row holds one entry per
   expected name, in the expected order, each with its reference value.
   */
  lemma TransformMatchesReference(raw: RawRecord, expectedCols: seq<string>)
    requires raw.thalach != 0
    ensures |Transform(raw, expectedCols)| == |expectedCols|
    ensures forall j :: 0 <= j < |expectedCols| ==>
      Transform(raw, expectedCols)[j] == (expectedCols[j], Reference(raw, expectedCols[j]))
  {
    forall j | 0 <= j < |expectedCols|
      ensures Transform(raw, expectedCols)[j] == (expectedCols[j], Reference(raw, expectedCols[j]))
    {
      TransformAt(raw, expectedCols, j);
    }
  }

  /** An expected name that no produced column carries is filled with 0. */
  lemma MissingColumnsZero(raw: RawRecord, expectedCols: seq<string>, j: int)
    requires raw.thalach != 0 && 0 <= j < |expectedCols|
    requires forall c :: Produced(raw, c) ==> c.Name() != expectedCols[j]
    ensures Transform(raw, expectedCols)[j].1 == 0.0
  {
    TransformAt(raw, expectedCols, j);
  }

  /**
   Only expected names reach the classifier: the label of a produced column
   that is not expected appears nowhere in the row.
   */
  lemma UnexpectedColumnsDropped(raw: RawRecord, expectedCols: seq<string>, c: Column)
    requires raw.thalach != 0
    requires Produced(raw, c) && c.Name() !in expectedCols
    ensures forall j :: 0 <= j < |Transform(raw, expectedCols)| ==> Transform(raw, expectedCols)[j].0 != c.Name()
  {
  }

  /**
   One-hot encoding: an expected indicator of a categorical field holds 1
   for the submitted code and 0 for every other code.
   */
  lemma OneHotColumn(raw: RawRecord, expectedCols: seq<string>, j: int, f: Field, v: int)
    requires raw.thalach != 0 && 0 <= j < |expectedCols|
    requires f.IsCategorical() && expectedCols[j] == Indicator(f, v).Name()
    ensures Transform(raw, expectedCols)[j].1 == if v == Code(raw, f) then 1.0 else 0.0
  {
    TransformAt(raw, expectedCols, j);
    if v == Code(raw, f) {
      ReferenceOfProduced(raw, Indicator(f, v));
    } else {
      NotProduced(raw, Indicator(f, v));
    }
  }

  /** A column that is not produced leaves its label with reference value 0. */
  lemma NotProduced(raw: RawRecord, c: Column)
    requires raw.thalach != 0 && !Produced(raw, c)
    ensures Reference(raw, c.Name()) == 0.0
  {
    if IsProducedName(raw, c.Name()) {
      var d :| Produced(raw, d) && d.Name() == c.Name();
      NameInjective(c, d);
    }
  }

  /**
   When the classifier expects every code the select box of `f` offers, a
   valid submission sets exactly one of those indicators to 1: the one of the
   submitted code.
   */
  lemma OneHotGroupHasOne(raw: RawRecord, expectedCols: seq<string>, f: Field)
    requires Valid(raw) && f.IsCategorical()
    requires forall v :: 0 <= v <= f.MaxCode() ==> Indicator(f, v).Name() in expectedCols
    ensures exists j :: (0 <= j < |expectedCols| && expectedCols[j] == Indicator(f, Code(raw, f)).Name()
                         && Transform(raw, expectedCols)[j].1 == 1.0)
    ensures forall j, v :: (0 <= j < |expectedCols| && expectedCols[j] == Indicator(f, v).Name()
                            && Transform(raw, expectedCols)[j].1 == 1.0) ==> v == Code(raw, f)
  {
    assert 0 <= Code(raw, f) <= f.MaxCode();
    assert Indicator(f, Code(raw, f)).Name() in expectedCols;
    var j :| 0 <= j < |expectedCols| && expectedCols[j] == Indicator(f, Code(raw, f)).Name();
    OneHotColumn(raw, expectedCols, j, f, Code(raw, f));
    forall k, v | 0 <= k < |expectedCols| && expectedCols[k] == Indicator(f, v).Name()
      && Transform(raw, expectedCols)[k].1 == 1.0
      ensures v == Code(raw, f)
    {
      OneHotColumn(raw, expectedCols, k, f, v);
    }
  }

  /** A categorical field's own column is dropped: if the classifier expects it anyway, it reads 0. */
  lemma CategoricalFieldDropped(raw: RawRecord, expectedCols: seq<string>, j: int, f: Field)
    requires raw.thalach != 0 && 0 <= j < |expectedCols|
    requires f.IsCategorical() && expectedCols[j] == f.Name()
    ensures Transform(raw, expectedCols)[j].1 == 0.0
  {
    TransformAt(raw, expectedCols, j);
    NotProduced(raw, Input(f));
  }

  /** A non-categorical field reaches the classifier unchanged. */
  lemma PassThroughColumn(raw: RawRecord, expectedCols: seq<string>, j: int, f: Field)
    requires raw.thalach != 0 && 0 <= j < |expectedCols|
    requires !f.IsCategorical() && expectedCols[j] == f.Name()
    ensures Transform(raw, expectedCols)[j].1 == FieldCell(raw, f).Value()
  {
    TransformAt(raw, expectedCols, j);
    ReferenceOfProduced(raw, Input(f));
  }

  /**
   `bp_hr_ratio` is the real (true-division) quotient of resting blood
   pressure by maximum heart rate.
   */
  lemma RatioColumn(raw: RawRecord, expectedCols: seq<string>, j: int)
    requires raw.thalach != 0 && 0 <= j < |expectedCols|
    requires expectedCols[j] == "bp_hr_ratio"
    ensures Transform(raw, expectedCols)[j].1 == raw.trestbps as real / raw.thalach as real
  {
    TransformAt(raw, expectedCols, j);
    ReferenceOfProduced(raw, BpHrRatio);
  }

  /** `high_chol` is 1 exactly when cholesterol exceeds 240 mg/dl, and 0 otherwise. */
  lemma HighCholColumn(raw: RawRecord, expectedCols: seq<string>, j: int)
    requires raw.thalach != 0 && 0 <= j < |expectedCols|
    requires expectedCols[j] == "high_chol"
    ensures Transform(raw, expectedCols)[j].1 == 1.0 <==> raw.chol > 240
    ensures Transform(raw, expectedCols)[j].1 == 0.0 <==> raw.chol <= 240
  {
    TransformAt(raw, expectedCols, j);
    ReferenceOfProduced(raw, HighChol);
  }

  /**
   Changing only the cholesterol changes only the `chol` and `high_chol`
   entries of the row.
   */
  lemma CholAffectsOnlyCholColumns(raw: RawRecord, chol: int, expectedCols: seq<string>, j: int)
    requires raw.thalach != 0 && 0 <= j < |expectedCols|
    requires expectedCols[j] != Input(Chol).Name() && expectedCols[j] != HighChol.Name()
    ensures Transform(raw.(chol := chol), expectedCols)[j] == Transform(raw, expectedCols)[j]
  {
    TransformAt(raw, expectedCols, j);
    TransformAt(raw.(chol := chol), expectedCols, j);
    CholAffectsOnlyCholNames(raw, chol, expectedCols[j]);
  }

  /** The reference values of every label but `chol` and `high_chol` do not depend on the cholesterol. */
  lemma CholAffectsOnlyCholNames(raw: RawRecord, chol: int, name: string)
    requires raw.thalach != 0
    requires name != Input(Chol).Name() && name != HighChol.Name()
    ensures Reference(raw.(chol := chol), name) == Reference(raw, name)
  {
    var other := raw.(chol := chol);
    if IsProducedName(raw, name) {
      var c :| Produced(raw, c) && c.Name() == name;
      ReferenceOfProduced(raw, c);
      ReferenceOfProduced(other, c);
    } else if IsProducedName(other, name) {
      var c :| Produced(other, c) && c.Name() == name;
      assert Produced(raw, c);
    }
  }
}
