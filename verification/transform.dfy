/**
 The feature-alignment transform of the prediction form: it turns one
 patient's submission into the row of features the trained classifier
 expects, in five steps.

   1. InputFrame         the thirteen form fields become a single-row frame;
   2. AddDerived         the ratio `bp_hr_ratio` and the flag `high_chol` are added;
   3. EncodeCategoricals `cp`, `restecg`, `slope` and `thal` are one-hot encoded
                         (OneHot, field by field) and the original columns dropped;
   4. ZeroFill           every expected column still missing is added as 0;
   5. Project            the row is cut down and ordered to the expected columns.

 Steps 1 to 3 build columns whose labels are determined by where the column
 comes from (Column); Labels turns that frame into the frame pandas holds,
 keyed by label strings, which steps 4 and 5 then match against the expected
 column list. The list is a parameter: it is the classifier's
 `feature_names_in_`, which comes with the trained model.
 */
module FeatureTransform {
  import opened Table
  import opened Patient

  /** A column of the frame, by origin. Its pandas label is `Name()`. */
  datatype Column =
    | Input(field: Field)               // a form field, labelled with its own name
    | BpHrRatio                         // the derived blood-pressure to heart-rate ratio
    | HighChol                          // the derived high-cholesterol flag
    | Indicator(of: Field, code: int)   // the one-hot column of `code` in field `of`
  {
    /** The column label in the pandas frame. */
    function Name(): string {
      match this
      case Input(f) => f.Name()
      case BpHrRatio => "bp_hr_ratio"
      case HighChol => "high_chol"
      case Indicator(f, v) => ColumnName(f.Name(), v)
    }
  }

  /** Two columns never share a label, so labelling the frame loses nothing. */
  lemma NameInjective(a: Column, b: Column)
    requires a.Name() == b.Name()
    ensures a == b
  {
    if a.Indicator? && b.Indicator? {
      ColumnNameInjective(a.of.Name(), a.code, b.of.Name(), b.code);
      FieldNameInjective(a.of, b.of);
    } else if a.Indicator? {
      IndicatorIsNotPlain(a.of, a.code, b);
    } else if b.Indicator? {
      IndicatorIsNotPlain(b.of, b.code, a);
    } else {
      PlainNameInjective(a, b);
    }
  }

  /** An indicator label is never the label of a field or of an engineered feature. */
  lemma IndicatorIsNotPlain(f: Field, v: int, b: Column)
    requires !b.Indicator?
    ensures Indicator(f, v).Name() != b.Name()
  {
    match b
    case Input(g) => PlainNameIsNotIndicator(g.Name(), f.Name(), v);
    case _ => IndicatorInitial(f, v);
  }

  /** The labels of fields and engineered features are distinct. */
  lemma PlainNameInjective(a: Column, b: Column)
    requires !a.Indicator? && !b.Indicator? && a.Name() == b.Name()
    ensures a == b
  {
    if a.Input? && b.Input? {
      FieldNameInjective(a.field, b.field);
    }
  }

  /** No two columns share a label. */
  lemma NamesInjective()
    ensures forall a: Column, b: Column :: a.Name() == b.Name() ==> a == b
  {
    forall a: Column, b: Column | a.Name() == b.Name() ensures a == b {
      NameInjective(a, b);
    }
  }

  /** An indicator label starts with its field's name, so with none of 'b' and 'h'. */
  lemma IndicatorInitial(f: Field, v: int)
    ensures Indicator(f, v).Name()[0] == f.Name()[0]
    ensures Indicator(f, v).Name()[0] != 'b' && Indicator(f, v).Name()[0] != 'h'
  {
    ColumnNameShape(f.Name(), v);
  }

  /** A frame keyed by column origin. */
  type Frame = map<Column, Cell>

  /** Fields that are one-hot encoded, in the order the handler encodes them. */
  const CategoricalFields: seq<Field> := [Cp, Restecg, Slope, Thal]

  /** Cholesterol (mg/dl) above which `high_chol` is set. */
  const HighCholThreshold: int := 240

  /** The cell a field becomes: an integer column, except the float `oldpeak`. */
  function FieldCell(raw: RawRecord, f: Field): Cell {
    match f
    case Age => IntCell(raw.age)
    case Sex => IntCell(raw.sex)
    case Cp => IntCell(raw.cp)
    case Trestbps => IntCell(raw.trestbps)
    case Chol => IntCell(raw.chol)
    case Fbs => IntCell(raw.fbs)
    case Restecg => IntCell(raw.restecg)
    case Thalach => IntCell(raw.thalach)
    case Exang => IntCell(raw.exang)
    case Oldpeak => FloatCell(raw.oldpeak)
    case Slope => IntCell(raw.slope)
    case Ca => IntCell(raw.ca)
    case Thal => IntCell(raw.thal)
  }

  /** Every form field. */
  const AllFields: set<Field> :=
    {Age, Sex, Cp, Trestbps, Chol, Fbs, Restecg, Thalach, Exang, Oldpeak, Slope, Ca, Thal}

  /** Step 1: the submission as a single-row frame, one column per form field. */
  function InputFrame(raw: RawRecord): (frame: Frame)
    ensures forall c :: c in frame <==> c.Input?
    ensures forall f :: frame[Input(f)] == FieldCell(raw, f)
  {
    AllFieldsListed();
    map f | f in AllFields :: Input(f) := FieldCell(raw, f)
  }

  /** AllFields does hold every field. */
  lemma AllFieldsListed()
    ensures forall f: Field :: f in AllFields
  {
    forall f: Field ensures f in AllFields {
      match f
      case Age => case Sex => case Cp => case Trestbps => case Chol => case Fbs => case Restecg =>
      case Thalach => case Exang => case Oldpeak => case Slope => case Ca => case Thal =>
    }
  }

  /**
   Step 2: adds the two engineered features. The ratio is a true (float)
   division; the flag is the integer cast of `chol > 240`. Every other
   column is left as it was.
   */
  function AddDerived(frame: Frame): (r: Frame)
    requires Input(Trestbps) in frame && Input(Thalach) in frame && Input(Chol) in frame
    requires frame[Input(Thalach)].Value() != 0.0
    ensures forall c :: c in r <==> c in frame || c == BpHrRatio || c == HighChol
    ensures forall c :: c in frame && c != BpHrRatio && c != HighChol ==> r[c] == frame[c]
    ensures r[BpHrRatio].FloatCell?
    ensures r[BpHrRatio].Value() * frame[Input(Thalach)].Value() == frame[Input(Trestbps)].Value()
    ensures r[HighChol].IntCell? && 0 <= r[HighChol].i <= 1
    ensures r[HighChol].i == 1 <==> frame[Input(Chol)].Value() > HighCholThreshold as real
  {
    var ratio := frame[Input(Trestbps)].Value() / frame[Input(Thalach)].Value();
    var high := if frame[Input(Chol)].Value() > HighCholThreshold as real then 1 else 0;
    frame[BpHrRatio := FloatCell(ratio)][HighChol := IntCell(high)]
  }

  /**
   One round of step 3: `pd.get_dummies` of the integer column of field `f`
   yields one indicator column, for the submitted code, holding 1; it is
   appended and the field's own column is dropped.
   */
  function OneHot(frame: Frame, f: Field): (r: Frame)
    requires Input(f) in frame && frame[Input(f)].IntCell?
    ensures Input(f) !in r
    ensures Indicator(f, frame[Input(f)].i) in r && r[Indicator(f, frame[Input(f)].i)] == IntCell(1)
  {
    frame[Indicator(f, frame[Input(f)].i) := IntCell(1)] - {Input(f)}
  }

  /** One round of OneHot adds the indicator, drops the field's column and changes nothing else. */
  lemma OneHotAt(frame: Frame, f: Field, c: Column)
    requires Input(f) in frame && frame[Input(f)].IntCell?
    ensures c in OneHot(frame, f) <==> (c in frame && c != Input(f)) || c == Indicator(f, frame[Input(f)].i)
    ensures c in OneHot(frame, f) && c != Indicator(f, frame[Input(f)].i) ==> OneHot(frame, f)[c] == frame[c]
  {
  }

  /** True iff `c` is the indicator one-hot encoding of `fields` produces from `frame`. */
  predicate IsNewIndicator(frame: Frame, fields: seq<Field>, c: Column) {
    c.Indicator? && c.of in fields && Input(c.of) in frame && frame[Input(c.of)] == IntCell(c.code)
  }

  /**
   What the encoding loop needs of its frame: the fields are distinct integer
   columns of the frame, and no indicator is already a column (pandas would
   then hold two columns of that label).
   */
  predicate Encodable(frame: Frame, fields: seq<Field>) {
    && (forall j :: 0 <= j < |fields| ==> Input(fields[j]) in frame && frame[Input(fields[j])].IntCell?)
    && (forall c :: IsNewIndicator(frame, fields, c) ==> c !in frame)
    && (forall j, k :: 0 <= j < k < |fields| ==> fields[j] != fields[k])
  }

  /**
   Step 3: one-hot encodes `fields` one after another, as the handler's loop
   does (EncodeCategoricalsAt says what it yields).
   */
  function EncodeCategoricals(frame: Frame, fields: seq<Field>): Frame
    requires Encodable(frame, fields)
    decreases |fields|
  {
    if |fields| == 0 then frame
    else
      EncodeAfterOneHot(frame, fields);
      EncodeCategoricals(OneHot(frame, fields[0]), fields[1..])
  }

  /**
   The encoded fields' columns are gone, their indicators are present and
   hold 1, and every other column is unchanged.
   */
  lemma {:induction false} EncodeCategoricalsAt(frame: Frame, fields: seq<Field>, c: Column)
    requires Encodable(frame, fields)
    ensures c in EncodeCategoricals(frame, fields) <==>
      (c in frame && !(c.Input? && c.field in fields)) || IsNewIndicator(frame, fields, c)
    ensures IsNewIndicator(frame, fields, c) ==> EncodeCategoricals(frame, fields)[c] == IntCell(1)
    ensures c in EncodeCategoricals(frame, fields) && !IsNewIndicator(frame, fields, c) ==>
      EncodeCategoricals(frame, fields)[c] == frame[c]
    decreases |fields|
  {
    if |fields| > 0 {
      EncodeAfterOneHot(frame, fields);
      EncodeCategoricalsAt(OneHot(frame, fields[0]), fields[1..], c);
    }
  }

  /** How one round of OneHot changes what remains to encode. */
  lemma EncodeAfterOneHot(frame: Frame, fields: seq<Field>)
    requires Encodable(frame, fields) && |fields| > 0
    ensures Encodable(OneHot(frame, fields[0]), fields[1..])
    ensures forall c :: IsNewIndicator(frame, fields, c) <==>
      IsNewIndicator(OneHot(frame, fields[0]), fields[1..], c) || c == Indicator(fields[0], frame[Input(fields[0])].i)
  {
    var next := OneHot(frame, fields[0]);
    var rest := fields[1..];
    assert fields[0] !in rest;
    forall f | f in rest
      ensures Input(f) in next && next[Input(f)] == frame[Input(f)]
    {
    }
  }

  /** The indicator of the code submitted in each categorical field. */
  predicate IsSubmittedIndicator(raw: RawRecord, c: Column) {
    c.Indicator? && c.of.IsCategorical() && c.code == Code(raw, c.of)
  }

  /** True iff `frame` holds every form field of `raw`, as entered, and the two engineered features. */
  ghost predicate HoldsSubmission(frame: Frame, raw: RawRecord) {
    && (forall c :: c in frame <==> c.Input? || c == BpHrRatio || c == HighChol)
    && (forall f :: frame[Input(f)] == FieldCell(raw, f))
  }

  /**
   Steps 1 and 2: the submission with the two engineered features, the ratio
   `trestbps / thalach` and the flag `chol > 240`.
   */
  function Derived(raw: RawRecord): (d: Frame)
    requires raw.thalach != 0
    ensures HoldsSubmission(d, raw)
    ensures d[BpHrRatio].Value() == raw.trestbps as real / raw.thalach as real
    ensures d[HighChol].IntCell? && (d[HighChol].i == 1 <==> raw.chol > HighCholThreshold)
    ensures d[HighChol].IntCell? && (d[HighChol].i == 0 <==> raw.chol <= HighCholThreshold)
  {
    var input := InputFrame(raw);
    assert input[Input(Thalach)] == IntCell(raw.thalach);
    assert input[Input(Trestbps)] == IntCell(raw.trestbps);
    assert input[Input(Chol)] == IntCell(raw.chol);
    AddDerived(input)
  }

  /** The submission admits the encoding loop, and it produces exactly the submitted indicators. */
  lemma SubmissionEncodable(frame: Frame, raw: RawRecord)
    requires HoldsSubmission(frame, raw)
    ensures Encodable(frame, CategoricalFields)
    ensures forall c :: IsNewIndicator(frame, CategoricalFields, c) <==> IsSubmittedIndicator(raw, c)
  {
    forall f | f in CategoricalFields ensures frame[Input(f)] == IntCell(Code(raw, f)) {
    }
  }

  /** The fields the loop encodes are the categorical ones. */
  lemma CategoricalFieldsListed()
    ensures forall f :: f in CategoricalFields <==> f.IsCategorical()
  {
  }

  /** Steps 1 to 3: the frame before alignment (EncodeColumn says what it holds). */
  function Encode(raw: RawRecord): Frame
    requires raw.thalach != 0
  {
    var derived := Derived(raw);
    SubmissionEncodable(derived, raw);
    EncodeCategoricals(derived, CategoricalFields)
  }

  /**
   True iff steps 1 to 3 produce column `c` for `raw`: every non-categorical
   field, the two engineered features, and the indicator of the code
   submitted in each categorical field.
   */
  predicate Produced(raw: RawRecord, c: Column) {
    match c
    case Input(f) => !f.IsCategorical()
    case BpHrRatio => true
    case HighChol => true
    case Indicator(f, v) => f.IsCategorical() && v == Code(raw, f)
  }

  /**
   The number a produced column holds: a field as entered, the real quotient
   `trestbps / thalach`, 1 or 0 for `chol > 240`, and 1 for an indicator.
   */
  function ProducedValue(raw: RawRecord, c: Column): real
    requires raw.thalach != 0
  {
    match c
    case Input(f) => FieldCell(raw, f).Value()
    case BpHrRatio => raw.trestbps as real / raw.thalach as real
    case HighChol => if raw.chol > HighCholThreshold then 1.0 else 0.0
    case Indicator(_, _) => 1.0
  }

  /** Steps 1 to 3 produce exactly the columns of Produced, holding ProducedValue. */
  lemma EncodeColumn(raw: RawRecord, c: Column)
    requires raw.thalach != 0
    ensures c in Encode(raw) <==> Produced(raw, c)
    ensures c in Encode(raw) ==> Encode(raw)[c].Value() == ProducedValue(raw, c)
  {
    if c.Input? {
      EncodeInputColumn(raw, c.field);
    } else if c.Indicator? {
      EncodeIndicatorColumn(raw, c.of, c.code);
    } else {
      EncodeDerivedColumns(raw);
    }
  }

  /** EncodeColumn for a form field. */
  lemma EncodeInputColumn(raw: RawRecord, f: Field)
    requires raw.thalach != 0
    ensures Input(f) in Encode(raw) <==> !f.IsCategorical()
    ensures Input(f) in Encode(raw) ==> Encode(raw)[Input(f)] == FieldCell(raw, f)
  {
    var derived := Derived(raw);
    SubmissionEncodable(derived, raw);
    EncodeInput(raw, derived, Encode(raw), f);
  }

  /** EncodeColumn for the two engineered features. */
  lemma EncodeDerivedColumns(raw: RawRecord)
    requires raw.thalach != 0
    ensures BpHrRatio in Encode(raw) && Encode(raw)[BpHrRatio].Value() == raw.trestbps as real / raw.thalach as real
    ensures HighChol in Encode(raw) && Encode(raw)[HighChol].Value() == if raw.chol > HighCholThreshold then 1.0 else 0.0
  {
    var derived := Derived(raw);
    SubmissionEncodable(derived, raw);
    EncodeKept(raw, derived, Encode(raw), BpHrRatio);
    EncodeKept(raw, derived, Encode(raw), HighChol);
  }

  /** EncodeColumn for an indicator. */
  lemma EncodeIndicatorColumn(raw: RawRecord, f: Field, v: int)
    requires raw.thalach != 0
    ensures Indicator(f, v) in Encode(raw) <==> f.IsCategorical() && v == Code(raw, f)
    ensures Indicator(f, v) in Encode(raw) ==> Encode(raw)[Indicator(f, v)] == IntCell(1)
  {
    var derived := Derived(raw);
    SubmissionEncodable(derived, raw);
    EncodeIndicator(raw, derived, Encode(raw), f, v);
  }

  /** The encoding loop adds the indicator of the submitted code of each categorical field, holding 1. */
  lemma EncodeIndicator(raw: RawRecord, derived: Frame, e: Frame, f: Field, v: int)
    requires HoldsSubmission(derived, raw) && Encodable(derived, CategoricalFields)
    requires e == EncodeCategoricals(derived, CategoricalFields)
    ensures Indicator(f, v) in e <==> f.IsCategorical() && v == Code(raw, f)
    ensures Indicator(f, v) in e ==> e[Indicator(f, v)] == IntCell(1)
  {
    SubmissionEncodable(derived, raw);
    EncodeCategoricalsAt(derived, CategoricalFields, Indicator(f, v));
  }

  /** A form field survives the encoding loop, as entered, iff it is not categorical. */
  lemma EncodeInput(raw: RawRecord, derived: Frame, e: Frame, f: Field)
    requires HoldsSubmission(derived, raw) && Encodable(derived, CategoricalFields)
    requires e == EncodeCategoricals(derived, CategoricalFields)
    ensures Input(f) in e <==> !f.IsCategorical()
    ensures Input(f) in e ==> e[Input(f)] == FieldCell(raw, f)
  {
    CategoricalFieldsListed();
    EncodeCategoricalsAt(derived, CategoricalFields, Input(f));
  }

  /** The engineered features pass through the encoding loop unchanged. */
  lemma EncodeKept(raw: RawRecord, derived: Frame, e: Frame, c: Column)
    requires HoldsSubmission(derived, raw) && Encodable(derived, CategoricalFields)
    requires e == EncodeCategoricals(derived, CategoricalFields)
    requires c == BpHrRatio || c == HighChol
    ensures c in e && e[c] == derived[c]
  {
    EncodeCategoricalsAt(derived, CategoricalFields, c);
  }

  /**
   The pandas frame: each column under its label (LabelsAt and LabelOrigin
   say what it holds).
   */
  function Labels(frame: Frame): Row
  {
    NamesInjective();
    map c | c in frame :: c.Name() := frame[c]
  }

  /** Labels never collide (NameInjective), so every column survives with its cell. */
  lemma LabelsAt(frame: Frame, c: Column)
    requires c in frame
    ensures c.Name() in Labels(frame) && Labels(frame)[c.Name()] == frame[c]
  {
    NamesInjective();
  }

  /** Every label is the label of a column of the frame. */
  lemma LabelOrigin(frame: Frame, name: string)
    requires name in Labels(frame)
    ensures exists c :: c in frame && c.Name() == name
  {
  }

  /**
   Step 4: for each expected name in turn, a column that is not yet in the
   frame is added holding the integer 0. Columns already present keep their
   values.
   */
  function ZeroFill(row: Row, cols: seq<string>): (r: Row)
    ensures forall k :: k in r <==> k in row || k in cols
    ensures forall k :: k in row ==> r[k] == row[k]
    ensures forall k :: k in r && k !in row ==> r[k] == IntCell(0)
    decreases |cols|
  {
    if |cols| == 0 then row
    else
      var next := if cols[0] in row then row else row[cols[0] := IntCell(0)];
      ZeroFill(next, cols[1..])
  }

  /**
   Step 5: `df[expected_cols]`, the frame reduced to the expected columns in
   their order, as the label/number pairs the classifier reads. A name listed
   twice is selected twice.
   */
  function Project(row: Row, cols: seq<string>): (r: seq<(string, real)>)
    requires forall j :: 0 <= j < |cols| ==> cols[j] in row
    ensures |r| == |cols|
    ensures forall j :: 0 <= j < |cols| ==> r[j].0 == cols[j] && r[j].1 == row[cols[j]].Value()
    decreases |cols|
  {
    if |cols| == 0 then []
    else [(cols[0], row[cols[0]].Value())] + Project(row, cols[1..])
  }

  /**
   Steps 4 and 5: the frame aligned to the expected columns. Each expected
   name is present once per listing, carrying the frame's value, or 0 when
   the frame lacks it.
   */
  function Align(row: Row, cols: seq<string>): (r: seq<(string, real)>)
    ensures |r| == |cols|
    ensures forall j :: 0 <= j < |r| ==> r[j].0 == cols[j]
    ensures forall j :: 0 <= j < |r| ==> r[j].1 == if cols[j] in row then row[cols[j]].Value() else 0.0
  {
    var filled := ZeroFill(row, cols);
    Project(filled, cols)
  }

  /**
   The whole transform: the submission as a row whose columns are exactly
   `expectedCols`, in order, one entry per listed name.
   */
  function Transform(raw: RawRecord, expectedCols: seq<string>): (r: seq<(string, real)>)
    requires raw.thalach != 0
    ensures |r| == |expectedCols|
    ensures forall j :: 0 <= j < |r| ==> r[j].0 == expectedCols[j]
  {
    Align(Labels(Encode(raw)), expectedCols)
  }
}
