/**
 One patient's form submission: the thirteen attributes the prediction form
 collects, and the domain its widgets confine them to.
 */
module Patient {

  /** The thirteen form fields, under the names the form handler gives them. */
  datatype RawRecord = RawRecord(
    age: int,
    sex: int,        // 1 = male, 0 = female
    cp: int,         // chest pain type
    trestbps: int,   // resting blood pressure, mm Hg
    chol: int,       // serum cholesterol, mg/dl
    fbs: int,        // fasting blood sugar > 120 mg/dl
    restecg: int,    // resting ECG result
    thalach: int,    // maximum heart rate achieved
    exang: int,      // exercise induced angina
    oldpeak: real,   // ST depression induced by exercise (a float widget)
    slope: int,      // slope of the peak exercise ST segment
    ca: int,         // major vessels coloured by fluoroscopy
    thal: int        // thalassemia
  )

  /** The bounds of one integer widget, inclusive at both ends. */
  predicate Within(v: int, lo: int, hi: int) {
    lo <= v <= hi
  }

  /**
   The values the form's widgets can submit: number inputs and the slider
   are bounded, select boxes offer a fixed list of codes.
   */
  predicate Valid(raw: RawRecord) {
    && Within(raw.age, 1, 120)
    && Within(raw.sex, 0, 1)
    && Within(raw.cp, 0, 3)
    && Within(raw.trestbps, 80, 200)
    && Within(raw.chol, 100, 600)
    && Within(raw.fbs, 0, 1)
    && Within(raw.restecg, 0, 2)
    && Within(raw.thalach, 60, 220)
    && Within(raw.exang, 0, 1)
    && 0.0 <= raw.oldpeak <= 10.0
    && Within(raw.slope, 0, 2)
    && Within(raw.ca, 0, 4)
    && Within(raw.thal, 0, 2)
  }

  /** A form field, as a column of the frame the handler builds. */
  datatype Field =
    | Age | Sex | Cp | Trestbps | Chol | Fbs | Restecg
    | Thalach | Exang | Oldpeak | Slope | Ca | Thal
  {
    /** The column name the handler gives the field. */
    function Name(): string {
      match this
      case Age => "age"
      case Sex => "sex"
      case Cp => "cp"
      case Trestbps => "trestbps"
      case Chol => "chol"
      case Fbs => "fbs"
      case Restecg => "restecg"
      case Thalach => "thalach"
      case Exang => "exang"
      case Oldpeak => "oldpeak"
      case Slope => "slope"
      case Ca => "ca"
      case Thal => "thal"
    }

    /** True of the four fields the handler one-hot encodes. */
    predicate IsCategorical() {
      Cp? || Restecg? || Slope? || Thal?
    }

    /** The largest code a categorical field's select box offers (the smallest is 0). */
    function MaxCode(): int
      requires IsCategorical()
    {
      match this
      case Cp => 3
      case Restecg => 2
      case Slope => 2
      case Thal => 2
    }
  }

  /** The code the patient submitted in a categorical field. */
  function Code(raw: RawRecord, f: Field): int
    requires f.IsCategorical()
  {
    match f
    case Cp => raw.cp
    case Restecg => raw.restecg
    case Slope => raw.slope
    case Thal => raw.thal
  }

  /** The name of a field determines the field. */
  lemma FieldNameInjective(f: Field, g: Field)
    requires f.Name() == g.Name()
    ensures f == g
  {
  }
}
