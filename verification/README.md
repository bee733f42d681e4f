# Heart-disease risk form: the feature-alignment transform

The heart-disease risk app is a Streamlit form. It collects thirteen clinical attributes of one patient. It turns them into the feature row a pre-trained classifier expects, and asks the classifier for a prediction. This project models the part between the form and the classifier. It proves what that transform delivers.

When the form is submitted and a classifier was loaded, the handler:

1. puts the thirteen fields into a single-row pandas frame;
2. adds two engineered features:
   - `bp_hr_ratio = trestbps / thalach`, a true division;
   - `high_chol = int(chol > 240)`;
3. one-hot encodes `cp`, `restecg`, `slope` and `thal`, in that order. `pd.get_dummies` with the field as prefix adds the column `<field>_<code>` for the submitted code, holding 1. The field's own column is then dropped;
4. adds, with value 0, every column the classifier was trained on (`feature_names_in_`) that the frame lacks;
5. selects the trained columns in the trained order.

Modules:

- `Decimal` (decimal.dfy) models Python's `str()` of an integer. It proves that reading the rendering back gives the integer, so no two categories share a label.
- `Table` (table.dfy) defines cells tagged int64 or float64, the string-keyed row, and the `get_dummies` column name `field_code`. It proves that name injective.
- `Patient` (patient.dfy) defines the submitted record and the bounds the widgets impose.
- `FeatureTransform` (transform.dfy) holds the five steps above. Steps 1-3 key columns by their origin (`Column`). `Labels` turns that frame into the label-keyed pandas frame; no information is lost because labels never collide (`NameInjective`).
- `TransformProperties` (properties.dfy) gives an independent column-by-column description of the row, `Reference`. It proves the transform computes it, and derives each promise of the handler from that result.
- `Handler` (handler.dfy) models the submit gate.
- `Scenarios` (scenarios.dfy) works through two concrete patients.

The classifier's ordered feature names are a parameter, because they come with the trained model. The row the classifier receives is modelled as a sequence of (label, number) pairs. pandas int64 and float64 values are both read as mathematical reals.

## Model

| member | source | states |
|---|---|---|
| Decimal.ParseIntToString | app/streamlit_app.py:92 | the decimal rendering pandas uses for a category parses back to the category, so the rendering is a faithful label |
| Decimal.IntToStringInjective | app/streamlit_app.py:92 | distinct categories are rendered as distinct strings |
| Table.ColumnNameInjective | app/streamlit_app.py:92 | a one-hot label `field_code` determines both its field and its code, even when the field name contains `_` |
| FeatureTransform.NameInjective | app/streamlit_app.py:84-94 | no two columns of the frame can share a label: fields, `bp_hr_ratio`, `high_chol` and the indicators all differ |
| FeatureTransform.LabelsAt | app/streamlit_app.py:84-94 | every column of the frame is found under its label with its cell |
| FeatureTransform.InputFrame | app/streamlit_app.py:67-84 | the frame from the submission has exactly one column per form field, holding the submitted value, with `oldpeak` as a float and the rest as integers |
| FeatureTransform.AddDerived | app/streamlit_app.py:87-88 | adds `bp_hr_ratio`, the float whose product with `thalach` is `trestbps`, and `high_chol`, an integer 0/1 that is 1 exactly when `chol > 240`; no other column changes |
| FeatureTransform.Derived | app/streamlit_app.py:67-88 | after steps 1 and 2 the frame holds every field as entered plus the two features: the ratio is `trestbps/thalach`, the flag is 1 iff `chol > 240` and 0 iff `chol <= 240` |
| FeatureTransform.OneHot | app/streamlit_app.py:92-94 | one round of the loop removes the field's column and adds the indicator of its submitted code, holding 1 |
| FeatureTransform.OneHotAt | app/streamlit_app.py:92-94 | one round of the loop changes membership only for the field's column and its indicator, and changes no other cell |
| FeatureTransform.EncodeAfterOneHot | app/streamlit_app.py:91-94 | after one round the rest of the loop can still run, and the indicators still to come are the remaining ones |
| FeatureTransform.EncodeCategoricalsAt | app/streamlit_app.py:91-94 | after the loop the encoded fields' columns are gone; each field's indicator for its submitted code is present and holds 1; every other column is unchanged |
| FeatureTransform.SubmissionEncodable | app/streamlit_app.py:67-94 | a submission meets what the loop needs, and the indicators it yields are exactly those of the submitted codes |
| FeatureTransform.EncodeColumn | app/streamlit_app.py:67-94 | after step 3 a column is present iff it is a non-categorical field, one of the two features, or the indicator of a submitted code; its value is the field as entered, the quotient, the 0/1 flag, or 1 |
| FeatureTransform.ZeroFill | app/streamlit_app.py:97-100 | the filled frame holds the old columns, with unchanged values, plus every expected name it lacked, holding integer 0 |
| FeatureTransform.Project | app/streamlit_app.py:103 | selecting the expected names gives one entry per listed name, in list order, with that column's value |
| FeatureTransform.Align | app/streamlit_app.py:97-103 | the aligned row lists the expected names in order; each carries the frame's value under that name, or 0 when the frame lacks it |
| FeatureTransform.Transform | app/streamlit_app.py:67-103 | the row has exactly the expected columns, in the expected order |
| TransformProperties.LabelReference | app/streamlit_app.py:67-94 | a label is in the encoded frame iff some produced column carries it, and it holds that column's value |
| TransformProperties.TransformAt | app/streamlit_app.py:67-103 | entry `j` of the row is the `j`-th expected name with its reference value |
| TransformProperties.TransformMatchesReference | app/streamlit_app.py:67-103 | the row, entry by entry, equals the independent reference description of the features |
| TransformProperties.MissingColumnsZero | app/streamlit_app.py:97-100 | an expected name that the encoding never produces reads 0 |
| TransformProperties.UnexpectedColumnsDropped | app/streamlit_app.py:103 | a produced column that the classifier does not expect appears nowhere in the row |
| TransformProperties.OneHotColumn | app/streamlit_app.py:91-94 | an expected indicator of a categorical field reads 1 for the submitted code and 0 for every other code |
| TransformProperties.OneHotGroupHasOne | app/streamlit_app.py:91-100 | for a valid submission whose codes are all expected, exactly the submitted code's indicator in each categorical group reads 1 (the range of codes comes from the select boxes, lines 21-60) |
| TransformProperties.CategoricalFieldDropped | app/streamlit_app.py:94-100 | the column of a categorical field is dropped; if the classifier expects it anyway, it reads 0 |
| TransformProperties.PassThroughColumn | app/streamlit_app.py:67-84 | a non-categorical field reaches the classifier with the submitted value |
| TransformProperties.RatioColumn | app/streamlit_app.py:87 | `bp_hr_ratio` reads `trestbps / thalach` as a real quotient |
| TransformProperties.HighCholColumn | app/streamlit_app.py:88 | `high_chol` reads 1 iff `chol > 240`, and 0 iff `chol <= 240` |
| TransformProperties.CholAffectsOnlyCholColumns | app/streamlit_app.py:87-94 | changing the cholesterol alone changes no entry other than `chol` and `high_chol` |
| TransformProperties.CholAffectsOnlyCholNames | app/streamlit_app.py:87-94 | the reference value of every label other than `chol` and `high_chol` does not depend on the cholesterol |
| TransformProperties.NotProduced | app/streamlit_app.py:91-100 | a column the encoding does not produce has reference value 0 under its label |
| Handler.Submit | app/streamlit_app.py:65-103 | nothing happens unless the form was submitted and a classifier is loaded; a loaded classifier without `feature_names_in_` makes line 97 fail; otherwise a feature row exists, and it is the reference description over the classifier's feature names |
| Scenarios.TypicalDerived | app/streamlit_app.py:87-88 | for the default patient (blood pressure 120, heart rate 150, cholesterol 200) the ratio reads 0.8 and `high_chol` reads 0 |
| Scenarios.HighCholesterol | app/streamlit_app.py:88 | raising that patient's cholesterol to 300 sets `high_chol` to 1 and changes no entry other than `chol` and `high_chol` |

## Left out

- The Streamlit page is not modelled: the layout, labels, messages and widgets. The widgets matter only through the bounds they put on the submitted values (`Patient.Valid`).
- Loading the classifier with joblib, and the failure message when the file is missing, are left out. A loaded classifier is `Handler.Option.Some` of a `Handler.Classifier`, which records its `feature_names_in_` if it has them; a failed load is `None`.
- The classifier's `predict` and `predict_proba`, and the display of the result, are left out. They are foreign code that consumes the row.
- Floating point is modelled as exact real arithmetic. `bp_hr_ratio` and `oldpeak` are reals, so IEEE rounding is not modelled.
- Transform: requires `thalach != 0`, and so do AddDerived, Derived and Encode. In pandas a zero divisor yields ±inf, or NaN for 0/0, rather than an error, and that case is not modelled. The form's minimum heart rate of 60 rules it out for every submission.
- Handler.Submit: requires `thalach != 0` only when the gate lets the transform run.
- Handler.Submit: a classifier without `feature_names_in_` ends in `MissingFeatureNames`, which stands for the AttributeError raised at line 97. The error is unhandled there, and what Streamlit then shows is not modelled.
- The transform has no check of its own for a zero divisor or for an empty feature list. When the classifier lists no feature names, the row is empty (`Transform` with an empty list). The only failure after the gate is the missing attribute above.
- EncodeCategoricals: requires `Encodable`. An indicator label must not already be a column, because pandas `concat` would then hold two columns of one label. A submission always meets this (`SubmissionEncodable`).
- The order of columns inside the frame before the final selection is not modelled. The last step fixes the order by name, so that order never reaches the classifier.
- The frame's dtypes reach the classifier only as numbers: `Cell.Value` reads int64 and float64 alike as reals.
