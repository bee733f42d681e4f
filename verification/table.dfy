/**
 The single-row data frame the form handler works on: a column name maps to
 one cell, and a cell is either an integer (pandas int64) or a float (pandas
 float64). Column order inside the frame is immaterial here, because the last
 step of the transform selects and orders the columns by name.
 */
module Table {
  import opened Decimal

  /** One cell of the single-row frame, tagged with its dtype. */
  datatype Cell = IntCell(i: int) | FloatCell(x: real) {
    /** The number the classifier reads from this cell. */
    function Value(): real {
      match this
      case IntCell(i) => i as real
      case FloatCell(x) => x
    }
  }

  /** A single-row frame: column name to cell. */
  type Row = map<string, Cell>

  /** The prefix separator `pd.get_dummies` puts between field and category. */
  const Separator: char := '_'

  /**
   The name `pd.get_dummies(column, prefix=field)` gives to the indicator
   column of the integer category `value`.
   */
  function ColumnName(field: string, value: int): (name: string)
    ensures |name| > |field| + 1
  {
    field + [Separator] + IntToString(value)
  }

  /** An indicator name is the field, the separator, then a category holding no separator. */
  lemma ColumnNameShape(field: string, value: int)
    ensures ColumnName(field, value)[..|field|] == field
    ensures ColumnName(field, value)[|field|] == Separator
    ensures ColumnName(field, value)[|field| + 1..] == IntToString(value)
    ensures forall k :: |field| < k < |ColumnName(field, value)| ==> ColumnName(field, value)[k] != Separator
  {
  }

  /**
   Indicator names never collide: a name determines both its field and its
   category. The rendered category holds no separator, so the last separator
   of the name is the one between field and category, even when the field
   name itself contains separators.
   */
  lemma ColumnNameInjective(f: string, a: int, g: string, b: int)
    requires ColumnName(f, a) == ColumnName(g, b)
    ensures f == g && a == b
  {
    var n := ColumnName(f, a);
    ColumnNameShape(f, a);
    ColumnNameShape(g, b);
    assert f == n[..|f|] == g;
    assert IntToString(a) == n[|f| + 1..] == IntToString(b);
    IntToStringInjective(a, b);
  }

  /** A name without a separator is never an indicator name. */
  lemma PlainNameIsNotIndicator(name: string, f: string, a: int)
    requires Separator !in name
    ensures ColumnName(f, a) != name
  {
    ColumnNameShape(f, a);
  }
}
