/**
 * One cell of a pandas data frame, and the three cell-level operations the
 * loader and the dashboard rely on: `astype(str)`, `pd.to_numeric(...,
 * errors='coerce')` and elementwise `==` against a key.
 */
module Cells {
  import opened Wrappers

  /**
   * `Missing` is the float NaN that `read_csv` writes for an empty field;
   * `Null` is the Python object None that `df.loc[...] = None` stores.
   * pandas treats both as missing, but `str` writes them differently.
   */
  datatype Cell = Missing | Null | Text(s: string) | Number(x: real) {
    predicate IsNA() { Missing? || Null? }
  }

  /**
   * The two conversions whose exact behaviour belongs to Python and not to
   * this repository: parsing a string as a number (`None` when `to_numeric`
   * would coerce it to NaN) and the `str` of a float.
   */
  datatype Conversions = Conversions(parse: string -> Option<real>, show: real -> string)

  /** `str(c)`, as `Series.astype(str)` applies it to every cell. */
  function Stringify(c: Cell, show: real -> string): (r: string)
    ensures c.Missing? ==> r == "nan"
    ensures c.Null? ==> r == "None"
    ensures c.Text? ==> r == c.s
  {
    match c
    case Missing => "nan"
    case Null => "None"
    case Text(s) => s
    case Number(x) => show(x)
  }

  /** `pd.to_numeric(c, errors='coerce')`: numbers stay, text is parsed, everything else is NaN. */
  function ToNumeric(c: Cell, parse: string -> Option<real>): (r: Cell)
    ensures r.Number? || r.Missing?
    ensures c.Number? ==> r == c
    ensures c.IsNA() ==> r == Missing
  {
    match c
    case Number(_) => c
    case Text(s) => (match parse(s) case Some(x) => Number(x) case None => Missing)
    case _ => Missing
  }

  /** `column == key`, elementwise: a missing key equals nothing, not even another missing cell. */
  predicate Equals(c: Cell, key: Cell) {
    !key.IsNA() && c == key
  }
}
