/**
 * The values of the legacy import: what a source row holds, and how it is checked against its
 * target column. A double stays its 64 bits.
 */
module LegacyValues {
  import opened Wrappers

  type Bits = b: int | 0 <= b < 0x1_0000_0000_0000_0000

  datatype ColType = TextCol | IntCol | RealCol

  datatype Col = Col(name: string, colType: ColType, nullable: bool, derived: bool)

  datatype Value = Null | Text(s: string) | Int(i: int) | Real(bits: Bits)

  /** A value as the SQLite reader hands it over. A bigint carries the double that holds it exactly,
    * if one does; a number carries the integer it is, if it is a safe one. */
  datatype Raw =
    | RawNull
    | RawText(s: string)
    | RawBigint(i: int, exact: Option<Bits>)
    | RawNumber(bits: Bits, safeInteger: Option<int>)
    | RawBlob

  datatype ValueError = NullInNotNull(col: string) | WrongType(col: string) | HoldsNul(col: string)

  const NUL: char := 0 as char

  function CheckValue(v: Raw, col: Col): Result<Value, ValueError> {
    if v == RawNull then
      if col.nullable then Ok(Null) else Err(NullInNotNull(col.name))
    else match col.colType
         case TextCol =>
           if !v.RawText? then Err(WrongType(col.name))
           else if NUL in v.s then Err(HoldsNul(col.name))
           else Ok(Text(v.s))
         case IntCol =>
           if v.RawBigint? then Ok(Int(v.i))
           else if v.RawNumber? && v.safeInteger.Some? then Ok(Int(v.safeInteger.value))
           else Err(WrongType(col.name))
         case RealCol =>
           if v.RawNumber? then Ok(Real(v.bits))
           else if v.RawBigint? && v.exact.Some? then Ok(Real(v.exact.value))
           else Err(WrongType(col.name))
  }

  /** A value that its column can hold. */
  predicate Fits(v: Value, col: Col) {
    match v
    case Null => col.nullable
    case Text(s) => col.colType == TextCol && NUL !in s
    case Int(_) => col.colType == IntCol
    case Real(_) => col.colType == RealCol
  }

  predicate RowFits(values: seq<Value>, cols: seq<Col>) {
    |values| == |cols| && forall k :: 0 <= k < |cols| ==> Fits(values[k], cols[k])
  }

  /** A source row, by column name; a column that is not there reads as NULL. */
  type RawRow = map<string, Raw>

  function At(row: RawRow, name: string): Raw { if name in row then row[name] else RawNull }

  /** A row's values in column order; derived columns come from the importer. */
  function ValuesFor(cols: seq<Col>, row: RawRow, derived: RawRow): Result<seq<Value>, ValueError> {
    if cols == [] then Ok([])
    else
      var col := cols[0];
      match CheckValue(At(if col.derived then derived else row, col.name), col)
      case Err(e) => Err(e)
      case Ok(v) =>
        match ValuesFor(cols[1..], row, derived)
        case Err(e) => Err(e)
        case Ok(vs) => Ok([v] + vs)
  }

  /** What passes the check fits its column: no NULL where none may be, and no NUL in a text. */
  lemma {:induction false} CheckedRowFits(cols: seq<Col>, row: RawRow, derived: RawRow)
    ensures ValuesFor(cols, row, derived).Ok? ==> RowFits(ValuesFor(cols, row, derived).value, cols)
  {
    if cols != [] {
      CheckedRowFits(cols[1..], row, derived);
    }
  }
}
