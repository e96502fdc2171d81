/** The decoded timetable workbook, as `openpyxl` hands it to the scanners:
    sheets in file order, rows in storage order, cells as Python values. */
module Workbook {
  import opened PyText

  /** A cell value read with `values_only=True`. */
  datatype Cell =
    | Empty                            // `None`
    | Str(s: string)
    | Int(i: int)
    | Float(value: real, text: string) // the float's value and its `str()` form

  type Row = seq<Cell>

  /** One sheet per weekday: its title is the day's name, its first row a header. */
  datatype Sheet = Sheet(title: string, rows: seq<Row>)

  type Book = seq<Sheet>

  /** A source file as the drive listing reports it. */
  datatype DriveFile = DriveFile(id: string, name: string)

  /** The cell value that marks a class hour, and the label the renderer looks for. */
  const ClassHour: string := "Классный час"

  /** The rows `iter_rows(min_row=2)` yields: all but the header. */
  function DataRows(sheet: Sheet): (rows: seq<Row>)
    ensures |rows| == if sheet.rows == [] then 0 else |sheet.rows| - 1
    ensures forall k :: 0 <= k < |rows| ==> rows[k] == sheet.rows[k + 1]
  {
    if sheet.rows == [] then [] else sheet.rows[1..]
  }

  /** Python truthiness of a cell value. */
  predicate Truthy(c: Cell) {
    match c
    case Empty => false
    case Str(s) => s != ""
    case Int(i) => i != 0
    case Float(v, _) => v != 0.0
  }

  /** `str(c)`, as an f-string renders the value. */
  function CellText(c: Cell): (r: string)
    ensures c.Empty? ==> r == "None"
    ensures c.Str? ==> r == c.s
    ensures c.Float? ==> r == c.text
    ensures c.Int? ==> r != [] && (r[0] == '-' <==> c.i < 0)
    ensures c.Int? ==>
      var digits := if c.i < 0 then r[1..] else r;
      (forall k :: 0 <= k < |digits| ==> IsDigit(digits[k])) &&
      DecimalValue(digits) == (if c.i < 0 then -c.i else c.i)
    ensures c.Int? ==>
      var digits := if c.i < 0 then r[1..] else r;
      digits != [] && (digits[0] == '0' ==> c.i == 0)
  {
    match c
    case Empty => "None"
    case Str(s) => s
    case Int(i) => IntToStringRoundTrip(i); IntToString(i)
    case Float(_, text) => text
  }
}
