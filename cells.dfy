/** Spreadsheet cells as the importer sees them after pandas has read a sheet and
    replaced every missing value by None: a row maps a column name to a cell. */
module Cells {
  import opened Wrappers
  import opened Text
  import opened Numbers

  datatype Cell = Null | Text(s: string) | Num(d: Dec)

  type Row = map<string, Cell>

  /** Python truthiness: None, "" and zero are false. */
  predicate Truthy(c: Cell)
  {
    match c
    case Null => false
    case Text(s) => s != ""
    case Num(d) => d.coef != 0
  }

  /** str() of a cell value, as an f-string prints it. */
  function Str(c: Cell): string
  {
    match c
    case Null => "None"
    case Text(s) => s
    case Num(d) => Render(d)
  }

  /** row.get(key): None both for a missing column and for an empty cell. */
  function Get(row: Row, key: string): Cell
  {
    if key in row then row[key] else Null
  }

  /** row.get(key, default): the default only when the column is missing. */
  function GetOr(row: Row, key: string, default: Cell): Cell
  {
    if key in row then row[key] else default
  }

  /** `a or b` over cells. */
  function Or(a: Cell, b: Cell): Cell
  {
    if Truthy(a) then a else b
  }

  /** The value is one of None, "" and "null", which the importer treats as empty. */
  predicate EmptyMarker(c: Cell)
  {
    c == Null || c == Text("") || c == Text("null")
  }

  /** The Python type of a cell value as an error message names it; the model
      reads every number cell as a float. */
  function TypeName(c: Cell): string
  {
    match c
    case Null => "NoneType"
    case Text(_) => "str"
    case Num(_) => "float"
  }

  /** The AttributeError text for a text method called on a value of another
      type. */
  function NoAttribute(c: Cell, name: string): string
  {
    "'" + TypeName(c) + "' object has no attribute '" + name + "'"
  }

  /** A text method (.strip(), .split(), .replace()) called on the value: only
      strings have one, anything else raises AttributeError. */
  function AsText(c: Cell): (r: Option<string>)
    ensures r.Some? <==> c.Text?
  {
    if c.Text? then Some(c.s) else None
  }
}
