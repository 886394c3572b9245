// The cells of a decoded spreadsheet as the import sees them: `sheet_to_json(sheet, { header: 1 })`
// yields each row as an array whose blank cells are undefined.

module SheetCells {
  import opened Options
  import opened JsText

  /** A cell value: blank (undefined), text, a whole number or a boolean. */
  datatype Cell = Blank | Text(text: string) | Number(n: int) | Bool(b: bool)

  type Row = seq<Cell>

  /** `row[i]`, undefined past the end of the row */
  function At(row: Row, i: int): Cell {
    if 0 <= i < |row| then row[i] else Blank
  }

  /** `cell.toString()` */
  function CellText(c: Cell): string {
    match c
    case Blank => "undefined"
    case Text(s) => s
    case Number(n) => IntToString(n)
    case Bool(b) => if b then "true" else "false"
  }

  /** JavaScript truthiness of a cell */
  predicate Truthy(c: Cell) {
    match c
    case Blank => false
    case Text(s) => s != ""
    case Number(n) => n != 0
    case Bool(b) => b
  }

  /** `cell ? cell.toString().trim() : ''` */
  function TrimmedOrEmpty(c: Cell): (r: string)
    ensures !Truthy(c) ==> r == ""
  {
    if Truthy(c) then Trim(CellText(c)) else ""
  }

  /** `cell != null ? cell.toString().trim() : ''` */
  function TrimmedUnlessBlank(c: Cell): (r: string)
    ensures c.Blank? ==> r == ""
  {
    if c.Blank? then "" else Trim(CellText(c))
  }

  /** The header test `h?.toString().toLowerCase().includes(key)` */
  predicate HeaderHas(h: Cell, key: string) {
    !h.Blank? && Includes(ToLower(CellText(h)), key)
  }

  /** `headers.findIndex(h => h?.toString().toLowerCase().includes(key))` */
  function HeaderIndex(headers: Row, key: string): (r: int)
    ensures -1 <= r < |headers|
    ensures r >= 0 ==> HeaderHas(headers[r], key)
    ensures forall j :: 0 <= j < |headers| && (r < 0 || j < r) ==> !HeaderHas(headers[j], key)
  {
    if headers == [] then -1
    else if HeaderHas(headers[0], key) then 0
    else
      var k := HeaderIndex(headers[1..], key);
      if k < 0 then -1 else k + 1
  }

  /** The flag test: 'yes' or 'true' in any case, or the number 1 */
  predicate IsYes(c: Cell) {
    ToLower(CellText(c)) == "yes" || ToLower(CellText(c)) == "true" || c == Number(1)
  }

  /** `parseInt(cell.toString())`, None for NaN */
  function CellInt(c: Cell): Option<int> {
    ParseInt(CellText(c))
  }

  /** A whole number cell reads back as itself. */
  lemma CellIntOfNumber(n: int)
    ensures CellInt(Number(n)) == Some(n)
  {
    IntToStringParses(n);
  }
}
