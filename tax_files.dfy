/** The tax files as the scripts see them: a directory of `.xlsx` workbooks,
    of which only the values in column 3 (`Ten_san_pham`) from row 2 down
    are ever read. */
module TaxFiles {
  import opened Wrappers
  import opened PyStr
  import opened TotalCodec
  import opened BeverageSynthesis

  /** A cell value as openpyxl returns it. */
  datatype Cell = Blank | Text(s: string) | Number(n: int)

  /** Python truthiness of a cell value (`if val`). */
  predicate Truthy(c: Cell) {
    match c
    case Blank => false
    case Text(s) => s != []
    case Number(n) => n != 0
  }

  /** `str(val)`. */
  function CellString(c: Cell): string {
    match c
    case Blank => "None"
    case Text(s) => s
    case Number(n) => SignPrefix(n) + Digits(Magnitude(n))
  }

  /** A workbook in the tax directory: either one written for a generated
      invoice, or any other file, whose column-3 values are given (None when
      the workbook cannot be opened). */
  datatype TaxFile = Generated(invoice: Invoice) | Existing(column3: Option<seq<Cell>>)

  /** One row per line, the product name in column 3. */
  function NameCells(items: seq<Item>): (r: seq<Cell>)
    ensures |r| == |items|
  {
    seq(|items|, i requires 0 <= i < |items| => Text(items[i].name))
  }

  lemma NameCellsAt(items: seq<Item>, i: int)
    requires 0 <= i < |items|
    ensures NameCells(items)[i] == Text(items[i].name)
  {
  }

  /** The column-3 values of rows 2 and onward, or None when opening fails. */
  function Column3(f: TaxFile): Option<seq<Cell>> {
    match f
    case Generated(inv) => Some(NameCells(inv.items))
    case Existing(cells) => cells
  }

  /** A directory listing as `glob` produces it: every entry once, in some order. */
  ghost predicate Enumerates(listing: seq<string>, dir: map<string, TaxFile>) {
    (forall i, j :: 0 <= i < j < |listing| ==> listing[i] != listing[j])
    && (forall n :: n in listing <==> n in dir)
  }

  /** The names `glob("*.xlsx")` matches. */
  predicate IsXlsx(name: string) {
    EndsWith(name, ".xlsx")
  }

  /** The names the replacement run and the listing skip. */
  predicate IsGrab(name: string) {
    StartsWith(name, "Grab - ")
  }

  /** A name the glob keeps, leaving out Grab files when `skipGrab`. */
  predicate Selected(name: string, skipGrab: bool) {
    IsXlsx(name) && !(skipGrab && IsGrab(name))
  }

  /** The names of a listing that are kept, in listing order. */
  function Matching(listing: seq<string>, skipGrab: bool): (r: seq<string>)
    ensures |r| <= |listing|
  {
    if listing == [] then []
    else
      var init := Matching(listing[..|listing| - 1], skipGrab);
      var n := listing[|listing| - 1];
      if Selected(n, skipGrab) then init + [n] else init
  }

  lemma {:induction false} MatchingMembers(listing: seq<string>, skipGrab: bool, n: string)
    ensures n in Matching(listing, skipGrab) <==> n in listing && Selected(n, skipGrab)
    decreases |listing|
  {
    if listing != [] {
      var init := listing[..|listing| - 1];
      MatchingMembers(init, skipGrab, n);
      assert listing == init + [listing[|listing| - 1]];
    }
  }

  /** Filtering a listing without repeats gives a list without repeats. */
  lemma {:induction false} MatchingDistinct(listing: seq<string>, skipGrab: bool)
    requires forall i, j :: 0 <= i < j < |listing| ==> listing[i] != listing[j]
    ensures var r := Matching(listing, skipGrab);
      forall i, j :: 0 <= i < j < |r| ==> r[i] != r[j]
    decreases |listing|
  {
    if listing != [] {
      var init := listing[..|listing| - 1];
      var n := listing[|listing| - 1];
      MatchingDistinct(init, skipGrab);
      MatchingMembers(init, skipGrab, n);
      assert n !in init;
    }
  }
}
