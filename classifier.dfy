/** Recognising a workbook whose every product line is a beverage
    (automation/list_beverage_replaced_invoices.py, `BEVERAGE_KEYWORDS` and
    `is_beverage_only_invoice`). */
module Classifier {
  import opened Wrappers
  import opened PyStr
  import opened BeverageSynthesis
  import opened TaxFiles

  const BeverageKeywords: seq<string> := ["sapporo", "tiger draught", "coke"]

  /** The product name a cell contributes: the stripped, lower-cased text of
      a truthy value that is not blank after stripping. */
  function CellName(c: Cell): (r: Option<string>)
    ensures r.Some? ==> r.value != []
  {
    if Truthy(c) && Strip(CellString(c)) != [] then Some(Lower(Strip(CellString(c)))) else None
  }

  /** The name each row contributes, if any. */
  function CellNames(cells: seq<Cell>): (r: seq<Option<string>>)
    ensures |r| == |cells|
  {
    seq(|cells|, i requires 0 <= i < |cells| => CellName(cells[i]))
  }

  /** The values of the present entries, in order. */
  function Present(opts: seq<Option<string>>): (r: seq<string>)
    ensures |r| <= |opts|
  {
    if opts == [] then []
    else
      var init := Present(opts[..|opts| - 1]);
      var c := opts[|opts| - 1];
      if c.Some? then init + [c.value] else init
  }

  /** The `product_names` the row loop collects, in row order. */
  function ProductNames(cells: seq<Cell>): (r: seq<string>)
    ensures |r| <= |cells|
  {
    Present(CellNames(cells))
  }

  /** A service-fee line (`"phí dịch vụ" in name or "service" in name`). */
  predicate IsServiceName(name: string) {
    Contains(name, "phí dịch vụ") || Contains(name, "service")
  }

  /** `any(kw in name for kw in BEVERAGE_KEYWORDS)`. */
  predicate HasBeverageKeyword(name: string) {
    exists k :: 0 <= k < |BeverageKeywords| && Contains(name, BeverageKeywords[k])
  }

  /** A name that does not disqualify an invoice. */
  predicate Acceptable(name: string) {
    IsServiceName(name) || HasBeverageKeyword(name)
  }

  /** Beverage-only: some product name, and every one of them acceptable. */
  predicate BeverageOnly(names: seq<string>) {
    names != [] && forall i :: 0 <= i < |names| ==> Acceptable(names[i])
  }

  /** The pair `is_beverage_only_invoice` returns. */
  datatype Classification = Classification(isBeverage: bool, names: seq<string>)

  /** What the classifier answers for a file. */
  function Classify(f: TaxFile): (r: Classification)
    ensures r.names == (if Column3(f).Some? then ProductNames(Column3(f).value) else [])
    ensures r.isBeverage <==> Column3(f).Some? && BeverageOnly(r.names)
  {
    match Column3(f)
    case None => Classification(false, [])
    case Some(cells) =>
      var names := ProductNames(cells);
      if names == [] then Classification(false, []) else Classification(BeverageOnly(names), names)
  }

  /** `is_beverage_only_invoice(filepath)`: collect the names row by row,
      then scan them, returning at the first disqualifying one. A workbook
      that cannot be read gives `(False, [])`; otherwise the whole collected
      list is returned, also on disqualification. */
  method IsBeverageOnlyInvoice(f: TaxFile) returns (isBeverage: bool, names: seq<string>)
    ensures names == (if Column3(f).Some? then ProductNames(Column3(f).value) else [])
    ensures isBeverage <==> Column3(f).Some? && BeverageOnly(names)
  {
    var sheet := Column3(f);
    if sheet.None? {
      return false, [];
    }
    names := CollectNames(sheet.value);
    if names == [] {
      return false, [];
    }
    isBeverage := ScanNames(names);
  }

  /** The row loop of `is_beverage_only_invoice`. */
  method CollectNames(cells: seq<Cell>) returns (names: seq<string>)
    ensures names == ProductNames(cells)
  {
    ghost var opts := CellNames(cells);
    names := [];
    var row := 0;
    while row < |cells|
      invariant 0 <= row <= |cells|
      invariant names == Present(opts[..row])
    {
      var name := CellName(cells[row]);
      PresentSnoc(opts, row);
      if name.Some? {
        names := names + [name.value];
      }
      row := row + 1;
    }
    assert opts[..|cells|] == opts;
  }

  lemma PresentSnoc(opts: seq<Option<string>>, k: int)
    requires 0 <= k < |opts|
    ensures Present(opts[..k + 1])
         == Present(opts[..k]) + (if opts[k].Some? then [opts[k].value] else [])
  {
    assert opts[..k + 1][..k] == opts[..k];
  }

  /** The scan loop of `is_beverage_only_invoice`: service lines are passed
      over, and the first name without a keyword answers `False`. */
  method ScanNames(names: seq<string>) returns (ok: bool)
    requires names != []
    ensures ok <==> BeverageOnly(names)
  {
    var i := 0;
    while i < |names|
      invariant 0 <= i <= |names|
      invariant forall j :: 0 <= j < i ==> Acceptable(names[j])
    {
      var name := names[i];
      if IsServiceName(name) {
        i := i + 1;
        continue;
      }
      if !HasBeverageKeyword(name) {
        return false;
      }
      i := i + 1;
    }
    return true;
  }

  // ---------------------------------------------------------------------
  // What the collected names are

  /** A name is collected iff some cell contributes it. */
  lemma {:induction false} PresentMembers(opts: seq<Option<string>>, n: string)
    ensures n in Present(opts) <==> exists i :: 0 <= i < |opts| && opts[i] == Some(n)
    decreases |opts|
  {
    if opts != [] {
      var init := opts[..|opts| - 1];
      PresentMembers(init, n);
      assert forall i :: 0 <= i < |init| ==> init[i] == opts[i];
    }
  }

  /** Every collected name is non-empty. */
  lemma {:induction false} PresentNonEmpty(opts: seq<Option<string>>)
    requires forall i :: 0 <= i < |opts| && opts[i].Some? ==> opts[i].value != []
    ensures forall k :: 0 <= k < |Present(opts)| ==> Present(opts)[k] != []
    decreases |opts|
  {
    if opts != [] {
      PresentNonEmpty(opts[..|opts| - 1]);
    }
  }

  /** A name is collected iff some cell contributes it. */
  lemma NamesComeFromCells(cells: seq<Cell>, n: string)
    ensures n in ProductNames(cells) <==> exists i :: 0 <= i < |cells| && CellName(cells[i]) == Some(n)
  {
    var opts := CellNames(cells);
    PresentMembers(opts, n);
    if n in ProductNames(cells) {
      var i :| 0 <= i < |opts| && opts[i] == Some(n);
      assert CellName(cells[i]) == Some(n);
    }
    if exists i :: 0 <= i < |cells| && CellName(cells[i]) == Some(n) {
      var i :| 0 <= i < |cells| && CellName(cells[i]) == Some(n);
      assert opts[i] == Some(n);
    }
  }

  /** No collected name is empty. */
  lemma NamesNonEmpty(cells: seq<Cell>)
    ensures forall k :: 0 <= k < |ProductNames(cells)| ==> ProductNames(cells)[k] != []
  {
    PresentNonEmpty(CellNames(cells));
  }

  /** A service line never disqualifies: adding one keeps the verdict of a
      non-empty list and removing one keeps the verdict of what remains. */
  lemma ServiceLineIgnored(a: seq<string>, s: string, b: seq<string>)
    requires IsServiceName(s) && a + b != []
    ensures BeverageOnly(a + [s] + b) <==> BeverageOnly(a + b)
  {
    var l, r := a + [s] + b, a + b;
    if BeverageOnly(r) {
      forall i | 0 <= i < |l| ensures Acceptable(l[i]) {
        if i < |a| { assert l[i] == r[i]; }
        else if i > |a| { assert l[i] == r[i - 1]; }
      }
    }
    if BeverageOnly(l) {
      forall i | 0 <= i < |r| ensures Acceptable(r[i]) {
        if i < |a| { assert r[i] == l[i]; } else { assert r[i] == l[i + 1]; }
      }
    }
  }

  /** A name without a keyword that is not a service line disqualifies. */
  lemma OneForeignNameDisqualifies(names: seq<string>, i: nat)
    requires i < |names| && !IsServiceName(names[i]) && !HasBeverageKeyword(names[i])
    ensures !BeverageOnly(names)
  {
  }

  // ---------------------------------------------------------------------
  // Generated invoices are recognised

  lemma KeywordAtStart(s: string, kw: string)
    requires |kw| <= |s| && forall j :: 0 <= j < |kw| ==> LowerChar(s[j]) == kw[j]
    ensures Contains(Lower(s), kw)
  {
    LowerPointwise(s);
    assert Lower(s)[..|kw|] == kw;
  }

  /** A text cell whose value is already stripped yields its lower-cased text. */
  lemma TextCellName(s: string)
    requires s != [] && !IsSpace(s[0]) && !IsSpace(s[|s| - 1])
    ensures CellName(Text(s)) == Some(Lower(s))
  {
    StripUnspaced(s);
  }

  /** Every catalog name, as the classifier reads it back, holds its keyword. */
  lemma CatalogNameAccepted(j: int)
    requires 0 <= j < |Catalog|
    ensures CellName(Text(Catalog[j].name)) == Some(Lower(Catalog[j].name))
    ensures HasBeverageKeyword(Lower(Catalog[j].name))
  {
    var n := Catalog[j].name;
    TextCellName(n);
    if j == 0 { SapporoKeyword(); } else if j == 1 { TigerKeyword(); } else { CokeKeyword(); }
  }

  lemma SapporoKeyword()
    ensures HasBeverageKeyword(Lower(Catalog[0].name))
  {
    KeywordAtStart(Catalog[0].name, BeverageKeywords[0]);
  }

  lemma TigerKeyword()
    ensures HasBeverageKeyword(Lower(Catalog[1].name))
  {
    KeywordAtStart(Catalog[1].name, BeverageKeywords[1]);
  }

  lemma CokeKeyword()
    ensures HasBeverageKeyword(Lower(Catalog[2].name))
  {
    KeywordAtStart(Catalog[2].name, BeverageKeywords[2]);
  }

  /** A line sold under a catalog name. */
  predicate CatalogNamed(it: Item) {
    exists j :: 0 <= j < |Catalog| && it.name == Catalog[j].name
  }

  /** When every row contributes, every contribution is collected, in order. */
  lemma {:induction false} PresentAllSome(opts: seq<Option<string>>)
    requires forall i :: 0 <= i < |opts| ==> opts[i].Some?
    ensures |Present(opts)| == |opts|
    ensures forall i :: 0 <= i < |opts| ==> Present(opts)[i] == opts[i].value
    decreases |opts|
  {
    if opts != [] {
      PresentAllSome(opts[..|opts| - 1]);
    }
  }

  lemma CatalogNamesCollected(items: seq<Item>)
    requires forall i :: 0 <= i < |items| ==> CatalogNamed(items[i])
    ensures |ProductNames(NameCells(items))| == |items|
    ensures forall i :: 0 <= i < |items| ==> HasBeverageKeyword(ProductNames(NameCells(items))[i])
  {
    var opts := CellNames(NameCells(items));
    forall i | 0 <= i < |items|
      ensures opts[i] == Some(Lower(items[i].name)) && HasBeverageKeyword(Lower(items[i].name))
    {
      assert CatalogNamed(items[i]);
      NameCellsAt(items, i);
      var j :| 0 <= j < |Catalog| && items[i].name == Catalog[j].name;
      CatalogNameAccepted(j);
    }
    PresentAllSome(opts);
  }

  /** Any invoice the synthesizer builds is classified as beverage-only. */
  lemma GeneratedIsBeverageOnly(invoiceId: string, paymentMethod: string, total: int, date: string, d: Draws)
    requires ValidDraws(d)
    ensures Classify(Generated(BeverageInvoice(invoiceId, paymentMethod, total, date, d))).isBeverage
  {
    var items := BeverageItems(total, d);
    ItemsShape(total, d);
    forall i | 0 <= i < |items| ensures CatalogNamed(items[i]) {
      if i < |items| - 1 {
        assert CatalogLine(items[i]);
      } else {
        assert items[i].name == Catalog[d.last].name;
      }
    }
    CatalogNamesCollected(items);
  }
}
