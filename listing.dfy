/** The report of replaced invoices (automation/list_beverage_replaced_invoices.py,
    `main`): every non-Grab workbook, in sorted order, that the classifier
    recognises as beverage-only, with the three pieces of its file name. */
module Listing {
  import opened Wrappers
  import opened PyStr
  import opened TotalCodec
  import opened TaxFilename
  import opened TaxFiles
  import opened Classifier

  /** One line of the report. */
  datatype ListedInvoice = ListedInvoice(
    file: string, invoiceId: string, payment: string, totalStr: string, items: seq<string>)

  /** `parts[k].strip() if len(parts) > k else ""`. */
  function Piece(parts: seq<string>, k: nat): (r: string)
    ensures k < |parts| ==> r == Strip(parts[k])
    ensures k >= |parts| ==> r == []
  {
    if k < |parts| then Strip(parts[k]) else []
  }

  /** The report line of a file whose product names are `names`. */
  function Entry(file: string, names: seq<string>): ListedInvoice {
    var parts := Split(Stem(file), Separator);
    ListedInvoice(file, Piece(parts, 0), Piece(parts, 1), Piece(parts, 2), names)
  }

  /** The report lines of `files`, in their order. */
  function Listed(dir: map<string, TaxFile>, files: seq<string>): (r: seq<ListedInvoice>)
    requires forall i :: 0 <= i < |files| ==> files[i] in dir
    ensures |r| <= |files|
  {
    if files == [] then []
    else
      var init := Listed(dir, files[..|files| - 1]);
      var f := files[|files| - 1];
      var c := Classify(dir[f]);
      if c.isBeverage then init + [Entry(f, c.names)] else init
  }

  /** The files the report covers: `sorted` of the non-Grab `.xlsx` names. */
  function ReportFiles(listing: seq<string>): (r: seq<string>)
    ensures Sorted(r)
  {
    SortStrings(Matching(listing, true))
  }

  /** `main()` of the listing script. The exit code is 1 when the directory is
      missing; otherwise the covered files and the report lines. */
  method ListBeverageReplacedInvoices(taxDir: Option<map<string, TaxFile>>, listing: seq<string>)
      returns (code: int, files: seq<string>, invoices: seq<ListedInvoice>)
    requires taxDir.Some? ==> Enumerates(listing, taxDir.value)
    ensures taxDir.None? ==> code == 1 && files == [] && invoices == []
    ensures taxDir.Some? ==> code == 0 && files == ReportFiles(listing)
    ensures taxDir.Some? ==> (forall i :: 0 <= i < |files| ==> files[i] in taxDir.value)
                             && invoices == Listed(taxDir.value, files)
  {
    if taxDir.None? {
      return 1, [], [];
    }
    var dir := taxDir.value;
    files := ReportFiles(listing);
    ReportFilesInDir(dir, listing);
    invoices := ListFiles(dir, files);
    return 0, files, invoices;
  }

  /** The loop over the sorted files, collecting the beverage-only ones. */
  method ListFiles(dir: map<string, TaxFile>, files: seq<string>) returns (invoices: seq<ListedInvoice>)
    requires forall i :: 0 <= i < |files| ==> files[i] in dir
    ensures invoices == Listed(dir, files)
  {
    invoices := [];
    var i := 0;
    while i < |files|
      invariant 0 <= i <= |files|
      invariant invoices == Listed(dir, files[..i])
    {
      var f := files[i];
      var isBeverage, names := IsBeverageOnlyInvoice(dir[f]);
      ListedSnoc(dir, files, i);
      if isBeverage {
        invoices := invoices + [Entry(f, names)];
      }
      i := i + 1;
    }
    assert files[..|files|] == files;
  }

  // ---------------------------------------------------------------------
  // Which files are covered

  lemma ReportFilesMembers(listing: seq<string>, n: string)
    ensures n in ReportFiles(listing) <==> n in listing && IsXlsx(n) && !IsGrab(n)
  {
    MatchingMembers(listing, true, n);
    assert n in ReportFiles(listing) <==> n in multiset(ReportFiles(listing));
  }

  /** The covered files are exactly the directory's non-Grab `.xlsx` files. */
  lemma ReportCovers(dir: map<string, TaxFile>, listing: seq<string>, n: string)
    requires Enumerates(listing, dir)
    ensures n in ReportFiles(listing) <==> n in dir && IsXlsx(n) && !IsGrab(n)
  {
    ReportFilesMembers(listing, n);
  }

  /** The report does not depend on the order in which `glob` yields the
      names: any two enumerations of the directory give the same files. */
  lemma ReportOrderFree(dir: map<string, TaxFile>, listing: seq<string>, listing2: seq<string>)
    requires Enumerates(listing, dir) && Enumerates(listing2, dir)
    ensures ReportFiles(listing) == ReportFiles(listing2)
  {
    var m, m2 := Matching(listing, true), Matching(listing2, true);
    MatchingDistinct(listing, true);
    MatchingDistinct(listing2, true);
    assert forall i, j :: 0 <= i < j < |Matching(listing, true)| ==>
      Matching(listing, true)[i] != Matching(listing, true)[j];
    assert forall i, j :: 0 <= i < j < |Matching(listing2, true)| ==>
      Matching(listing2, true)[i] != Matching(listing2, true)[j];
    forall x ensures multiset(m)[x] == multiset(m2)[x] {
      DistinctCount(m, x);
      DistinctCount(m2, x);
      MatchingMembers(listing, true, x);
      MatchingMembers(listing2, true, x);
    }
    assert multiset(m) == multiset(m2);
    SortedUnique(ReportFiles(listing), ReportFiles(listing2));
  }

  lemma ReportFilesInDir(dir: map<string, TaxFile>, listing: seq<string>)
    requires Enumerates(listing, dir)
    ensures forall i :: 0 <= i < |ReportFiles(listing)| ==> ReportFiles(listing)[i] in dir
  {
    var files := ReportFiles(listing);
    forall i | 0 <= i < |files| ensures files[i] in dir {
      ReportCovers(dir, listing, files[i]);
    }
  }

  lemma ListedSnoc(dir: map<string, TaxFile>, files: seq<string>, k: int)
    requires forall i :: 0 <= i < |files| ==> files[i] in dir
    requires 0 <= k < |files|
    ensures var c := Classify(dir[files[k]]);
      Listed(dir, files[..k + 1])
      == Listed(dir, files[..k]) + (if c.isBeverage then [Entry(files[k], c.names)] else [])
  {
    assert files[..k + 1][..k] == files[..k];
  }

  // ---------------------------------------------------------------------
  // What the report lines are

  /** Every report line belongs to a covered, beverage-only file and carries
      that file's name pieces and product names. */
  lemma {:induction false} ListedEntries(dir: map<string, TaxFile>, files: seq<string>)
    requires forall i :: 0 <= i < |files| ==> files[i] in dir
    ensures forall k :: 0 <= k < |Listed(dir, files)| ==>
      var e := Listed(dir, files)[k];
      e.file in files && Classify(dir[e.file]).isBeverage
      && e == Entry(e.file, Classify(dir[e.file]).names)
    decreases |files|
  {
    if files != [] {
      var init := files[..|files| - 1];
      ListedEntries(dir, init);
      assert forall n :: n in init ==> n in files;
    }
  }

  /** Every covered beverage-only file has a report line. */
  lemma {:induction false} BeverageFilesListed(dir: map<string, TaxFile>, files: seq<string>, n: string)
    requires forall i :: 0 <= i < |files| ==> files[i] in dir
    requires n in files && Classify(dir[n]).isBeverage
    ensures exists k :: 0 <= k < |Listed(dir, files)| && Listed(dir, files)[k].file == n
    decreases |files|
  {
    var init := files[..|files| - 1];
    var r := Listed(dir, files);
    if files[|files| - 1] == n {
      assert r[|r| - 1].file == n;
    } else {
      assert files == init + [files[|files| - 1]];
      BeverageFilesListed(dir, init, n);
      var k :| 0 <= k < |Listed(dir, init)| && Listed(dir, init)[k].file == n;
      assert r[k] == Listed(dir, init)[k];
    }
  }

  /** The report lines come in the order of the sorted files. */
  lemma {:induction false} ListedInOrder(dir: map<string, TaxFile>, files: seq<string>)
    requires forall i :: 0 <= i < |files| ==> files[i] in dir
    requires Sorted(files)
    ensures forall i, j :: 0 <= i < j < |Listed(dir, files)| ==>
      LexLe(Listed(dir, files)[i].file, Listed(dir, files)[j].file)
    decreases |files|
  {
    if files != [] {
      var init := files[..|files| - 1];
      var last := files[|files| - 1];
      var r := Listed(dir, files);
      var l := Listed(dir, init);
      ListedInOrder(dir, init);
      ListedEntries(dir, init);
      forall i | 0 <= i < |l| ensures LexLe(l[i].file, last) {
        var idx :| 0 <= idx < |init| && init[idx] == l[i].file;
        assert files[idx] == init[idx];
      }
    }
  }

  /** The report line of a name written by the replacement run shows the
      id, payment method and total token it was written with. */
  lemma EntryOfOutputName(n: TaxName, names: seq<string>)
    requires RoundTripId(n.invoiceId)
    requires n.paymentMethod == "atm" || n.paymentMethod == "transfer"
    ensures Entry(OutputName(n), names)
         == ListedInvoice(OutputName(n), n.invoiceId, n.paymentMethod, TotalString(n.total) + "đ", names)
  {
    var token := TotalString(n.total) + "đ";
    var parts := Split(Stem(OutputName(n)), Separator);
    OutputNamePieces(n);
    assert parts == [n.invoiceId, n.paymentMethod, token];
    StripTotal(n.total);
    StripUnspaced(n.paymentMethod);
    assert Piece(parts, 0) == n.invoiceId;
    assert Piece(parts, 1) == n.paymentMethod;
    assert Piece(parts, 2) == token;
  }
}
