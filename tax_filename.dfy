/** The file-name schema of a tax invoice, `<id> - <payment> - <total>đ.xlsx`
    (automation/daily_beverage_invoices.py, `parse_tax_filename` and the
    output name built in `run_beverage_replacement`). */
module TaxFilename {
  import opened Wrappers
  import opened PyStr
  import opened TotalCodec

  const Separator: string := " - "

  /** `s.rfind(c)`: the last position of `c`, or -1. */
  function LastIndexOf(s: string, c: char): (r: int)
    ensures -1 <= r < |s|
    ensures r >= 0 ==> s[r] == c && forall i :: r < i < |s| ==> s[i] != c
    ensures r == -1 ==> c !in s
  {
    if s == [] then -1
    else if s[|s| - 1] == c then |s| - 1
    else LastIndexOf(s[..|s| - 1], c)
  }

  /** `Path(name).stem`: the name without its last suffix; a leading or
      trailing dot does not start a suffix. */
  function Stem(name: string): string {
    var i := LastIndexOf(name, '.');
    if 0 < i < |name| - 1 then name[..i] else name
  }

  lemma StemOfSuffixed(a: string, ext: string)
    requires a != [] && ext != [] && '.' !in ext
    ensures Stem(a + "." + ext) == a
  {
    var s := a + "." + ext;
    assert s[|a|] == '.';
    assert forall i :: |a| < i < |s| ==> s[i] == ext[i - |a| - 1];
    assert s[..|a|] == a;
  }

  /** What a tax file name decodes to. */
  datatype TaxName = TaxName(invoiceId: string, paymentMethod: string, total: int)

  /** Payment: stripped, lower-cased, and `atm` unless it is `atm` or `transfer`. */
  function NormalizePayment(p: string): (r: string)
    ensures r == "atm" || r == "transfer"
  {
    var q := Lower(Strip(p));
    if q == "atm" || q == "transfer" then q else "atm"
  }

  /** `parse_tax_filename`: None when the stem has fewer than three ` - `
      pieces or the third does not parse as a total; pieces after the third
      are ignored. */
  function ParseTaxFilename(name: string): (r: Option<TaxName>)
    ensures r.Some? ==> r.value.paymentMethod == "atm" || r.value.paymentMethod == "transfer"
  {
    ParsePieces(Split(Stem(name), Separator))
  }

  /** Decoding once the stem has been split at ` - `. */
  function ParsePieces(parts: seq<string>): (r: Option<TaxName>)
    ensures |parts| < 3 ==> r.None?
    ensures r.Some? ==> r.value.invoiceId == Strip(parts[0]) && r.value.paymentMethod == NormalizePayment(parts[1])
  {
    if |parts| < 3 then None
    else
      var total := ParseTotalFromStem(Some(Strip(parts[2])));
      if total.None? then None else Some(TaxName(Strip(parts[0]), NormalizePayment(parts[1]), total.value))
  }

  /** The name a replacement invoice is written under. */
  function OutputName(n: TaxName): string {
    n.invoiceId + Separator + n.paymentMethod + Separator + TotalString(n.total) + "đ.xlsx"
  }

  /** An id that survives being written into a name and split out again. */
  predicate RoundTripId(id: string) {
    Strip(id) == id && !Contains(id, Separator) && !EndsWith(id, " -")
  }

  lemma {:induction false} SeparatorFreeId(id: string)
    requires !Contains(id, Separator) && !EndsWith(id, " -")
    ensures SeparatorFreeBefore(id, Separator)
    decreases |id|
  {
    if id != [] {
      var s := id + Separator;
      assert Separator[0] == ' ' && Separator[1] == '-' && Separator[2] == ' ';
      if |id| >= 3 {
        assert s[..3] == id[..3];
        assert !StartsWith(id, Separator);
      } else if |id| == 2 {
        assert id[|id| - 2..] == id == [id[0], id[1]];
        assert id[0] != ' ' || id[1] != '-';
        assert s[0] == id[0] && s[1] == id[1];
      } else {
        assert s[1] == ' ';
      }
      assert |id| >= 3 ==> id[1..][|id| - 3..] == id[|id| - 2..];
      SeparatorFreeId(id[1..]);
    }
  }

  lemma TotalTokenHasNoSpace(total: int)
    ensures ' ' !in TotalString(total) + "đ"
  {
    TotalStringShape(total);
  }

  lemma KnownPaymentKept(p: string)
    requires p == "atm" || p == "transfer"
    ensures NormalizePayment(p) == p
  {
    StripUnspaced(p);
    LowercaseKept(p);
  }

  /** The stem of a written name splits into exactly the three written pieces. */
  lemma SplitOutputStem(n: TaxName)
    requires !Contains(n.invoiceId, Separator) && !EndsWith(n.invoiceId, " -")
    requires n.paymentMethod == "atm" || n.paymentMethod == "transfer"
    ensures var token := TotalString(n.total) + "đ";
            Split(n.invoiceId + Separator + n.paymentMethod + Separator + token, Separator)
            == [n.invoiceId, n.paymentMethod, token]
  {
    var token := TotalString(n.total) + "đ";
    TotalTokenHasNoSpace(n.total);
    NotContainsWithoutChar(token, Separator, 0, ' ');
    SeparatorFreeId(n.invoiceId);
    PaymentSeparatorFree(n.paymentMethod);
    SplitThree(n.invoiceId, n.paymentMethod, token);
  }

  lemma SplitThree(a: string, b: string, c: string)
    requires SeparatorFreeBefore(a, Separator) && SeparatorFreeBefore(b, Separator)
    requires !Contains(c, Separator)
    ensures Split(a + Separator + b + Separator + c, Separator) == [a, b, c]
  {
    var rest := b + Separator + c;
    assert a + Separator + b + Separator + c == a + Separator + rest;
    SplitWithoutSeparator(c, Separator);
    SplitAfterPiece(b, Separator, c);
    SplitAfterPiece(a, Separator, rest);
  }

  lemma PaymentSeparatorFree(pay: string)
    requires pay == "atm" || pay == "transfer"
    ensures SeparatorFreeBefore(pay, Separator)
  {
    assert ' ' !in pay;
    NotContainsWithoutChar(pay, Separator, 0, ' ');
    assert !EndsWith(pay, " -");
    SeparatorFreeId(pay);
  }

  /** The stem of a written name, the name without its `.xlsx` extension, is
      the id, the payment method and the total token joined by ` - `. */
  lemma StemOfOutputName(n: TaxName)
    ensures Stem(OutputName(n))
         == n.invoiceId + Separator + n.paymentMethod + Separator + TotalString(n.total) + "đ"
  {
    var stem := n.invoiceId + Separator + n.paymentMethod + Separator + TotalString(n.total) + "đ";
    assert OutputName(n) == stem + "." + "xlsx";
    StemOfSuffixed(stem, "xlsx");
  }

  lemma OutputNamePieces(n: TaxName)
    requires !Contains(n.invoiceId, Separator) && !EndsWith(n.invoiceId, " -")
    requires n.paymentMethod == "atm" || n.paymentMethod == "transfer"
    ensures Split(Stem(OutputName(n)), Separator)
         == [n.invoiceId, n.paymentMethod, TotalString(n.total) + "đ"]
  {
    StemOfOutputName(n);
    SplitOutputStem(n);
    var id, pay, t := n.invoiceId, n.paymentMethod, TotalString(n.total);
    assert id + Separator + pay + Separator + t + "đ" == id + Separator + pay + Separator + (t + "đ");
  }

  /** A stem of three or more pieces whose third parses decodes from its
      first three pieces; any further pieces are ignored. */
  lemma ParseOfPieces(parts: seq<string>, total: int)
    requires |parts| >= 3 && ParseTotalFromStem(Some(Strip(parts[2]))) == Some(total)
    ensures ParsePieces(parts) == Some(TaxName(Strip(parts[0]), NormalizePayment(parts[1]), total))
    ensures ParsePieces(parts) == ParsePieces(parts[..3])
  {
  }

  /** A third piece that is not a total rejects the whole name. */
  lemma BadTotalRejected(parts: seq<string>)
    requires |parts| >= 3 && ParseTotalFromStem(Some(Strip(parts[2]))).None?
    ensures ParsePieces(parts).None?
  {
  }

  lemma TotalTokenParses(total: int)
    ensures ParseTotal(Strip(TotalString(total) + "đ")) == Some(total)
  {
    StripTotal(total);
    TotalRoundTrip(total);
  }

  /** Decoding the name written for a decoded file gives back the same triple,
      provided the id cannot be mistaken for a separator. */
  lemma FileNameRoundTrip(n: TaxName)
    requires RoundTripId(n.invoiceId)
    requires n.paymentMethod == "atm" || n.paymentMethod == "transfer"
    ensures ParseTaxFilename(OutputName(n)) == Some(n)
  {
    OutputNamePieces(n);
    KnownPaymentKept(n.paymentMethod);
    TotalTokenParses(n.total);
    ParseOfPieces([n.invoiceId, n.paymentMethod, TotalString(n.total) + "đ"], n.total);
  }
}
