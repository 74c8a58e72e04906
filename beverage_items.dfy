/** The beverage invoice that replaces a tax invoice
    (automation/daily_beverage_invoices.py, `BEVERAGE_ITEMS`,
    `beverage_invoice_items_for_target` and `build_beverage_invoice`).

    Given the post-tax total T of the invoice being replaced, one to two
    "fixed" catalog lines are bought within a budget, and one last line is
    priced so that the pre-tax sum comes as close as possible to T / 1.10.
    The random draws are passed in as a `Draws` value. */
module BeverageSynthesis {
  import opened Wrappers
  import opened Dates

  /** An entry of `BEVERAGE_ITEMS`. */
  datatype Product = Product(name: string, unit: string, price: int)

  const Catalog: seq<Product> := [
    Product("Sapporo / Sapporo", "Ly", 55000),
    Product("Tiger Draught / Tiger Draught", "Ly", 45000),
    Product("Coke / Coke", "Ly", 25000)
  ]

  /** A line of an invoice. */
  datatype Item = Item(name: string, unit: string, quantity: int, price: int)

  /** The dictionary `build_beverage_invoice` returns. */
  datatype Invoice = Invoice(invoiceId: string, date: string, paymentMethod: string,
                             discount: int, paymentDiscount: int, items: seq<Item>, finalTotal: int)

  /** The outcomes of the `random` calls of one synthesis, in call order:
      `randint(25_000, 60_000)`, `randint(1, 2)`, one `choice` and one
      `randint(1, max_qty)` per fixed line, and the `choice` of the last line.
      A quantity draw `u` stands for `randint(1, max_qty)` through
      `1 + u % max_qty`, which reaches every value of the range. */
  datatype Draws = Draws(reserve: int, nFixed: int, picks: seq<int>, qtyDraws: seq<nat>, last: int)

  predicate ValidDraws(d: Draws) {
    25000 <= d.reserve <= 60000 && 1 <= d.nFixed <= 2
    && |d.picks| == d.nFixed && |d.qtyDraws| == d.nFixed
    && (forall k :: 0 <= k < |d.picks| ==> 0 <= d.picks[k] < |Catalog|)
    && 0 <= d.last < |Catalog|
  }

  function Min(a: int, b: int): int {
    if a <= b then a else b
  }

  function Max(a: int, b: int): int {
    if a >= b then a else b
  }

  function MinReal(a: real, b: real): real {
    if a <= b then a else b
  }

  /** Python's `round(x)`: the nearest integer, ties to the even one. */
  function RoundHalfEven(x: real): (r: int)
    ensures -0.5 <= r as real - x <= 0.5
    ensures (r as real - x == 0.5 || x - r as real == 0.5) ==> r % 2 == 0
  {
    var f := x.Floor;
    var frac := x - f as real;
    if frac < 0.5 then f
    else if frac > 0.5 then f + 1
    else if f % 2 == 0 then f
    else f + 1
  }

  /** `original_final_total / 1.10`, computed exactly. */
  function TargetBeforeTax(total: int): real {
    total as real / 1.1
  }

  /** The budget of the fixed lines: the target less the reserve kept for the
      last line, or half the target when that would be under 25 000. */
  function MaxFixed(target: real, reserve: int): real {
    if target - reserve as real < 25000.0 then target * 0.5 else target - reserve as real
  }

  /** `int(x // p)` for a positive integer `p`: the largest number of `p`s
      that fit in `x`. */
  function FloorDiv(x: real, p: int): int
    requires p > 0
  {
    x.Floor / p
  }

  lemma FloorDivBounds(x: real, p: int)
    requires p > 0
    ensures FloorDiv(x, p) as real * p as real <= x < (FloorDiv(x, p) as real + 1.0) * p as real
  {
    var f := x.Floor;
    var q := f / p;
    assert q == FloorDiv(x, p);
    assert q * p <= f < (q + 1) * p;
    assert (q * p) as real == q as real * p as real;
    assert ((q + 1) * p) as real == (q as real + 1.0) * p as real;
  }

  /** The fixed line bought by draw `k` once `sum` has been spent, or None
      where the loop breaks: its unit price no longer fits in what is left of
      the budget. */
  function NextLine(maxFixed: real, d: Draws, k: nat, sum: int): (r: Option<Item>)
    requires ValidDraws(d) && k < d.nFixed
    ensures r.Some? ==> CatalogLine(r.value) && 1 <= r.value.quantity <= 3
    ensures r.None? <==> maxFixed - sum as real < Catalog[d.picks[k]].price as real
  {
    var choice := Catalog[d.picks[k]];
    var remaining := maxFixed - sum as real;
    if remaining < choice.price as real then None
    else
      var maxQty := Min(3, FloorDiv(remaining, choice.price));
      QuotientAtLeastOne(remaining, choice.price);
      if maxQty < 1 then None
      else
        var qty := 1 + d.qtyDraws[k] % maxQty;
        QuantityFits(qty, choice.price, remaining);
        assert CatalogLine(Item(choice.name, choice.unit, qty, choice.price)) by {
          assert Item(choice.name, choice.unit, qty, choice.price).name == Catalog[d.picks[k]].name;
        }
        Some(Item(choice.name, choice.unit, qty, choice.price))
  }

  /** A line is only bought when it fits what is left of the budget. */
  lemma NextLineFits(maxFixed: real, d: Draws, k: nat, sum: int)
    requires ValidDraws(d) && k < d.nFixed
    ensures var r := NextLine(maxFixed, d, k, sum);
            r.Some? ==> Amount(r.value) as real <= maxFixed - sum as real
  {
    var choice := Catalog[d.picks[k]];
    var remaining := maxFixed - sum as real;
    if remaining >= choice.price as real {
      QuotientAtLeastOne(remaining, choice.price);
      var maxQty := Min(3, FloorDiv(remaining, choice.price));
      QuantityFits(1 + d.qtyDraws[k] % maxQty, choice.price, remaining);
    }
  }

  lemma QuotientAtLeastOne(remaining: real, price: int)
    requires price > 0 && remaining >= price as real
    ensures FloorDiv(remaining, price) >= 1
  {
    assert remaining / price as real >= 1.0;
  }

  /** The fixed lines from draw `k` on, once `sum` has been spent. */
  function FixedFrom(maxFixed: real, d: Draws, k: nat, sum: int): seq<Item>
    requires ValidDraws(d) && k <= d.nFixed
    decreases d.nFixed - k
  {
    if k == d.nFixed then []
    else
      var next := NextLine(maxFixed, d, k, sum);
      if next.None? then []
      else [next.value] + FixedFrom(maxFixed, d, k + 1, sum + Amount(next.value))
  }

  /** The same lines built the way the loop builds them: `items` bought
      after `k` draws, `sum` spent. */
  function FixedAcc(maxFixed: real, d: Draws, k: nat, items: seq<Item>, sum: int): seq<Item>
    requires ValidDraws(d) && k <= d.nFixed
    decreases d.nFixed - k
  {
    if k == d.nFixed then items
    else
      var next := NextLine(maxFixed, d, k, sum);
      if next.None? then items
      else FixedAcc(maxFixed, d, k + 1, items + [next.value], sum + Amount(next.value))
  }

  lemma AccStep(maxFixed: real, d: Draws, k: nat, items: seq<Item>, sum: int, line: Item)
    requires ValidDraws(d) && k < d.nFixed && NextLine(maxFixed, d, k, sum) == Some(line)
    ensures FixedAcc(maxFixed, d, k, items, sum) == FixedAcc(maxFixed, d, k + 1, items + [line], sum + Amount(line))
  {
  }

  lemma AccStop(maxFixed: real, d: Draws, k: nat, items: seq<Item>, sum: int)
    requires ValidDraws(d) && k <= d.nFixed
    requires k == d.nFixed || NextLine(maxFixed, d, k, sum).None?
    ensures FixedAcc(maxFixed, d, k, items, sum) == items
  {
  }

  lemma {:induction false} FixedAccFrom(maxFixed: real, d: Draws, k: nat, items: seq<Item>, sum: int)
    requires ValidDraws(d) && k <= d.nFixed
    ensures FixedAcc(maxFixed, d, k, items, sum) == items + FixedFrom(maxFixed, d, k, sum)
    decreases d.nFixed - k
  {
    if k < d.nFixed && NextLine(maxFixed, d, k, sum).Some? {
      var line := NextLine(maxFixed, d, k, sum).value;
      var rest := FixedFrom(maxFixed, d, k + 1, sum + Amount(line));
      FixedAccFrom(maxFixed, d, k + 1, items + [line], sum + Amount(line));
      assert (items + [line]) + rest == items + ([line] + rest);
    } else {
      assert items + [] == items;
    }
  }

  function FixedLines(total: int, d: Draws): seq<Item>
    requires ValidDraws(d)
  {
    FixedFrom(MaxFixed(TargetBeforeTax(total), d.reserve), d, 0, 0)
  }

  /** What a line costs before tax: `price * quantity`. */
  function Amount(it: Item): int {
    it.price * it.quantity
  }

  /** The pre-tax sum of the lines. */
  function ItemsTotal(s: seq<Item>): int {
    if s == [] then 0 else ItemsTotal(s[..|s| - 1]) + Amount(s[|s| - 1])
  }

  /** What the last line has to make up. */
  function Gap(total: int, d: Draws): real
    requires ValidDraws(d)
  {
    TargetBeforeTax(total) - ItemsTotal(FixedLines(total, d)) as real
  }

  function LastLine(total: int, d: Draws): Item
    requires ValidDraws(d)
  {
    var choice := Catalog[d.last];
    Item(choice.name, choice.unit, 1, Max(1, RoundHalfEven(Gap(total, d))))
  }

  /** The lines `beverage_invoice_items_for_target` returns for these draws. */
  function BeverageItems(total: int, d: Draws): seq<Item>
    requires ValidDraws(d)
  {
    FixedLines(total, d) + [LastLine(total, d)]
  }

  /** `beverage_invoice_items_for_target(original_final_total)`. */
  method BeverageItemsForTarget(total: int, d: Draws) returns (items: seq<Item>)
    requires ValidDraws(d)
    ensures items == BeverageItems(total, d)
  {
    var target := TargetBeforeTax(total);
    var maxFixed := MaxFixed(target, d.reserve);
    var sum;
    items, sum := BuyFixedLines(maxFixed, d);
    var gap := target - sum as real;
    var lastChoice := Catalog[d.last];
    items := items + [Item(lastChoice.name, lastChoice.unit, 1, Max(1, RoundHalfEven(gap)))];
  }

  /** The loop over the fixed lines: each draw buys its product while the
      unit price fits in what is left of `max_fixed`, and the first that does
      not fit ends the loop. */
  method BuyFixedLines(maxFixed: real, d: Draws) returns (items: seq<Item>, sum: int)
    requires ValidDraws(d)
    ensures items == FixedFrom(maxFixed, d, 0, 0) && sum == ItemsTotal(items)
  {
    items := [];
    sum := 0;
    var k := 0;
    FixedAccFrom(maxFixed, d, 0, [], 0);
    assert [] + FixedFrom(maxFixed, d, 0, 0) == FixedFrom(maxFixed, d, 0, 0);
    while k < d.nFixed
      invariant 0 <= k <= d.nFixed
      invariant sum == ItemsTotal(items)
      invariant FixedAcc(maxFixed, d, k, items, sum) == FixedFrom(maxFixed, d, 0, 0)
    {
      var next := BuyOne(maxFixed, d, k, sum);
      if next.None? {
        AccStop(maxFixed, d, k, items, sum);
        return;
      }
      var line := next.value;
      AccStep(maxFixed, d, k, items, sum, line);
      ItemsTotalSnoc(items, line);
      items := items + [line];
      sum := sum + Amount(line);
      k := k + 1;
    }
    AccStop(maxFixed, d, k, items, sum);
  }

  /** One pass of that loop: the line draw `k` buys, or None where it breaks.
      This is the method form of `NextLine`, which specifies it. */
  method BuyOne(maxFixed: real, d: Draws, k: nat, sum: int) returns (line: Option<Item>)
    requires ValidDraws(d) && k < d.nFixed
    ensures line == NextLine(maxFixed, d, k, sum)
  {
    var choice := Catalog[d.picks[k]];
    var remaining := maxFixed - sum as real;
    if remaining < choice.price as real {
      return None;
    }
    var maxQty := Min(3, FloorDiv(remaining, choice.price));
    if maxQty < 1 {
      return None;
    }
    var qty := 1 + d.qtyDraws[k] % maxQty;
    return Some(Item(choice.name, choice.unit, qty, choice.price));
  }

  /** The invoice `build_beverage_invoice` returns: the synthesized lines and
      no discount, payment discount, final total or service fee. */
  function BeverageInvoice(invoiceId: string, paymentMethod: string, total: int, date: string, d: Draws): Invoice
    requires ValidDraws(d)
  {
    Invoice(invoiceId, date, paymentMethod, 0, 0, BeverageItems(total, d), 0)
  }

  /** `build_beverage_invoice(invoice_id, payment_method, original_final_total, date_str)`;
      a missing date is today's, as `dd/mm/YYYY`. */
  method BuildBeverageInvoice(invoiceId: string, paymentMethod: string, total: int,
                              dateStr: Option<string>, today: Date, d: Draws) returns (inv: Invoice)
    requires ValidDraws(d) && ValidDate(today)
    ensures inv.invoiceId == invoiceId && inv.paymentMethod == paymentMethod
    ensures inv.date == (if dateStr.Some? then dateStr.value else DisplayDate(today))
    ensures inv.discount == 0 && inv.paymentDiscount == 0 && inv.finalTotal == 0
    ensures inv.items == BeverageItems(total, d)
    ensures inv == BeverageInvoice(invoiceId, paymentMethod, total, inv.date, d)
  {
    var date := if dateStr.Some? then dateStr.value else DisplayDate(today);
    var items := BeverageItemsForTarget(total, d);
    inv := Invoice(invoiceId, date, paymentMethod, 0, 0, items, 0);
  }

  // ---------------------------------------------------------------------
  // Shape of the synthesized lines

  /** A line sold at a catalog entry's name, unit and price. */
  predicate CatalogLine(it: Item) {
    exists j :: 0 <= j < |Catalog| && it.name == Catalog[j].name && it.unit == Catalog[j].unit
                                    && it.price == Catalog[j].price
  }

  lemma {:induction false} FixedShape(maxFixed: real, d: Draws, k: nat, sum: int)
    requires ValidDraws(d) && k <= d.nFixed
    ensures var r := FixedFrom(maxFixed, d, k, sum);
            |r| <= d.nFixed - k
            && forall i :: 0 <= i < |r| ==> CatalogLine(r[i]) && 1 <= r[i].quantity <= 3
    decreases d.nFixed - k
  {
    if k < d.nFixed {
      var next := NextLine(maxFixed, d, k, sum);
      if next.Some? {
        var rest := FixedFrom(maxFixed, d, k + 1, sum + Amount(next.value));
        FixedShape(maxFixed, d, k + 1, sum + Amount(next.value));
        var r := [next.value] + rest;
        assert forall i :: 1 <= i < |r| ==> r[i] == rest[i - 1];
      }
    }
  }

  /** The synthesized invoice has one to three lines; all but the last are
      catalog lines bought 1 to 3 at a time; the last one is bought once, at
      a price of at least 1, under a catalog name and unit. */
  lemma ItemsShape(total: int, d: Draws)
    requires ValidDraws(d)
    ensures var r := BeverageItems(total, d);
            1 <= |r| <= 3
            && (forall i :: 0 <= i < |r| - 1 ==> CatalogLine(r[i]) && 1 <= r[i].quantity <= 3)
            && r[|r| - 1].quantity == 1 && r[|r| - 1].price >= 1
            && r[|r| - 1].name == Catalog[d.last].name && r[|r| - 1].unit == Catalog[d.last].unit
  {
    FixedShape(MaxFixed(TargetBeforeTax(total), d.reserve), d, 0, 0);
  }

  // ---------------------------------------------------------------------
  // Budget and gap

  lemma QuantityFits(qty: int, price: int, remaining: real)
    requires price > 0 && 1 <= qty <= FloorDiv(remaining, price)
    ensures (price * qty) as real <= remaining
  {
    var f := FloorDiv(remaining, price);
    FloorDivBounds(remaining, price);
    assert qty as real * price as real <= f as real * price as real;
    assert f as real * price as real <= remaining;
  }

  lemma {:induction false} ItemsTotalCons(x: Item, s: seq<Item>)
    ensures ItemsTotal([x] + s) == Amount(x) + ItemsTotal(s)
    decreases |s|
  {
    if s != [] {
      var t := [x] + s;
      assert t[..|t| - 1] == [x] + s[..|s| - 1];
      ItemsTotalCons(x, s[..|s| - 1]);
    } else {
      assert [x] + s == [x];
      assert ([x])[..0] == [];
    }
  }

  lemma {:induction false} FixedBudget(maxFixed: real, d: Draws, k: nat, sum: int)
    requires ValidDraws(d) && k <= d.nFixed && sum as real <= maxFixed
    ensures sum as real + ItemsTotal(FixedFrom(maxFixed, d, k, sum)) as real <= maxFixed
    decreases d.nFixed - k
  {
    if k < d.nFixed {
      var next := NextLine(maxFixed, d, k, sum);
      if next.Some? {
        var spent := sum + Amount(next.value);
        NextLineFits(maxFixed, d, k, sum);
        FixedBudget(maxFixed, d, k + 1, spent);
        ItemsTotalCons(next.value, FixedFrom(maxFixed, d, k + 1, spent));
      }
    }
  }

  /** A fixed line is only bought when its unit price fits the budget, so the
      budget is at least 25 000 whenever one is. */
  lemma FixedNeedsBudget(total: int, d: Draws)
    requires ValidDraws(d) && FixedLines(total, d) != []
    ensures MaxFixed(TargetBeforeTax(total), d.reserve) >= 25000.0
  {
    assert Catalog[d.picks[0]].price >= 25000;
    assert NextLine(MaxFixed(TargetBeforeTax(total), d.reserve), d, 0, 0).Some?;
  }

  /** The fixed lines never cost more than `max_fixed`. */
  lemma FixedWithinBudget(total: int, d: Draws)
    requires ValidDraws(d)
    ensures FixedLines(total, d) == []
         || ItemsTotal(FixedLines(total, d)) as real <= MaxFixed(TargetBeforeTax(total), d.reserve)
  {
    if FixedLines(total, d) != [] {
      FixedNeedsBudget(total, d);
      FixedBudget(MaxFixed(TargetBeforeTax(total), d.reserve), d, 0, 0);
    }
  }

  /** The last line always has at least `min(reserve, target / 2)` to make
      up when the total is not negative. */
  lemma GapLowerBound(total: int, d: Draws)
    requires ValidDraws(d) && total >= 0
    ensures Gap(total, d) >= MinReal(d.reserve as real, TargetBeforeTax(total) * 0.5)
  {
    FixedWithinBudget(total, d);
  }

  /** Once a fixed line has been bought, the last line still has at least
      25 000 to make up. */
  lemma FixedLeavesLargeGap(total: int, d: Draws)
    requires ValidDraws(d) && FixedLines(total, d) != []
    ensures Gap(total, d) >= 25000.0
  {
    FixedNeedsBudget(total, d);
    FixedWithinBudget(total, d);
  }

  /** Below a pre-tax target of 2 x 25 000 no fixed line is bought. */
  lemma SmallTargetSingleLine(total: int, d: Draws)
    requires ValidDraws(d) && TargetBeforeTax(total) < 50000.0
    ensures |BeverageItems(total, d)| == 1
  {
    if FixedLines(total, d) != [] {
      FixedNeedsBudget(total, d);
    }
  }

  // ---------------------------------------------------------------------
  // How close the total comes

  lemma ItemsTotalSnoc(s: seq<Item>, x: Item)
    ensures ItemsTotal(s + [x]) == ItemsTotal(s) + Amount(x)
  {
    assert (s + [x])[..|s|] == s;
  }

  lemma PreTaxSum(total: int, d: Draws)
    requires ValidDraws(d)
    ensures ItemsTotal(BeverageItems(total, d))
         == ItemsTotal(FixedLines(total, d)) + Max(1, RoundHalfEven(Gap(total, d)))
  {
    ItemsTotalSnoc(FixedLines(total, d), LastLine(total, d));
  }

  /** When the gap is at least 1/2, the pre-tax sum of all lines is within 1/2
      of `original_final_total / 1.10`. */
  lemma PreTaxWithinHalf(total: int, d: Draws)
    requires ValidDraws(d) && Gap(total, d) >= 0.5
    ensures -0.5 <= ItemsTotal(BeverageItems(total, d)) as real - TargetBeforeTax(total) <= 0.5
  {
    PreTaxSum(total, d);
  }

  /** ... and then the sum with 10% tax is within 1/2 of the replaced total. */
  lemma PostTaxWithinHalf(total: int, d: Draws)
    requires ValidDraws(d) && Gap(total, d) >= 0.5
    ensures -0.5 <= ItemsTotal(BeverageItems(total, d)) as real * 1.1 - total as real <= 0.5
  {
    PreTaxWithinHalf(total, d);
    var s := ItemsTotal(BeverageItems(total, d));
    var e := 11 * s - 10 * total;
    assert s as real * 1.1 - total as real == e as real / 10.0;
    assert -5.5 <= e as real <= 5.5;
    assert -5 <= e <= 5;
  }

  lemma RoundOfInteger(n: int)
    ensures RoundHalfEven(n as real) == n
  {
    assert (n as real).Floor == n;
  }

  /** The taxed sum equals the replaced total exactly iff the total is a
      multiple of 11 (for a gap of at least 1/2): `sum * 1.10` is otherwise
      not an integer. */
  lemma ExactOnlyForMultiplesOf11(total: int, d: Draws)
    requires ValidDraws(d) && Gap(total, d) >= 0.5
    ensures ItemsTotal(BeverageItems(total, d)) as real * 1.1 == total as real <==> total % 11 == 0
  {
    PreTaxSum(total, d);
    var s := ItemsTotal(BeverageItems(total, d));
    var f := ItemsTotal(FixedLines(total, d));
    var gap := Gap(total, d);
    TaxedIntegerIsMultiple(s, total);
    if total % 11 == 0 {
      IntegerGap(total, f, gap);
      RoundOfInteger(total / 11 * 10 - f);
    }
  }

  lemma TaxedIntegerIsMultiple(s: int, total: int)
    ensures s as real * 1.1 == total as real ==> total % 11 == 0
  {
    if s as real * 1.1 == total as real {
      assert 11 * s == 10 * total;
      assert total == 11 * (total - s);
    }
  }

  lemma IntegerGap(total: int, f: int, gap: real)
    requires total % 11 == 0 && gap == TargetBeforeTax(total) - f as real
    ensures gap == (total / 11 * 10 - f) as real
    ensures (total / 11 * 10) as real * 1.1 == total as real
  {
    var m := total / 11;
    assert total == 11 * m;
    assert TargetBeforeTax(total) == (10 * m) as real;
  }

  /** The distance of a taxed sum within 1/2 of the total, in tenths: at most
      5 either way, and congruent to the total modulo 11. */
  lemma TaxedOffset(s: int, total: int)
    requires -0.5 <= s as real * 1.1 - total as real <= 0.5
    ensures var e := 11 * s - 10 * total;
      -5 <= e <= 5 && e % 11 == total % 11 && s as real * 1.1 == total as real + e as real / 10.0
      && (e == 5 <==> total % 11 == 5) && (e == -5 <==> total % 11 == 6)
  {
    var e := 11 * s - 10 * total;
    assert s as real * 1.1 - total as real == e as real / 10.0;
    assert e == total + 11 * (s - total);
  }

  /** Rounding a value `e` tenths away from an integer, for `|e| <= 5`. */
  lemma RoundNear(total: int, e: int)
    requires -5 <= e <= 5
    ensures RoundHalfEven(total as real + e as real / 10.0) == total
        <==> (e != 5 && e != -5) || total % 2 == 0
  {
    var r := RoundHalfEven(total as real + e as real / 10.0);
    if e == 5 || e == -5 {
      assert r == total || r == total + e / 5;
    }
  }

  /** `round(sum(items) * 1.10)` gives back the replaced total except at a
      tie, which falls exactly on the totals that leave 5 or 6 modulo 11, and
      there only for an even total. */
  lemma RoundedTotal(total: int, d: Draws)
    requires ValidDraws(d) && Gap(total, d) >= 0.5
    ensures RoundHalfEven(ItemsTotal(BeverageItems(total, d)) as real * 1.1) == total
        <==> (total % 11 != 5 && total % 11 != 6) || total % 2 == 0
  {
    PostTaxWithinHalf(total, d);
    TaxedRounding(ItemsTotal(BeverageItems(total, d)), total);
  }

  /** A pre-tax sum whose taxed value is within half of `total` rounds to it
      unless it is a tie and `total` is odd. */
  lemma TaxedRounding(s: int, total: int)
    requires -0.5 <= s as real * 1.1 - total as real <= 0.5
    ensures RoundHalfEven(s as real * 1.1) == total
        <==> (total % 11 != 5 && total % 11 != 6) || total % 2 == 0
  {
    TaxedOffset(s, total);
    RoundNear(total, 11 * s - 10 * total);
  }

  /** Away from a tie, that is unless `11 * s - 10 * total` is 5 or -5, the
      rounded taxed sum is the total. */
  lemma NonTieRoundsBack(s: int, total: int)
    requires -0.5 <= s as real * 1.1 - total as real <= 0.5
    requires 11 * s - 10 * total != 5 && 11 * s - 10 * total != -5
    ensures RoundHalfEven(s as real * 1.1) == total
  {
    TaxedOffset(s, total);
    RoundNear(total, 11 * s - 10 * total);
  }

  /** A total of 50 001 is such a tie: whatever is drawn, the lines add up to
      45 455, which taxed is 50 000.5, and that rounds to 50 000. */
  lemma TieAtFiftyThousandAndOne(d: Draws)
    requires ValidDraws(d)
    ensures ItemsTotal(BeverageItems(50001, d)) == 45455
    ensures ItemsTotal(BeverageItems(50001, d)) as real * 1.1 == 50000.5
    ensures RoundHalfEven(ItemsTotal(BeverageItems(50001, d)) as real * 1.1) == 50000
  {
    GapLowerBound(50001, d);
    PreTaxWithinHalf(50001, d);
    assert TargetBeforeTax(50001) == 500010.0 / 11.0;
  }

  /** Every quantity `randint(1, max_qty)` can return has a draw that yields it. */
  lemma QuantityReachable(maxQty: int, qty: int)
    requires 1 <= qty <= maxQty
    ensures exists u: nat :: 1 + u % maxQty == qty
  {
    var u: nat := qty - 1;
    assert 1 + u % maxQty == qty;
  }
}
