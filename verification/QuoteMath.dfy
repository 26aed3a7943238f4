/**
 * On-site quotation arithmetic: banker's rounding, clamped line totals, the
 * wire form of the lines, validation, and building a quote line by line.
 * Amounts are exact: quantities, prices and rates are rationals, totals are
 * integers in minor units.
 */
module QuoteMath {
  import opened Basics
  import opened Text

  datatype QuoteLineKind = CATALOG | PART | LABOUR | VISIT

  datatype QuoteLine = QuoteLine(
    key: string,
    kind: QuoteLineKind,
    description: string,
    quantity: real,
    unitPriceMinor: real,
    discountMinor: real,
    taxRateBps: real,
    refId: Option<string>,
    maxQuantity: Option<real>,
    hsnSacCode: Option<string>)

  datatype QuoteLineTotals = QuoteLineTotals(key: string, subtotalMinor: int, taxMinor: int, totalMinor: int)

  datatype QuoteTotals = QuoteTotals(
    lines: seq<QuoteLineTotals>,
    subtotalMinor: int,
    discountMinor: int,
    taxMinor: int,
    totalMinor: int)

  // ---------------------------------------------------------------- rounding

  function RoundHalfEven(value: real): int {
    var floor := value.Floor;
    var diff := value - floor as real;
    if diff < 0.5 then floor
    else if diff > 0.5 then floor + 1
    else if floor % 2 == 0 then floor else floor + 1
  }

  /** `Math.round`: halves go up. */
  function Round(value: real): int {
    (value + 0.5).Floor
  }

  function Max0(n: int): int {
    if n < 0 then 0 else n
  }

  function Distance(n: int, value: real): real {
    if n as real < value then value - n as real else n as real - value
  }

  /** `n` is a nearest integer, and even when two are equally near. */
  predicate NearestEven(n: int, value: real) {
    Distance(n, value) <= 0.5 && (Distance(n, value) == 0.5 ==> n % 2 == 0)
  }

  /** The rounding is to the nearest integer with ties to even, and nothing else is. */
  lemma RoundHalfEvenIff(n: int, value: real)
    ensures n == RoundHalfEven(value) <==> NearestEven(n, value)
  {
    var f := value.Floor;
    if NearestEven(n, value) {
      assert f - 1 < n as real as int < f + 2;
      assert n == f || n == f + 1;
    }
  }

  lemma RoundHalfEvenMonotone(a: real, b: real)
    requires a <= b
    ensures RoundHalfEven(a) <= RoundHalfEven(b)
  {
    assert a.Floor <= b.Floor;
  }

  /** `bps` basis points of a base, before rounding. */
  function Share(baseMinor: int, bps: real): real {
    baseMinor as real * bps / 10000.0
  }

  function ApplyBps(baseMinor: int, bps: real): int {
    if bps <= 0.0 then 0 else RoundHalfEven(Share(baseMinor, bps))
  }

  lemma ShareMonotone(a: int, b: int, bps: real)
    requires a <= b && bps >= 0.0
    ensures Share(a, bps) <= Share(b, bps)
  {
    var d := (b - a) as real;
    assert b as real == a as real + d;
    assert d * bps >= 0.0;
    assert b as real * bps == a as real * bps + d * bps;
  }

  lemma ApplyBpsMonotone(a: int, b: int, bps: real)
    requires a <= b
    ensures ApplyBps(a, bps) <= ApplyBps(b, bps)
  {
    hide Share;
    if bps > 0.0 {
      ShareMonotone(a, b, bps);
      RoundHalfEvenMonotone(Share(a, bps), Share(b, bps));
    }
  }

  lemma ApplyBpsNonNegative(base: int, bps: real)
    requires base >= 0
    ensures ApplyBps(base, bps) >= 0
  {
    hide RoundHalfEven;
    ApplyBpsMonotone(0, base, bps);
    NothingOfNothing(bps);
  }

  lemma NothingOfNothing(bps: real)
    ensures Share(0, bps) == 0.0 && RoundHalfEven(0.0) == 0
  {
  }

  // ---------------------------------------------------------------- totals

  function Quantity(l: QuoteLine): int {
    Max0(l.quantity.Floor)
  }

  function Price(l: QuoteLine): int {
    Max0(Round(l.unitPriceMinor))
  }

  function Discount(l: QuoteLine): int {
    Max0(Round(l.discountMinor))
  }

  function Gross(l: QuoteLine): int {
    Quantity(l) * Price(l)
  }

  function Subtotal(l: QuoteLine): int {
    Max0(Gross(l) - Discount(l))
  }

  function Tax(l: QuoteLine, gst: bool): int {
    if gst then ApplyBps(Subtotal(l), l.taxRateBps) else 0
  }

  function LineTotals(l: QuoteLine, gst: bool): QuoteLineTotals {
    QuoteLineTotals(l.key, Subtotal(l), Tax(l, gst), Subtotal(l) + Tax(l, gst))
  }

  /** `xs.reduce((s, x) => s + f(x), 0)` */
  function SumBy<T>(xs: seq<T>, f: T -> int): int {
    if xs == [] then 0 else SumBy(xs[..|xs| - 1], f) + f(xs[|xs| - 1])
  }

  function ComputeQuoteTotals(lines: seq<QuoteLine>, gst: bool): QuoteTotals {
    var out := seq(|lines|, i requires 0 <= i < |lines| => LineTotals(lines[i], gst));
    QuoteTotals(
      out,
      SumBy(out, (l: QuoteLineTotals) => l.subtotalMinor),
      SumBy(lines, (l: QuoteLine) => if Gross(l) < Discount(l) then Gross(l) else Discount(l)),
      SumBy(out, (l: QuoteLineTotals) => l.taxMinor),
      SumBy(out, (l: QuoteLineTotals) => l.totalMinor))
  }

  /** How the totals grow by one line. */
  lemma TotalsSnoc(lines: seq<QuoteLine>, l: QuoteLine, gst: bool)
    ensures var t, u := ComputeQuoteTotals(lines, gst), ComputeQuoteTotals(lines + [l], gst);
            && u.lines == t.lines + [LineTotals(l, gst)]
            && u.subtotalMinor == t.subtotalMinor + Subtotal(l)
            && u.discountMinor == t.discountMinor + (if Gross(l) < Discount(l) then Gross(l) else Discount(l))
            && u.taxMinor == t.taxMinor + Tax(l, gst)
            && u.totalMinor == t.totalMinor + Subtotal(l) + Tax(l, gst)
  {
    hide LineTotals;
    var out := ComputeQuoteTotals(lines, gst).lines;
    var all := ComputeQuoteTotals(lines + [l], gst).lines;
    assert all == out + [LineTotals(l, gst)];
    assert all[..|out|] == out && (lines + [l])[..|lines|] == lines;
    LineTotalsAre(l, gst);
  }

  lemma LineTotalsAre(l: QuoteLine, gst: bool)
    ensures LineTotals(l, gst) == QuoteLineTotals(l.key, Subtotal(l), Tax(l, gst), Subtotal(l) + Tax(l, gst))
  {
  }

  lemma LineBounds(l: QuoteLine, gst: bool)
    ensures Gross(l) >= 0 && Subtotal(l) >= 0 && Tax(l, gst) >= 0
    ensures Subtotal(l) + (if Gross(l) < Discount(l) then Gross(l) else Discount(l)) == Gross(l)
  {
    NonNegativeProduct(Quantity(l), Price(l));
    ApplyBpsNonNegative(Subtotal(l), l.taxRateBps);
  }

  lemma NonNegativeProduct(a: int, b: int)
    requires a >= 0 && b >= 0
    ensures a * b >= 0
  {
  }

  /**
   * Money is conserved, whatever the lines: subtotal and discount make up the
   * clamped gross values, the total is subtotal plus tax, nothing is negative.
   */
  lemma {:induction false} QuoteConservation(lines: seq<QuoteLine>, gst: bool)
    ensures var t := ComputeQuoteTotals(lines, gst);
            && t.subtotalMinor + t.discountMinor == SumBy(lines, (l: QuoteLine) => Gross(l))
            && t.totalMinor == t.subtotalMinor + t.taxMinor
            && t.subtotalMinor >= 0 && t.discountMinor >= 0 && t.taxMinor >= 0
            && (!gst ==> t.taxMinor == 0)
  {
    hide Gross;
    hide Discount;
    hide Subtotal;
    hide ApplyBps;
    if lines != [] {
      var n := |lines| - 1;
      QuoteConservation(lines[..n], gst);
      assert lines == lines[..n] + [lines[n]];
      DiscountBounds(lines[n]);
      LineBounds(lines[n], gst);
      TotalsSnoc(lines[..n], lines[n], gst);
    }
  }

  lemma DiscountBounds(l: QuoteLine)
    ensures Discount(l) >= 0
  {
  }

  /** The tax before rounding. */
  function ExactLineTax(l: QuoteLine): real {
    Subtotal(l) as real * l.taxRateBps / 10000.0
  }

  function ExactTax(lines: seq<QuoteLine>): real {
    if lines == [] then 0.0
    else ExactTax(lines[..|lines| - 1]) + ExactLineTax(lines[|lines| - 1])
  }

  lemma LineTaxError(l: QuoteLine)
    requires l.taxRateBps >= 0.0
    ensures Distance(Tax(l, true), ExactLineTax(l)) <= 0.5
  {
    hide Subtotal;
    if l.taxRateBps > 0.0 {
      RoundHalfEvenIff(Tax(l, true), ExactLineTax(l));
    } else {
      assert Subtotal(l) as real * 0.0 == 0.0;
    }
  }

  /** A line's tax is nothing without GST or at a rate of nothing, and else the nearest integer to the exact tax, ties to even. */
  lemma LineTaxIs(l: QuoteLine, gst: bool)
    ensures !gst || l.taxRateBps <= 0.0 ==> Tax(l, gst) == 0
    ensures gst && l.taxRateBps > 0.0 ==> NearestEven(Tax(l, gst), Subtotal(l) as real * l.taxRateBps / 10000.0)
  {
    hide Subtotal;
    RoundHalfEvenIff(Tax(l, gst), ExactLineTax(l));
  }

  // What the totals are, in the line's own numbers.

  /** `n` is the whole units of `x`, none if `x` is negative. */
  predicate WholeUnits(n: int, x: real) {
    if x < 0.0 then n == 0 else n as real <= x < n as real + 1.0
  }

  /** `n` is the nearest integer to `x`, halves up, or nothing if `x` is negative. */
  predicate NearestUnits(n: int, x: real) {
    if x < 0.0 then n == 0 else n as real - 0.5 <= x < n as real + 0.5
  }

  /** What a line counts for: whole items, a price and a discount in minor units. */
  datatype Amounts = Amounts(quantity: int, price: int, discount: int)

  predicate CountsFor(a: Amounts, l: QuoteLine) {
    WholeUnits(a.quantity, l.quantity) && NearestUnits(a.price, l.unitPriceMinor) && NearestUnits(a.discount, l.discountMinor)
  }

  /** Value less discount, but never below nothing. */
  function Net(a: Amounts): int {
    if a.discount < a.quantity * a.price then a.quantity * a.price - a.discount else 0
  }

  /** The discount as far as there is value to take it from. */
  function Taken(a: Amounts): int {
    if a.discount < a.quantity * a.price then a.discount else a.quantity * a.price
  }

  lemma UnitsAre(n: int, x: real)
    ensures WholeUnits(n, x) ==> n == Max0(x.Floor)
    ensures NearestUnits(n, x) ==> n == Max0(Round(x))
  {
  }

  /** A line's subtotal and the discount counted, for every line whatever its numbers. */
  lemma LineAmounts(l: QuoteLine, a: Amounts)
    requires CountsFor(a, l)
    ensures Subtotal(l) == Net(a)
    ensures (if Gross(l) < Discount(l) then Gross(l) else Discount(l)) == Taken(a)
  {
    UnitsAre(a.quantity, l.quantity);
    UnitsAre(a.price, l.unitPriceMinor);
    UnitsAre(a.discount, l.discountMinor);
    assert Quantity(l) == a.quantity && Price(l) == a.price && Discount(l) == a.discount;
    NonNegativeProduct(a.quantity, a.price);
  }

  /** Every line counts for something. */
  lemma AmountsExist(l: QuoteLine)
    ensures CountsFor(Amounts(Quantity(l), Price(l), Discount(l)), l)
  {
  }

  /** Subtotal and discount of a whole quote are the sums of what its lines count for. */
  lemma {:induction false} QuoteAmounts(lines: seq<QuoteLine>, amounts: seq<Amounts>, gst: bool)
    requires |amounts| == |lines| && forall i :: 0 <= i < |lines| ==> CountsFor(amounts[i], lines[i])
    ensures var t := ComputeQuoteTotals(lines, gst);
            && t.subtotalMinor == SumBy(amounts, (a: Amounts) => Net(a))
            && t.discountMinor == SumBy(amounts, (a: Amounts) => Taken(a))
            && |t.lines| == |lines|
            && forall i :: 0 <= i < |lines| ==>
                 t.lines[i].key == lines[i].key && t.lines[i].subtotalMinor == Net(amounts[i])
                 && t.lines[i].totalMinor == t.lines[i].subtotalMinor + t.lines[i].taxMinor
  {
    hide Gross;
    hide Discount;
    hide Subtotal;
    hide Tax;
    hide Net;
    hide Taken;
    hide CountsFor;
    hide ComputeQuoteTotals;
    if lines == [] {
      NothingSums(gst);
    } else {
      var n := |lines| - 1;
      assert lines == lines[..n] + [lines[n]];
      QuoteAmounts(lines[..n], amounts[..n], gst);
      LineAmounts(lines[n], amounts[n]);
      TotalsSnoc(lines[..n], lines[n], gst);
      LineTotalsAre(lines[n], gst);
    }
  }

  lemma NothingSums(gst: bool)
    ensures var t := ComputeQuoteTotals([], gst);
            t.subtotalMinor == 0 && t.discountMinor == 0 && t.lines == []
  {
  }

  /** Rounding line by line is off by at most half a minor unit per line. */
  lemma {:induction false} AggregateTaxError(lines: seq<QuoteLine>)
    requires forall l :: l in lines ==> l.taxRateBps >= 0.0
    ensures Distance(ComputeQuoteTotals(lines, true).taxMinor, ExactTax(lines)) <= |lines| as real * 0.5
  {
    hide Tax;
    hide Subtotal;
    hide ComputeQuoteTotals;
    hide Distance;
    hide ExactLineTax;
    if lines == [] {
      NothingToTax();
    } else {
      var n := |lines| - 1;
      var init, l := lines[..n], lines[n];
      assert lines == init + [l];
      AggregateTaxError(init);
      TotalsSnoc(init, l, true);
      LineTaxError(l);
      DistanceAdds(ComputeQuoteTotals(init, true).taxMinor, ExactTax(init), Tax(l, true), ExactLineTax(l));
      assert |lines| as real == n as real + 1.0;
    }
  }

  lemma NothingToTax()
    ensures Distance(ComputeQuoteTotals([], true).taxMinor, ExactTax([])) == 0.0
  {
  }

  lemma DistanceAdds(m: int, x: real, n: int, y: real)
    ensures Distance(m + n, x + y) <= Distance(m, x) + Distance(n, y)
  {
  }

  // ---------------------------------------------------------------- the wire form

  datatype QuotationLineItem = QuotationLineItem(
    description: string,
    quantity: real,
    unitPriceMinor: real,
    discountMinor: Option<real>,
    taxRateBps: Option<real>,
    hsnSacCode: Option<string>)

  function KindPrefix(kind: QuoteLineKind): string {
    match kind
    case CATALOG => ""
    case PART => "Part: "
    case LABOUR => "Labour: "
    case VISIT => ""
  }

  function WireDescription(l: QuoteLine): string {
    var base := Trim(l.description);
    var full := if KindPrefix(l.kind) <= base then base else KindPrefix(l.kind) + base;
    if |full| > 255 then full[..255] else full
  }

  function ToLineItem(l: QuoteLine): QuotationLineItem {
    QuotationLineItem(
      WireDescription(l),
      l.quantity,
      l.unitPriceMinor,
      if l.discountMinor > 0.0 then Some(l.discountMinor) else None,
      if l.taxRateBps > 0.0 then Some(l.taxRateBps) else None,
      if l.hsnSacCode.Some? && l.hsnSacCode.value != "" then l.hsnSacCode else None)
  }

  function ToQuotationLineItems(lines: seq<QuoteLine>): seq<QuotationLineItem> {
    seq(|lines|, i requires 0 <= i < |lines| => ToLineItem(lines[i]))
  }

  /** An item read back as a line: what is absent counts as nothing. */
  function FromLineItem(item: QuotationLineItem): QuoteLine {
    QuoteLine("", CATALOG, item.description, item.quantity, item.unitPriceMinor,
              item.discountMinor.GetOr(0.0), item.taxRateBps.GetOr(0.0), None, None, item.hsnSacCode)
  }

  function ReadBack(lines: seq<QuoteLine>): seq<QuoteLine> {
    var items := ToQuotationLineItems(lines);
    seq(|items|, i requires 0 <= i < |items| => FromLineItem(items[i]))
  }

  lemma ReadBackLine(l: QuoteLine, gst: bool)
    ensures var r := FromLineItem(ToLineItem(l));
            Gross(r) == Gross(l) && Discount(r) == Discount(l) && Subtotal(r) == Subtotal(l) && Tax(r, gst) == Tax(l, gst)
  {
    var r := FromLineItem(ToLineItem(l));
    assert Quantity(r) == Quantity(l) && Price(r) == Price(l);
    if l.discountMinor <= 0.0 {
      assert Round(l.discountMinor) <= 0;
    }
  }

  /** The items sent to the server total to what the technician showed the customer, whatever the lines. */
  lemma {:induction false} WireKeepsTotals(lines: seq<QuoteLine>, gst: bool)
    ensures var t, u := ComputeQuoteTotals(lines, gst), ComputeQuoteTotals(ReadBack(lines), gst);
            && u.subtotalMinor == t.subtotalMinor && u.discountMinor == t.discountMinor
            && u.taxMinor == t.taxMinor && u.totalMinor == t.totalMinor
  {
    hide Gross;
    hide Discount;
    hide Subtotal;
    hide Tax;
    hide ToLineItem;
    hide FromLineItem;
    hide ComputeQuoteTotals;
    if lines == [] {
      assert ReadBack(lines) == lines;
    } else {
      var n := |lines| - 1;
      var init, l := lines[..n], lines[n];
      assert lines == init + [l];
      assert ReadBack(lines) == ReadBack(init) + [FromLineItem(ToLineItem(l))];
      WireKeepsTotals(init, gst);
      ReadBackLine(l, gst);
      TotalsSnoc(init, l, gst);
      TotalsSnoc(ReadBack(init), FromLineItem(ToLineItem(l)), gst);
    }
  }

  /**
   * The description sent is the trimmed one, with "Part: " or "Labour: " put
   * before it on lines of that kind that do not start with it already; it is
   * whole up to 255 characters and cut at exactly 255 beyond.
   */
  lemma WireDescriptionShape(l: QuoteLine)
    ensures var d, base := WireDescription(l), Trim(l.description);
            var prefix := if l.kind == PART then "Part: " else if l.kind == LABOUR then "Labour: " else "";
            && prefix <= d
            && (prefix <= base ==> d <= base && |d| == Min(|base|, 255))
            && (!(prefix <= base) ==> d[|prefix|..] <= base && |d| == Min(|prefix| + |base|, 255))
  {
  }

  /** The other fields of an item: as on the line, with nothing said of a discount, a rate or a code that is not there. */
  lemma WireFields(l: QuoteLine)
    ensures var item := ToLineItem(l);
            && item.quantity == l.quantity && item.unitPriceMinor == l.unitPriceMinor
            && (item.discountMinor.Some? <==> l.discountMinor > 0.0)
            && (item.discountMinor.Some? ==> item.discountMinor == Some(l.discountMinor))
            && (item.taxRateBps.Some? <==> l.taxRateBps > 0.0)
            && (item.taxRateBps.Some? ==> item.taxRateBps == Some(l.taxRateBps))
            && (item.hsnSacCode.Some? <==> l.hsnSacCode.GetOr("") != "")
            && (item.hsnSacCode.Some? ==> item.hsnSacCode == l.hsnSacCode)
  {
  }

  function Min(a: int, b: int): int {
    if a < b then a else b
  }

  // ---------------------------------------------------------------- validation

  datatype Problem =
    | NoLines
    | NeedsDescription
    | BadQuantity(name: string)
    | OverStock(name: string, maxQuantity: real)
    | BadPrice(name: string)
    | DiscountTooLarge(name: string)

  predicate IsInteger(x: real) {
    x == x.Floor as real
  }

  function NameOf(l: QuoteLine): string {
    if Trim(l.description) == "" then "Untitled line" else Trim(l.description)
  }

  function LineValue(l: QuoteLine): real {
    l.quantity * l.unitPriceMinor
  }

  function BasicProblems(l: QuoteLine): seq<Problem> {
    (if Trim(l.description) == "" then [NeedsDescription] else [])
    + (if !IsInteger(l.quantity) || l.quantity < 1.0 then [BadQuantity(NameOf(l))] else [])
  }

  function ValueProblems(l: QuoteLine): seq<Problem> {
    (if !IsInteger(l.unitPriceMinor) || l.unitPriceMinor < 0.0 then [BadPrice(NameOf(l))] else [])
    + (if l.discountMinor > LineValue(l) then [DiscountTooLarge(NameOf(l))] else [])
  }

  function ProblemsOf(l: QuoteLine): seq<Problem> {
    BasicProblems(l)
    + (if l.maxQuantity.Some? && l.quantity > l.maxQuantity.value then [OverStock(NameOf(l), l.maxQuantity.value)] else [])
    + ValueProblems(l)
  }

  function AllProblems(lines: seq<QuoteLine>): seq<Problem> {
    if lines == [] then [] else AllProblems(lines[..|lines| - 1]) + ProblemsOf(lines[|lines| - 1])
  }

  predicate IsAmount(n: int, x: real) {
    n as real == x
  }

  /** Which fault of a line is reported as which problem. */
  ghost predicate Faulty(l: QuoteLine, p: Problem) {
    match p
    case NoLines => false
    case NeedsDescription => Blank(l.description)
    case BadQuantity(name) => Named(l, name) && !(exists n: int :: n >= 1 && IsAmount(n, l.quantity))
    case OverStock(name, max) => Named(l, name) && l.maxQuantity == Some(max) && max < l.quantity
    case BadPrice(name) => Named(l, name) && !(exists n: int :: n >= 0 && IsAmount(n, l.unitPriceMinor))
    case DiscountTooLarge(name) => Named(l, name) && l.quantity * l.unitPriceMinor < l.discountMinor
  }

  /** A line goes by its trimmed description, if it has one. */
  predicate Named(l: QuoteLine, name: string) {
    name == if Blank(l.description) then "Untitled line" else Trim(l.description)
  }

  lemma WholeIff(x: real, least: int)
    ensures IsInteger(x) && x >= least as real <==> exists n: int :: n >= least && IsAmount(n, x)
  {
    if IsInteger(x) && x >= least as real {
      assert x.Floor >= least && IsAmount(x.Floor, x);
    }
  }

  /** Each line is reported for exactly its faults. */
  lemma ProblemsAreFaults(l: QuoteLine, p: Problem)
    ensures p in ProblemsOf(l) <==> Faulty(l, p)
  {
    hide IsInteger;
    hide Trim;
    TrimEmptyIff(l.description);
    WholeIff(l.quantity, 1);
    WholeIff(l.unitPriceMinor, 0);
  }

  /** And in the order of the checks: description, quantity, stock, price, discount. */
  function CheckNumber(p: Problem): nat {
    match p
    case NoLines => 0
    case NeedsDescription => 1
    case BadQuantity(_) => 2
    case OverStock(_, _) => 3
    case BadPrice(_) => 4
    case DiscountTooLarge(_) => 5
  }

  lemma ProblemsInOrder(l: QuoteLine)
    ensures forall i, j :: 0 <= i < j < |ProblemsOf(l)| ==> CheckNumber(ProblemsOf(l)[i]) < CheckNumber(ProblemsOf(l)[j])
  {
    hide IsInteger;
    hide Trim;
    hide LineValue;
    hide NameOf;
  }

  /** `Array.from(new Set(xs))`: first occurrences, in order. */
  function Distinct(xs: seq<Problem>): (r: seq<Problem>)
    ensures forall x :: x in r <==> x in xs
    ensures forall i, j :: 0 <= i < j < |r| ==> r[i] != r[j]
  {
    if xs == [] then []
    else
      var init, last := xs[..|xs| - 1], xs[|xs| - 1];
      assert xs == init + [last];
      var r := Distinct(init);
      if last in r then r else r + [last]
  }

  /** A line that may be sent: none of the faults. */
  ghost predicate SendableLine(l: QuoteLine) {
    && !Blank(l.description)
    && (exists n: int :: n >= 1 && IsAmount(n, l.quantity))
    && (l.maxQuantity.Some? ==> l.quantity <= l.maxQuantity.value)
    && (exists n: int :: n >= 0 && IsAmount(n, l.unitPriceMinor))
    && l.discountMinor <= l.quantity * l.unitPriceMinor
  }

  lemma {:induction false} AllProblemsAreFaults(lines: seq<QuoteLine>)
    ensures forall p :: p in AllProblems(lines) <==> exists l :: l in lines && Faulty(l, p)
    ensures AllProblems(lines) == [] <==> forall l :: l in lines ==> SendableLine(l)
  {
    hide ProblemsOf;
    hide SendableLine;
    hide Faulty;
    if lines != [] {
      var n := |lines| - 1;
      assert lines == lines[..n] + [lines[n]];
      AllProblemsAreFaults(lines[..n]);
      NoProblemsIffSendable(lines[n]);
      forall p ensures p in AllProblems(lines) <==> exists l :: l in lines && Faulty(l, p) {
        ProblemsAreFaults(lines[n], p);
      }
    }
  }

  function FirstAt(xs: seq<Problem>, x: Problem): (i: nat)
    ensures i <= |xs|
    ensures i < |xs| ==> xs[i] == x
    ensures forall j :: 0 <= j < i ==> xs[j] != x
  {
    var p := (y: Problem) => y == x;
    assert forall j :: 0 <= j < FirstIndex(xs, p) ==> !p(xs[j]);
    FirstIndex(xs, p)
  }

  lemma FirstAtSnoc(xs: seq<Problem>, last: Problem, x: Problem)
    ensures FirstAt(xs, x) == |xs| <==> x !in xs
    ensures x in xs ==> FirstAt(xs + [last], x) == FirstAt(xs, x) < |xs|
    ensures x !in xs && x == last ==> FirstAt(xs + [last], x) == |xs|
  {
    hide FirstAt;
    var i, j, all := FirstAt(xs, x), FirstAt(xs + [last], x), xs + [last];
    assert all[|xs|] == last;
    forall k | 0 <= k < |xs| ensures all[k] == xs[k] {
    }
    if x in xs {
      var k :| 0 <= k < |xs| && xs[k] == x;
      assert i <= k && j <= k;
      assert all[j] == x && all[i] == x;
    }
  }

  /** What is kept of each problem is its first occurrence: the order is that of the first occurrences. */
  lemma {:induction false} DistinctKeepsOrder(xs: seq<Problem>)
    ensures forall i, j :: 0 <= i < j < |Distinct(xs)| ==> FirstAt(xs, Distinct(xs)[i]) < FirstAt(xs, Distinct(xs)[j])
  {
    hide FirstAt;
    if xs != [] {
      var init, last := xs[..|xs| - 1], xs[|xs| - 1];
      assert xs == init + [last];
      DistinctKeepsOrder(init);
      var r := Distinct(init);
      forall x ensures FirstAt(init, x) == |init| <==> x !in init
        ensures x in init ==> FirstAt(xs, x) == FirstAt(init, x) < |init|
        ensures x !in init && x == last ==> FirstAt(xs, x) == |init|
      {
        FirstAtSnoc(init, last, x);
      }
      forall i | 0 <= i < |r| ensures r[i] in init {
      }
    }
  }

  lemma DistinctEmptyIff(xs: seq<Problem>)
    ensures Distinct(xs) == [] <==> xs == []
  {
    if xs != [] {
      assert xs[0] in Distinct(xs);
    }
  }

  /** All faults of all lines are reported, in order, none twice; an empty answer means the quote can be sent. */
  method ValidateQuoteLines(lines: seq<QuoteLine>) returns (problems: seq<Problem>)
    ensures problems == [] <==> lines != [] && forall l :: l in lines ==> SendableLine(l)
    ensures forall i, j :: 0 <= i < j < |problems| ==> problems[i] != problems[j]
    ensures forall p :: p in problems <==> (p == NoLines && lines == []) || exists l :: l in lines && Faulty(l, p)
    ensures problems == Distinct((if lines == [] then [NoLines] else []) + AllProblems(lines))
  {
    hide ProblemsOf;
    hide SendableLine;
    hide Faulty;
    hide Distinct;
    var errors: seq<Problem> := [];
    if |lines| == 0 {
      errors := errors + [NoLines];
    }
    var i := 0;
    while i < |lines|
      invariant 0 <= i <= |lines|
      invariant errors == (if lines == [] then [NoLines] else []) + AllProblems(lines[..i])
    {
      var found := CheckLine(lines[i]);
      assert lines[..i + 1][..i] == lines[..i];
      errors := errors + found;
      i := i + 1;
    }
    assert lines[..i] == lines;
    problems := Distinct(errors);
    DistinctEmptyIff(errors);
    AllProblemsAreFaults(lines);
  }

  lemma NameIs(l: QuoteLine)
    ensures NameOf(l) == if Trim(l.description) == "" then "Untitled line" else Trim(l.description)
  {
  }

  /** The loop body: one line's problems, in the order they are checked. */
  method CheckLine(l: QuoteLine) returns (errors: seq<Problem>)
    ensures errors == ProblemsOf(l)
  {
    hide LineValue;
    hide IsInteger;
    hide Text.Trim;
    hide NameOf;
    NameIs(l);
    errors := [];
    var name := if Trim(l.description) == "" then "Untitled line" else Trim(l.description);
    if Trim(l.description) == "" {
      errors := [NeedsDescription];
    }
    if !IsInteger(l.quantity) || l.quantity < 1.0 {
      errors := errors + [BadQuantity(name)];
    }
    assert errors == BasicProblems(l);
    if l.maxQuantity.Some? && l.quantity > l.maxQuantity.value {
      errors := errors + [OverStock(name, l.maxQuantity.value)];
    }
    ghost var before := errors;
    if !IsInteger(l.unitPriceMinor) || l.unitPriceMinor < 0.0 {
      errors := errors + [BadPrice(name)];
    }
    if l.discountMinor > LineValue(l) {
      errors := errors + [DiscountTooLarge(name)];
    }
    assert errors == before + ValueProblems(l);
  }

  lemma NoProblemsIffSendable(l: QuoteLine)
    ensures ProblemsOf(l) == [] <==> SendableLine(l)
  {
    hide IsInteger;
    hide Trim;
    TrimEmptyIff(l.description);
    WholeIff(l.quantity, 1);
    WholeIff(l.unitPriceMinor, 0);
  }

  /** On a line that may be sent no clamp but the one on a negative discount acts. */
  lemma SendableNeedsNoClamp(l: QuoteLine)
    requires SendableLine(l)
    ensures Quantity(l) as real == l.quantity && Price(l) as real == l.unitPriceMinor
    ensures Discount(l) <= Gross(l) && Subtotal(l) == Gross(l) - Discount(l)
  {
    hide LineValue;
    WholeIff(l.quantity, 1);
    WholeIff(l.unitPriceMinor, 0);
    assert LineValue(l) == l.quantity * l.unitPriceMinor by { LineValueIs(l); }
    IntegerClamps(l);
    LineValueIsGross(l);
    RoundBelow(l.discountMinor, Gross(l));
    LineBounds(l, true);
  }

  lemma LineValueIs(l: QuoteLine)
    ensures LineValue(l) == l.quantity * l.unitPriceMinor
  {
  }

  /** On a line that may be sent with a whole discount the subtotal is the plain arithmetic. */
  lemma SendableSubtotal(l: QuoteLine, d: nat)
    requires SendableLine(l) && l.discountMinor == d as real
    ensures Subtotal(l) as real == l.quantity * l.unitPriceMinor - l.discountMinor
  {
    hide SendableLine;
    hide Quantity;
    hide Price;
    hide Subtotal;
    SendableNeedsNoClamp(l);
    RoundInteger(d);
    ProductOfIntegers(Quantity(l), Price(l));
  }

  function PlainNet(lines: seq<QuoteLine>): real {
    if lines == [] then 0.0
    else
      var l := lines[|lines| - 1];
      PlainNet(lines[..|lines| - 1]) + (l.quantity * l.unitPriceMinor - l.discountMinor)
  }

  function PlainDiscount(lines: seq<QuoteLine>): real {
    if lines == [] then 0.0 else PlainDiscount(lines[..|lines| - 1]) + lines[|lines| - 1].discountMinor
  }

  /** So is the subtotal of a quote that may be sent, and all of its discounts count. */
  lemma {:induction false} SendableQuoteTotals(lines: seq<QuoteLine>, gst: bool)
    requires forall l :: l in lines ==> SendableLine(l) && exists d: nat :: IsAmount(d, l.discountMinor)
    ensures var t := ComputeQuoteTotals(lines, gst);
            t.subtotalMinor as real == PlainNet(lines) && t.discountMinor as real == PlainDiscount(lines)
  {
    hide SendableLine;
    hide Subtotal;
    hide Discount;
    hide Gross;
    hide Tax;
    hide ComputeQuoteTotals;
    if lines == [] {
      NothingSums(gst);
    } else {
      var n := |lines| - 1;
      var l := lines[n];
      assert lines == lines[..n] + [l];
      SendableQuoteTotals(lines[..n], gst);
      var d: nat :| IsAmount(d, l.discountMinor);
      SendableLineAmounts(l, d);
      TotalsSnoc(lines[..n], l, gst);
    }
  }

  lemma SendableLineAmounts(l: QuoteLine, d: nat)
    requires SendableLine(l) && l.discountMinor == d as real
    ensures Subtotal(l) as real == l.quantity * l.unitPriceMinor - l.discountMinor
    ensures (if Gross(l) < Discount(l) then Gross(l) else Discount(l)) as real == l.discountMinor
  {
    hide SendableLine;
    hide Subtotal;
    hide Gross;
    SendableSubtotal(l, d);
    SendableNeedsNoClamp(l);
    RoundInteger(d);
  }

  lemma IntegerClamps(l: QuoteLine)
    requires IsInteger(l.quantity) && l.quantity >= 1.0 && IsInteger(l.unitPriceMinor) && l.unitPriceMinor >= 0.0
    ensures Quantity(l) as real == l.quantity && Price(l) as real == l.unitPriceMinor
  {
    RoundInteger(l.unitPriceMinor.Floor);
    WholeClamp(l.quantity);
    WholeClamp(l.unitPriceMinor);
  }

  lemma RoundInteger(n: int)
    ensures Round(n as real) == n
  {
  }

  lemma WholeClamp(x: real)
    requires IsInteger(x) && x >= 0.0
    ensures Max0(x.Floor) as real == x
  {
  }

  lemma LineValueIsGross(l: QuoteLine)
    requires Quantity(l) as real == l.quantity && Price(l) as real == l.unitPriceMinor
    ensures LineValue(l) == Gross(l) as real
  {
    hide Quantity;
    hide Price;
    ProductOfIntegers(Quantity(l), Price(l));
  }

  lemma RoundBelow(x: real, n: int)
    requires x <= n as real
    ensures Round(x) <= n
  {
  }

  lemma ProductOfIntegers(a: int, b: int)
    ensures a as real * b as real == (a * b) as real
  {
  }

  // ---------------------------------------------------------------- building a quote

  predicate Mergeable(l: QuoteLine) {
    l.refId.Some? && l.refId.value != "" && (l.kind.CATALOG? || l.kind.PART?)
  }

  predicate SameItem(l: QuoteLine, next: QuoteLine) {
    l.kind == next.kind && l.refId == next.refId
  }

  function Bumped(l: QuoteLine, more: real): QuoteLine {
    var quantity := l.quantity + more;
    l.(quantity := if l.maxQuantity.Some? && l.maxQuantity.value < quantity then l.maxQuantity.value else quantity)
  }

  function UpsertQuoteLine(lines: seq<QuoteLine>, next: QuoteLine): seq<QuoteLine> {
    var idx := FirstIndex(lines, (l: QuoteLine) => SameItem(l, next));
    if Mergeable(next) && idx < |lines| then lines[idx := Bumped(lines[idx], next.quantity)] else lines + [next]
  }

  /** `m` is `l` with `more` added to its quantity, or filled up to its stock. */
  predicate GrownLine(l: QuoteLine, m: QuoteLine, more: real) {
    && m == l.(quantity := m.quantity)
    && (l.maxQuantity.None? ==> m.quantity == l.quantity + more)
    && (l.maxQuantity.Some? ==> m.quantity <= l.maxQuantity.value && m.quantity <= l.quantity + more)
    && (l.maxQuantity.Some? ==> m.quantity == l.quantity + more || m.quantity == l.maxQuantity.value)
  }

  /** The first line of the item. */
  ghost predicate FirstOfItem(lines: seq<QuoteLine>, i: nat, next: QuoteLine)
    requires i < |lines|
  {
    && lines[i].kind == next.kind && lines[i].refId == next.refId
    && forall j :: 0 <= j < i ==> lines[j].kind != next.kind || lines[j].refId != next.refId
  }

  /** The first line of the item of `next` has grown; the others are as they were. */
  ghost predicate OneLineGrown(lines: seq<QuoteLine>, after: seq<QuoteLine>, next: QuoteLine) {
    && |after| == |lines|
    && exists i | 0 <= i < |lines| && FirstOfItem(lines, i, next) && GrownLine(lines[i], after[i], next.quantity) ::
         forall j :: 0 <= j < |lines| && j != i ==> after[j] == lines[j]
  }

  /** Labour, visits and lines without a reference always make a new line; a known item's line grows up to its stock. */
  lemma UpsertEffect(lines: seq<QuoteLine>, next: QuoteLine)
    ensures var after := UpsertQuoteLine(lines, next);
            if next.kind.LABOUR? || next.kind.VISIT? || next.refId.GetOr("") == "" || (forall l :: l in lines ==> l.kind != next.kind || l.refId != next.refId)
            then after == lines + [next]
            else OneLineGrown(lines, after, next)
  {
    var same := (l: QuoteLine) => SameItem(l, next);
    var idx := FirstIndex(lines, same);
    if idx == |lines| {
      assert forall j :: 0 <= j < |lines| ==> !same(lines[j]);
    } else {
      assert SameItem(lines[idx], next) && lines[idx] in lines;
    }
  }

  /** What the add screen hands over: a positive quantity within the line's own stock. */
  predicate Addable(l: QuoteLine) {
    l.quantity > 0.0 && (l.maxQuantity.Some? ==> l.quantity <= l.maxQuantity.value)
  }

  /** One line per catalog item or part, and no line above its stock. */
  ghost predicate WellBuilt(lines: seq<QuoteLine>) {
    && (forall i, j :: 0 <= i < j < |lines| && lines[i].kind in {CATALOG, PART} && lines[i].refId.GetOr("") != ""
                       ==> lines[i].kind != lines[j].kind || lines[i].refId != lines[j].refId)
    && (forall l :: l in lines ==> Addable(l))
  }

  lemma UpsertKeepsWellBuilt(lines: seq<QuoteLine>, next: QuoteLine)
    requires WellBuilt(lines) && Addable(next)
    ensures WellBuilt(UpsertQuoteLine(lines, next))
  {
    var same := (l: QuoteLine) => SameItem(l, next);
    var idx := FirstIndex(lines, same);
    assert forall j :: 0 <= j < idx ==> !same(lines[j]);
    var after := UpsertQuoteLine(lines, next);
    if Mergeable(next) && idx < |lines| {
      assert forall i :: 0 <= i < |lines| ==>
          Mergeable(after[i]) == Mergeable(lines[i]) && after[i].kind == lines[i].kind && after[i].refId == lines[i].refId;
      assert lines[idx] in lines;
    }
  }

  lemma QuantityMonotone(l: QuoteLine, m: QuoteLine, gst: bool)
    requires l.quantity <= m.quantity && m == l.(quantity := m.quantity)
    ensures Gross(l) <= Gross(m) && Subtotal(l) <= Subtotal(m) && Tax(l, gst) <= Tax(m, gst)
  {
    assert l.quantity.Floor <= m.quantity.Floor;
    ProductMonotone(Quantity(l), Quantity(m), Price(l));
    ApplyBpsMonotone(Subtotal(l), Subtotal(m), l.taxRateBps);
  }

  lemma ProductMonotone(a: int, b: int, c: int)
    requires a <= b && c >= 0
    ensures a * c <= b * c
  {
  }

  /** The four sums of a quote, ordered componentwise. */
  predicate NoTotalFalls(t: QuoteTotals, u: QuoteTotals) {
    t.subtotalMinor <= u.subtotalMinor && t.taxMinor <= u.taxMinor && t.totalMinor <= u.totalMinor
  }

  lemma {:induction false} ReplacingALine(lines: seq<QuoteLine>, idx: nat, m: QuoteLine, gst: bool)
    requires idx < |lines| && Subtotal(lines[idx]) <= Subtotal(m) && Tax(lines[idx], gst) <= Tax(m, gst)
    ensures NoTotalFalls(ComputeQuoteTotals(lines, gst), ComputeQuoteTotals(lines[idx := m], gst))
  {
    hide Subtotal;
    hide Tax;
    hide ComputeQuoteTotals;
    var n := |lines| - 1;
    var init, last := lines[..n], lines[n];
    assert lines == init + [last];
    TotalsSnoc(init, last, gst);
    if idx < n {
      ReplacingALine(init, idx, m, gst);
      assert lines[idx := m] == init[idx := m] + [last];
      TotalsSnoc(init[idx := m], last, gst);
    } else {
      assert lines[idx := m] == init + [m];
      TotalsSnoc(init, m, gst);
    }
  }

  /** Adding to a quote never lowers its subtotal, its tax or its total. */
  lemma UpsertNeverLowersTotals(lines: seq<QuoteLine>, next: QuoteLine, gst: bool)
    requires WellBuilt(lines) && Addable(next)
    ensures NoTotalFalls(ComputeQuoteTotals(lines, gst), ComputeQuoteTotals(UpsertQuoteLine(lines, next), gst))
  {
    hide ComputeQuoteTotals;
    hide Subtotal;
    hide Tax;
    var idx := FirstIndex(lines, (l: QuoteLine) => SameItem(l, next));
    if Mergeable(next) && idx < |lines| {
      assert Addable(lines[idx]) by { assert lines[idx] in lines; }
      QuantityMonotone(lines[idx], Bumped(lines[idx], next.quantity), gst);
      ReplacingALine(lines, idx, Bumped(lines[idx], next.quantity), gst);
    } else {
      TotalsSnoc(lines, next, gst);
      LineBounds(next, gst);
    }
  }

  function BuildQuote(adds: seq<QuoteLine>): seq<QuoteLine> {
    if adds == [] then [] else UpsertQuoteLine(BuildQuote(adds[..|adds| - 1]), adds[|adds| - 1])
  }

  /** A quote built line by line is well built at every step, and its totals only grow. */
  lemma {:induction false} BuildingAQuote(adds: seq<QuoteLine>, gst: bool)
    requires forall l :: l in adds ==> Addable(l)
    ensures WellBuilt(BuildQuote(adds))
    ensures forall i, j :: 0 <= i <= j <= |adds| ==>
              NoTotalFalls(ComputeQuoteTotals(BuildQuote(adds[..i]), gst), ComputeQuoteTotals(BuildQuote(adds[..j]), gst))
  {
    hide ComputeQuoteTotals;
    hide UpsertQuoteLine;
    hide WellBuilt;
    if adds == [] {
      NothingBuilt();
    } else {
      var n := |adds| - 1;
      var before := BuildQuote(adds[..n]);
      assert adds[n] in adds;
      BuildingAQuote(adds[..n], gst);
      UpsertKeepsWellBuilt(before, adds[n]);
      UpsertNeverLowersTotals(before, adds[n], gst);
      assert adds[..|adds|] == adds;
      forall i, j | 0 <= i <= j <= |adds|
        ensures NoTotalFalls(ComputeQuoteTotals(BuildQuote(adds[..i]), gst), ComputeQuoteTotals(BuildQuote(adds[..j]), gst))
      {
        if i <= n {
          assert adds[..n][..i] == adds[..i];
          assert adds[..n][..n] == adds[..n];
          if j <= n {
            assert adds[..n][..j] == adds[..j];
          }
        }
      }
    }
  }

  lemma NothingBuilt()
    ensures WellBuilt(BuildQuote([]))
  {
  }

  /** How much of an item a list of lines holds. */
  function QuantityOf(lines: seq<QuoteLine>, kind: QuoteLineKind, refId: Option<string>): real {
    if lines == [] then 0.0
    else
      var l := lines[|lines| - 1];
      QuantityOf(lines[..|lines| - 1], kind, refId) + if l.kind == kind && l.refId == refId then l.quantity else 0.0
  }

  lemma QuantitySnoc(lines: seq<QuoteLine>, l: QuoteLine, kind: QuoteLineKind, refId: Option<string>)
    ensures QuantityOf(lines + [l], kind, refId)
         == QuantityOf(lines, kind, refId) + if l.kind == kind && l.refId == refId then l.quantity else 0.0
  {
    assert (lines + [l])[..|lines|] == lines;
  }

  lemma {:induction false} QuantityReplaced(lines: seq<QuoteLine>, i: nat, m: QuoteLine, kind: QuoteLineKind, refId: Option<string>)
    requires i < |lines| && m.kind == lines[i].kind && m.refId == lines[i].refId
    ensures QuantityOf(lines[i := m], kind, refId)
         == QuantityOf(lines, kind, refId) + if m.kind == kind && m.refId == refId then m.quantity - lines[i].quantity else 0.0
  {
    var n := |lines| - 1;
    if i < n {
      QuantityReplaced(lines[..n], i, m, kind, refId);
      assert lines[i := m][..n] == lines[..n][i := m];
    } else {
      assert lines[i := m][..n] == lines[..n];
    }
  }

  ghost predicate Unlimited(lines: seq<QuoteLine>) {
    forall l :: l in lines ==> l.maxQuantity == None
  }

  /** Adding adds: as much of the item more, and of no other, unless stock limits it. */
  lemma UpsertAdds(lines: seq<QuoteLine>, next: QuoteLine, kind: QuoteLineKind, refId: Option<string>)
    ensures var more := if next.kind == kind && next.refId == refId then next.quantity else 0.0;
            var before, after := QuantityOf(lines, kind, refId), QuantityOf(UpsertQuoteLine(lines, next), kind, refId);
            after <= before + more && (Unlimited(lines) ==> after == before + more)
  {
    var idx := FirstIndex(lines, (l: QuoteLine) => SameItem(l, next));
    if Mergeable(next) && idx < |lines| {
      QuantityReplaced(lines, idx, Bumped(lines[idx], next.quantity), kind, refId);
      assert lines[idx] in lines;
    } else {
      QuantitySnoc(lines, next, kind, refId);
    }
  }

  lemma UpsertUnlimited(lines: seq<QuoteLine>, next: QuoteLine)
    requires Unlimited(lines) && next.maxQuantity == None
    ensures Unlimited(UpsertQuoteLine(lines, next))
  {
    var idx := FirstIndex(lines, (l: QuoteLine) => SameItem(l, next));
    if Mergeable(next) && idx < |lines| {
      assert lines[idx] in lines;
    }
  }

  /** The quote holds of every item what was added of it, or less where stock limits it. */
  lemma {:induction false} QuoteHoldsWhatWasAdded(adds: seq<QuoteLine>, kind: QuoteLineKind, refId: Option<string>)
    ensures QuantityOf(BuildQuote(adds), kind, refId) <= QuantityOf(adds, kind, refId)
    ensures Unlimited(adds) ==>
              Unlimited(BuildQuote(adds)) && QuantityOf(BuildQuote(adds), kind, refId) == QuantityOf(adds, kind, refId)
  {
    hide UpsertQuoteLine;
    if adds != [] {
      var n := |adds| - 1;
      assert adds == adds[..n] + [adds[n]];
      QuoteHoldsWhatWasAdded(adds[..n], kind, refId);
      UpsertAdds(BuildQuote(adds[..n]), adds[n], kind, refId);
      QuantitySnoc(adds[..n], adds[n], kind, refId);
      if Unlimited(adds) {
        assert Unlimited(adds[..n]) && adds[n] in adds;
        UpsertUnlimited(BuildQuote(adds[..n]), adds[n]);
      }
    }
  }
}
