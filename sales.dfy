/**
 * `compute_total_sales` (ejercicio1/computeSales.py:16-39): match every sale
 * against the catalogue dict, add price * quantity for the matched ones and
 * emit one warning for each sale without a (truthy) match.
 *
 * The warnings that the source prints are returned as a sequence of lines.
 */
module Sales {
  import opened Wrappers
  import opened Catalogue
  import opened Matcher
  import Text

  /** One record of the sales document: its `Product` and its `Quantity`. */
  datatype Sale = Sale(product: string, quantity: real)

  /**
   * The line printed for a sale whose product is not found: the product name
   * stands, quoted, between a fixed 18-character prefix and a fixed
   * 29-character suffix, so it can be read back from the line.
   */
  function Warning(productName: string): (r: string)
    ensures |r| == |productName| + 47
    ensures r[18..18 + |productName|] == productName
  {
    "Warning: Product '" + productName + "' not found in price catalog."
  }

  /**
   * `if matched_product:` -- the sale is counted only when a title matched
   * and that title is truthy, i.e. not the empty string. A first match on
   * the empty title does not fall through to later titles.
   */
  predicate IsCounted(idx: PriceIndex, sale: Sale)
  {
    var m := FirstMatch(sale.product, idx.keys);
    m.Some? && m.value != ""
  }

  /** The dict's price for the title a counted sale matched. */
  function MatchedPrice(idx: PriceIndex, sale: Sale): (r: real)
    requires Valid(idx) && IsCounted(idx, sale)
  {
    idx.prices[FirstMatch(sale.product, idx.keys).value]
  }

  /**
   * `price * quantity`. Kept behind a function so that proofs that only
   * add line totals up treat it as one term.
   */
  function LineTotal(price: real, quantity: real): real {
    price * quantity
  }

  /** What one sale adds to the running total. */
  function Amount(idx: PriceIndex, sale: Sale): (r: real)
    requires Valid(idx)
    ensures IsCounted(idx, sale) ==> r == LineTotal(MatchedPrice(idx, sale), sale.quantity)
    ensures !IsCounted(idx, sale) ==> r == 0.0
  {
    var m := FirstMatch(sale.product, idx.keys);
    if m.Some? && m.value != "" then LineTotal(idx.prices[m.value], sale.quantity) else 0.0
  }

  /**
   * A sale whose first matching key is at position `k` is counted exactly
   * when that key is not `""`, and then adds that key's price times its
   * quantity; otherwise it adds 0.
   */
  lemma ChargeAtFirstMatch(idx: PriceIndex, sale: Sale, k: int)
    requires Valid(idx)
    requires IsFirstMatchAt(sale.product, idx.keys, k)
    ensures IsCounted(idx, sale) <==> idx.keys[k] != ""
    ensures Amount(idx, sale) == if idx.keys[k] == "" then 0.0 else LineTotal(idx.prices[idx.keys[k]], sale.quantity)
  {
    assert FirstMatch(sale.product, idx.keys) == Some(idx.keys[k]);
  }

  /** A sale that matches no key is not counted and adds 0. */
  lemma ChargeWithoutMatch(idx: PriceIndex, sale: Sale)
    requires Valid(idx)
    requires forall j :: 0 <= j < |idx.keys| ==> !Matches(sale.product, idx.keys[j])
    ensures !IsCounted(idx, sale)
    ensures Amount(idx, sale) == 0.0
  {
    assert FirstMatch(sale.product, idx.keys) == None;
  }

  /** The running total after the given sales, in order. */
  function Total(idx: PriceIndex, sales: seq<Sale>): (r: real)
    requires Valid(idx)
    ensures (forall s :: s in sales ==> !IsCounted(idx, s)) ==> r == 0.0
    decreases |sales|
  {
    if sales == [] then 0.0
    else Total(idx, sales[..|sales| - 1]) + Amount(idx, sales[|sales| - 1])
  }

  /** The warnings printed for the given sales, in order. */
  function Warnings(idx: PriceIndex, sales: seq<Sale>): (r: seq<string>)
    ensures |r| <= |sales|
    ensures (forall s :: s in sales ==> IsCounted(idx, s)) ==> r == []
    decreases |sales|
  {
    if sales == [] then []
    else
      var last := sales[|sales| - 1];
      Warnings(idx, sales[..|sales| - 1]) + if IsCounted(idx, last) then [] else [Warning(last.product)]
  }

  /** The sales that are counted, in order. */
  function Counted(idx: PriceIndex, sales: seq<Sale>): (r: seq<Sale>)
    ensures forall s :: s in r ==> s in sales && IsCounted(idx, s)
    ensures forall s :: s in sales && IsCounted(idx, s) ==> s in r
    decreases |sales|
  {
    if sales == [] then []
    else
      var last := sales[|sales| - 1];
      Counted(idx, sales[..|sales| - 1]) + if IsCounted(idx, last) then [last] else []
  }

  /** The sales that are not counted, in order. */
  function Unmatched(idx: PriceIndex, sales: seq<Sale>): (r: seq<Sale>)
    ensures forall s :: s in r ==> s in sales && !IsCounted(idx, s)
    ensures forall s :: s in sales && !IsCounted(idx, s) ==> s in r
    decreases |sales|
  {
    if sales == [] then []
    else
      var last := sales[|sales| - 1];
      Unmatched(idx, sales[..|sales| - 1]) + if IsCounted(idx, last) then [] else [last]
  }

  /** Every sale of the log is in exactly one of the counted and the unmatched sales, as often as in the log. */
  lemma {:induction false} CountedAndUnmatchedPartition(idx: PriceIndex, sales: seq<Sale>)
    ensures multiset(Counted(idx, sales)) + multiset(Unmatched(idx, sales)) == multiset(sales)
    decreases |sales|
  {
    if sales != [] {
      var n := |sales| - 1;
      var x := sales[n];
      CountedAndUnmatchedPartition(idx, sales[..n]);
      assert sales == sales[..n] + [x];
      if IsCounted(idx, x) {
        assert Counted(idx, sales) == Counted(idx, sales[..n]) + [x];
        assert Unmatched(idx, sales) == Unmatched(idx, sales[..n]);
      } else {
        assert Counted(idx, sales) == Counted(idx, sales[..n]);
        assert Unmatched(idx, sales) == Unmatched(idx, sales[..n]) + [x];
      }
    }
  }

  /** Sum of matched price times quantity over sales that are all counted. */
  function SumOfMatched(idx: PriceIndex, counted: seq<Sale>): real
    requires Valid(idx)
    requires forall s :: s in counted ==> IsCounted(idx, s)
    decreases |counted|
  {
    if counted == [] then 0.0
    else
      var last := counted[|counted| - 1];
      SumOfMatched(idx, counted[..|counted| - 1]) + LineTotal(MatchedPrice(idx, last), last.quantity)
  }

  /** Adding one more counted sale adds its line total. */
  lemma SumOfMatchedSnoc(idx: PriceIndex, counted: seq<Sale>, x: Sale)
    requires Valid(idx)
    requires forall s :: s in counted ==> IsCounted(idx, s)
    requires IsCounted(idx, x)
    ensures SumOfMatched(idx, counted + [x]) == SumOfMatched(idx, counted) + LineTotal(MatchedPrice(idx, x), x.quantity)
  {
    assert (counted + [x])[..|counted|] == counted;
  }

  /** The total is the sum, over the counted sales, of matched price times quantity. */
  lemma {:induction false} TotalIsSumOverCounted(idx: PriceIndex, sales: seq<Sale>)
    requires Valid(idx)
    ensures Total(idx, sales) == SumOfMatched(idx, Counted(idx, sales))
    decreases |sales|
  {
    if sales != [] {
      var n := |sales| - 1;
      TotalIsSumOverCounted(idx, sales[..n]);
      var c := Counted(idx, sales[..n]);
      var x := sales[n];
      assert Total(idx, sales) == Total(idx, sales[..n]) + Amount(idx, x);
      if IsCounted(idx, x) {
        assert Counted(idx, sales) == c + [x];
        SumOfMatchedSnoc(idx, c, x);
      } else {
        assert Counted(idx, sales) == c;
      }
    }
  }

  /** One warning per uncounted sale, naming it, in the order of the sales. */
  lemma {:induction false} WarningsNameUnmatched(idx: PriceIndex, sales: seq<Sale>)
    ensures |Warnings(idx, sales)| == |Unmatched(idx, sales)|
    ensures forall i :: 0 <= i < |Warnings(idx, sales)| ==>
              Warnings(idx, sales)[i] == Warning(Unmatched(idx, sales)[i].product)
    decreases |sales|
  {
    if sales != [] {
      WarningsNameUnmatched(idx, sales[..|sales| - 1]);
    }
  }

  /** Every sale is either counted or produces a warning, never both. */
  lemma {:induction false} EverySaleAccountedFor(idx: PriceIndex, sales: seq<Sale>)
    ensures |Warnings(idx, sales)| + |Counted(idx, sales)| == |sales|
    decreases |sales|
  {
    if sales != [] {
      EverySaleAccountedFor(idx, sales[..|sales| - 1]);
    }
  }

  /** The total over two consecutive runs of sales is the sum of their totals. */
  lemma {:induction false} TotalAppend(idx: PriceIndex, a: seq<Sale>, b: seq<Sale>)
    requires Valid(idx)
    ensures Total(idx, a + b) == Total(idx, a) + Total(idx, b)
    decreases |b|
  {
    if b != [] {
      var n := |b| - 1;
      assert (a + b)[..|a + b| - 1] == a + b[..n];
      TotalAppend(idx, a, b[..n]);
    } else {
      assert a + b == a;
    }
  }

  /** The warnings of two consecutive runs of sales are the warnings of each, in order. */
  lemma {:induction false} WarningsAppend(idx: PriceIndex, a: seq<Sale>, b: seq<Sale>)
    ensures Warnings(idx, a + b) == Warnings(idx, a) + Warnings(idx, b)
    decreases |b|
  {
    if b != [] {
      var n := |b| - 1;
      assert (a + b)[..|a + b| - 1] == a + b[..n];
      WarningsAppend(idx, a, b[..n]);
    } else {
      assert a + b == a;
    }
  }

  /**
   * A sale that is not counted, wherever it stands, leaves the total as it
   * is and adds exactly one warning naming its product at its place.
   */
  lemma UnmatchedSaleIsNeutral(idx: PriceIndex, a: seq<Sale>, s: Sale, b: seq<Sale>)
    requires Valid(idx)
    requires !IsCounted(idx, s)
    ensures Total(idx, a + [s] + b) == Total(idx, a + b)
    ensures Warnings(idx, a + [s] + b) == Warnings(idx, a) + [Warning(s.product)] + Warnings(idx, b)
  {
    TotalAppend(idx, a + [s], b);
    TotalAppend(idx, a, [s]);
    TotalAppend(idx, a, b);
    WarningsAppend(idx, a + [s], b);
    WarningsAppend(idx, a, [s]);
    assert [s][..0] == [];
  }

  /** Taking one sale out of the sequence takes exactly its amount out of the total. */
  lemma TotalRemoveAt(idx: PriceIndex, b: seq<Sale>, k: int)
    requires Valid(idx)
    requires 0 <= k < |b|
    ensures Total(idx, b) == Total(idx, b[..k] + b[k + 1..]) + Amount(idx, b[k])
  {
    assert b == b[..k] + [b[k]] + b[k + 1..];
    TotalAppend(idx, b[..k] + [b[k]], b[k + 1..]);
    TotalAppend(idx, b[..k], [b[k]]);
    TotalAppend(idx, b[..k], b[k + 1..]);
    assert [b[k]][..0] == [];
  }

  /** Taking one sale out of the sequence takes exactly its warnings out of the warnings. */
  lemma WarningsRemoveAt(idx: PriceIndex, b: seq<Sale>, k: int)
    requires 0 <= k < |b|
    ensures multiset(Warnings(idx, b)) == multiset(Warnings(idx, b[..k] + b[k + 1..])) + multiset(Warnings(idx, [b[k]]))
  {
    assert b == b[..k] + [b[k]] + b[k + 1..];
    WarningsAppend(idx, b[..k] + [b[k]], b[k + 1..]);
    WarningsAppend(idx, b[..k], [b[k]]);
    WarningsAppend(idx, b[..k], b[k + 1..]);
  }

  /** Upper-casing a sale's product name neither changes whether it is counted nor what it adds. */
  lemma UpperNameChargesAlike(idx: PriceIndex, s: Sale)
    requires Valid(idx)
    ensures IsCounted(idx, Sale(Text.Upper(s.product), s.quantity)) == IsCounted(idx, s)
    ensures Amount(idx, Sale(Text.Upper(s.product), s.quantity)) == Amount(idx, s)
  {
    UpperNameMatchesAlike(s.product, idx.keys);
  }

  /** Re-ordering the sales does not change the total. */
  lemma {:induction false} TotalIsOrderIndependent(idx: PriceIndex, a: seq<Sale>, b: seq<Sale>)
    requires Valid(idx)
    requires multiset(a) == multiset(b)
    ensures Total(idx, a) == Total(idx, b)
    decreases |a|
  {
    if a != [] {
      var n := |a| - 1;
      var x := a[n];
      assert a == a[..n] + [x];
      assert x in multiset(b);
      var k :| 0 <= k < |b| && b[k] == x;
      var rest := b[..k] + b[k + 1..];
      assert b == b[..k] + [x] + b[k + 1..];
      assert multiset(a[..n]) == multiset(a) - multiset{x};
      assert multiset(rest) == multiset(b) - multiset{x};
      TotalIsOrderIndependent(idx, a[..n], rest);
      TotalRemoveAt(idx, b, k);
    }
  }

  /** Re-ordering the sales re-orders the warnings and changes nothing else about them. */
  lemma {:induction false} WarningsArePermuted(idx: PriceIndex, a: seq<Sale>, b: seq<Sale>)
    requires multiset(a) == multiset(b)
    ensures multiset(Warnings(idx, a)) == multiset(Warnings(idx, b))
    decreases |a|
  {
    if a != [] {
      var n := |a| - 1;
      var x := a[n];
      assert a == a[..n] + [x];
      assert x in multiset(b);
      var k :| 0 <= k < |b| && b[k] == x;
      var rest := b[..k] + b[k + 1..];
      assert b == b[..k] + [x] + b[k + 1..];
      assert multiset(a[..n]) == multiset(a) - multiset{x};
      assert multiset(rest) == multiset(b) - multiset{x};
      WarningsArePermuted(idx, a[..n], rest);
      WarningsRemoveAt(idx, b, k);
      WarningsAppend(idx, a[..n], [x]);
    }
  }

  /**
   * `k * x`. Kept behind a function so that products of equal arguments are
   * recognised as equal without any reasoning about multiplication.
   */
  function Times(k: real, x: real): real {
    k * x
  }

  /** Every quantity multiplied by `k`. */
  function Scaled(sales: seq<Sale>, k: real): (r: seq<Sale>)
    ensures |r| == |sales|
    decreases |sales|
  {
    if sales == [] then []
    else
      var last := sales[|sales| - 1];
      Scaled(sales[..|sales| - 1], k) + [Sale(last.product, Times(k, last.quantity))]
  }

  /** Scaling one more sale appends that sale, scaled. */
  lemma ScaledSnoc(prefix: seq<Sale>, last: Sale, k: real)
    ensures Scaled(prefix + [last], k) == Scaled(prefix, k) + [Sale(last.product, Times(k, last.quantity))]
  {
    var sales := prefix + [last];
    assert sales[..|sales| - 1] == prefix;
  }

  /** The total after one more sale is the earlier total plus what that sale adds. */
  lemma TotalSnoc(idx: PriceIndex, prefix: seq<Sale>, last: Sale)
    requires Valid(idx)
    ensures Total(idx, prefix + [last]) == Total(idx, prefix) + Amount(idx, last)
  {
    var sales := prefix + [last];
    assert sales[..|sales| - 1] == prefix;
  }

  /** Scaling one sale's quantity by `k` scales what it adds by `k`. */
  lemma AmountScales(idx: PriceIndex, s: Sale, k: real)
    requires Valid(idx)
    ensures IsCounted(idx, Sale(s.product, Times(k, s.quantity))) == IsCounted(idx, s)
    ensures Amount(idx, Sale(s.product, Times(k, s.quantity))) == Times(k, Amount(idx, s))
  {
    var s' := Sale(s.product, Times(k, s.quantity));
    if IsCounted(idx, s) {
      var price := MatchedPrice(idx, s);
      assert MatchedPrice(idx, s') == price;
      LineTotalScales(price, s.quantity, k);
    }
  }

  /** `price * (k * quantity) == k * (price * quantity)`. */
  lemma LineTotalScales(price: real, quantity: real, k: real)
    ensures LineTotal(price, Times(k, quantity)) == Times(k, LineTotal(price, quantity))
  {
  }

  /** The induction step of scaling, on the totals and amounts as plain numbers. */
  lemma ScaleStep(k: real, before: real, amount: real, total: real, before': real, amount': real, total': real)
    requires before' == Times(k, before) && amount' == Times(k, amount)
    requires total == before + amount && total' == before' + amount'
    ensures total' == Times(k, total)
  {
  }

  /** Scaling every quantity by `k` scales the total by `k`. */
  lemma {:induction false} ScalingQuantitiesScalesTotal(idx: PriceIndex, sales: seq<Sale>, k: real)
    requires Valid(idx)
    ensures Total(idx, Scaled(sales, k)) == Times(k, Total(idx, sales))
    decreases |sales|
  {
    if sales == [] {
      assert Total(idx, Scaled(sales, k)) == 0.0 == Total(idx, sales);
    } else {
      var prefix, last := sales[..|sales| - 1], sales[|sales| - 1];
      assert sales == prefix + [last];
      ScalingQuantitiesScalesTotal(idx, prefix, k);
      ScaledSnoc(prefix, last, k);
      TotalSnoc(idx, prefix, last);
      TotalSnoc(idx, Scaled(prefix, k), Sale(last.product, Times(k, last.quantity)));
      AmountScales(idx, last, k);
      ScaleStep(k, Total(idx, prefix), Amount(idx, last), Total(idx, sales),
                Total(idx, Scaled(prefix, k)), Amount(idx, Sale(last.product, Times(k, last.quantity))),
                Total(idx, Scaled(sales, k)));
    }
  }

  /** Scaling the quantities leaves the warnings alone. */
  lemma {:induction false} ScalingQuantitiesKeepsWarnings(idx: PriceIndex, sales: seq<Sale>, k: real)
    ensures Warnings(idx, Scaled(sales, k)) == Warnings(idx, sales)
    decreases |sales|
  {
    if sales != [] {
      var n := |sales| - 1;
      var scaled := Scaled(sales, k);
      assert scaled[..n] == Scaled(sales[..n], k);
      ScalingQuantitiesKeepsWarnings(idx, sales[..n], k);
      assert !IsCounted(idx, scaled[n]) <==> !IsCounted(idx, sales[n]);
    }
  }

  /** What the loop's step `n` does to the total and the warnings. */
  lemma OneMoreSale(idx: PriceIndex, sales: seq<Sale>, n: int)
    requires Valid(idx)
    requires 0 <= n < |sales|
    ensures var m := FirstMatch(sales[n].product, idx.keys);
            if m.Some? && m.value != "" then
              && Total(idx, sales[..n + 1]) == Total(idx, sales[..n]) + LineTotal(idx.prices[m.value], sales[n].quantity)
              && Warnings(idx, sales[..n + 1]) == Warnings(idx, sales[..n])
            else
              && Total(idx, sales[..n + 1]) == Total(idx, sales[..n])
              && Warnings(idx, sales[..n + 1]) == Warnings(idx, sales[..n]) + [Warning(sales[n].product)]
  {
    assert sales[..n + 1][..n] == sales[..n];
  }

  /**
   * The loop of `compute_total_sales` over the sales: adds price * quantity
   * for each counted sale and appends a warning for each other one.
   */
  method ChargeSales(idx: PriceIndex, sales: seq<Sale>) returns (total: real, warnings: seq<string>)
    requires Valid(idx)
    ensures total == Total(idx, sales)
    ensures warnings == Warnings(idx, sales)
  {
    total := 0.0;
    warnings := [];
    for n := 0 to |sales|
      invariant total == Total(idx, sales[..n])
      invariant warnings == Warnings(idx, sales[..n])
    {
      var sale := sales[n];
      OneMoreSale(idx, sales, n);
      var matched := FirstMatch(sale.product, idx.keys);
      if matched.Some? && matched.value != "" {
        total := total + LineTotal(idx.prices[matched.value], sale.quantity);
      } else {
        warnings := warnings + [Warning(sale.product)];
      }
    }
    assert sales[..|sales|] == sales;
  }

  /**
   * `compute_total_sales(products, sales)`: builds the dict, then walks the
   * sales once.
   */
  method ComputeTotalSales(products: seq<Product>, sales: seq<Sale>) returns (total: real, warnings: seq<string>)
    ensures Valid(Build(products))
    ensures total == Total(Build(products), sales)
    ensures warnings == Warnings(Build(products), sales)
    ensures sales == [] ==> total == 0.0 && warnings == []
    ensures total == SumOfMatched(Build(products), Counted(Build(products), sales))
    ensures |warnings| + |Counted(Build(products), sales)| == |sales|
  {
    var idx := BuildIndex(products);
    total, warnings := ChargeSales(idx, sales);
    TotalIsSumOverCounted(idx, sales);
    EverySaleAccountedFor(idx, sales);
  }
}
