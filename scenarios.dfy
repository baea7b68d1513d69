/**
 * What the model of `compute_total_sales` (ejercicio1/computeSales.py:16-39)
 * gives on small concrete catalogues and sales documents, one behaviour of
 * the source at a time.
 */
module Scenarios {
  import opened Wrappers
  import opened Catalogue
  import opened Sales
  import Text
  import Matcher

  /** The dict built from a one-record catalogue. */
  lemma BuildOne(p: Product)
    ensures Build([p]) == PriceIndex([p.title], map[p.title := p.price])
  {
    assert [p][..0] == [];
  }

  /** The dict built from a two-record catalogue is the first record's dict, then `d[title] = price`. */
  lemma BuildTwo(p: Product, q: Product)
    ensures Build([p, q]) == Put(Build([p]), q.title, q.price)
  {
    assert [p, q][..1] == [p];
  }

  /** A log of one sale totals that sale's amount and warns only if it is not counted. */
  lemma OneSale(idx: PriceIndex, s: Sale)
    requires Valid(idx)
    ensures Total(idx, [s]) == Amount(idx, s)
    ensures Warnings(idx, [s]) == if IsCounted(idx, s) then [] else [Warning(s.product)]
  {
    assert [s][..0] == [];
  }

  /** A product name found in no title adds nothing and is warned about once. */
  lemma UnknownProductIsWarned()
    ensures Total(Build([Product("Bread", 1.5)]), [Sale("Milk", 2.0)]) == 0.0
    ensures Warnings(Build([Product("Bread", 1.5)]), [Sale("Milk", 2.0)]) == [Warning("Milk")]
  {
    var idx := Build([Product("Bread", 1.5)]);
    BuildOne(Product("Bread", 1.5));
    assert Matcher.FirstMatch("Milk", idx.keys) == None by {
      assert !Matcher.Matches("Milk", "Bread");
    }
    OneSale(idx, Sale("Milk", 2.0));
  }

  /** "TEA" occurs, ignoring case, in "Iced Tea". */
  lemma TeaOccursInIcedTea()
    ensures Matcher.Matches("TEA", "Iced Tea")
  {
    assert Text.Lower("TEA") == "tea";
    assert Text.Lower("Iced Tea") == "iced tea";
    assert "iced tea"[5..8] == "tea";
    assert Text.OccursAt("tea", "iced tea", 5);
  }

  /** The sale's name only has to occur, ignoring case, inside the title. */
  lemma PartialNameMatches()
    ensures Total(Build([Product("Iced Tea", 0.5)]), [Sale("TEA", 4.0)]) == 2.0
  {
    var idx := Build([Product("Iced Tea", 0.5)]);
    BuildOne(Product("Iced Tea", 0.5));
    TeaOccursInIcedTea();
    assert Matcher.FirstMatch("TEA", idx.keys) == Some("Iced Tea");
    OneSale(idx, Sale("TEA", 4.0));
  }

  /** When several titles match, the one listed first is charged. */
  lemma FirstListedTitleWins()
    ensures Total(Build([Product("Tea", 1.0), Product("Iced Tea", 2.0)]), [Sale("tea", 3.0)]) == 3.0
  {
    BuildOne(Product("Tea", 1.0));
    BuildTwo(Product("Tea", 1.0), Product("Iced Tea", 2.0));
    var idx := Build([Product("Tea", 1.0), Product("Iced Tea", 2.0)]);
    assert idx.keys == ["Tea", "Iced Tea"] && idx.prices["Tea"] == 1.0;
    assert Matcher.FirstMatch("tea", idx.keys) == Some("Tea") by {
      assert Text.Lower("Tea") == "tea";
      assert Matcher.Matches("tea", "Tea");
    }
    OneSale(idx, Sale("tea", 3.0));
  }

  /** A title listed twice is charged at the price listed last. */
  lemma RepeatedTitleTakesLastPrice()
    ensures Total(Build([Product("Tea", 1.0), Product("Tea", 2.5)]), [Sale("tea", 2.0)]) == 5.0
  {
    BuildOne(Product("Tea", 1.0));
    BuildTwo(Product("Tea", 1.0), Product("Tea", 2.5));
    var idx := Build([Product("Tea", 1.0), Product("Tea", 2.5)]);
    assert idx.keys == ["Tea"] && idx.prices["Tea"] == 2.5;
    assert Matcher.FirstMatch("tea", idx.keys) == Some("Tea") by {
      assert Text.Lower("Tea") == "tea";
      assert Matcher.Matches("tea", "Tea");
    }
    OneSale(idx, Sale("tea", 2.0));
  }

  /** An empty product name matches the first title, whatever it is. */
  lemma EmptyNameBuysFirstTitle()
    ensures Total(Build([Product("Apple", 2.0)]), [Sale("", 3.0)]) == 6.0
  {
    var idx := Build([Product("Apple", 2.0)]);
    BuildOne(Product("Apple", 2.0));
    Matcher.EmptyNameMatchesFirstKey(idx.keys);
    OneSale(idx, Sale("", 3.0));
  }

  /**
   * An empty first title matches an empty product name but is falsy, so the
   * sale is warned about instead of falling through to the next title.
   */
  lemma EmptyTitleIsNotAMatch()
    ensures Total(Build([Product("", 1.0), Product("Apple", 2.0)]), [Sale("", 3.0)]) == 0.0
    ensures Warnings(Build([Product("", 1.0), Product("Apple", 2.0)]), [Sale("", 3.0)]) == [Warning("")]
  {
    BuildOne(Product("", 1.0));
    BuildTwo(Product("", 1.0), Product("Apple", 2.0));
    var idx := Build([Product("", 1.0), Product("Apple", 2.0)]);
    assert idx.keys == ["", "Apple"];
    Matcher.EmptyNameMatchesFirstKey(idx.keys);
    OneSale(idx, Sale("", 3.0));
  }
}
