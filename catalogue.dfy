/**
 * The price catalogue and the title -> price dictionary that
 * `compute_total_sales` builds from it with a dict comprehension
 * (ejercicio1/computeSales.py:19).
 *
 * A Python dict is modelled as the sequence of its keys in insertion order
 * together with a map from key to value: assigning to a key already present
 * keeps the key where it is and replaces its value; assigning to a new key
 * appends it.
 */
module Catalogue {

  /** One record of the catalogue document: its `title` and its `price`. */
  datatype Product = Product(title: string, price: real)

  /** A Python dict from title to price: keys in iteration order, and the values. */
  datatype PriceIndex = PriceIndex(keys: seq<string>, prices: map<string, real>)

  /** No key is listed twice. */
  ghost predicate DistinctKeys(keys: seq<string>) {
    forall i, j :: 0 <= i < j < |keys| ==> keys[i] != keys[j]
  }

  /** The shape every dict has: distinct keys, exactly the keys that have a value. */
  ghost predicate Valid(idx: PriceIndex) {
    && DistinctKeys(idx.keys)
    && (forall t :: t in idx.prices <==> t in idx.keys)
  }

  /** The titles of the catalogue, in document order. */
  function Titles(products: seq<Product>): seq<string> {
    seq(|products|, k requires 0 <= k < |products| => products[k].title)
  }

  /** Position of the first occurrence of `t` in `s`. */
  function FirstPos(s: seq<string>, t: string): (r: nat)
    requires t in s
    ensures r < |s| && s[r] == t
    ensures forall k :: 0 <= k < r ==> s[k] != t
  {
    if s[0] == t then 0 else 1 + FirstPos(s[1..], t)
  }

  /** No later record of the catalogue has the same title as record `k`. */
  ghost predicate IsLastOccurrence(products: seq<Product>, k: int)
    requires 0 <= k < |products|
  {
    forall m :: k < m < |products| ==> products[m].title != products[k].title
  }

  /**
   * What `{p["title"]: p["price"] for p in products}` is, stated without
   * reference to how it is built: a valid dict whose keys are exactly the
   * titles, ordered by each title's first occurrence in the catalogue, and
   * whose value for each title is the price of that title's last occurrence.
   */
  ghost predicate IsDictOf(idx: PriceIndex, products: seq<Product>) {
    && Valid(idx)
    && (forall t :: t in idx.keys <==> t in Titles(products))
    && (forall i, j :: 0 <= i < j < |idx.keys| ==>
          FirstPos(Titles(products), idx.keys[i]) < FirstPos(Titles(products), idx.keys[j]))
    && (forall k :: 0 <= k < |products| && IsLastOccurrence(products, k) ==>
          products[k].title in idx.prices && idx.prices[products[k].title] == products[k].price)
  }

  /** `d[title] = price` on a Python dict. */
  function Put(idx: PriceIndex, title: string, price: real): (r: PriceIndex)
    requires Valid(idx)
    ensures Valid(r)
    ensures title in r.prices && r.prices[title] == price
    ensures forall t :: t != title ==> (t in r.prices <==> t in idx.prices)
    ensures forall t :: t != title && t in idx.prices ==> r.prices[t] == idx.prices[t]
    ensures title in idx.prices ==> r.keys == idx.keys
    ensures title !in idx.prices ==> r.keys == idx.keys + [title]
  {
    PriceIndex(if title in idx.prices then idx.keys else idx.keys + [title], idx.prices[title := price])
  }

  /** The dict comprehension, as a fold over the catalogue in document order. */
  function Build(products: seq<Product>): (r: PriceIndex)
    ensures Valid(r)
    decreases |products|
  {
    if products == [] then PriceIndex([], map[])
    else
      var n := |products| - 1;
      Put(Build(products[..n]), products[n].title, products[n].price)
  }

  /** Appending to a sequence does not move the first occurrence of an element already in it. */
  lemma FirstPosAppend(s: seq<string>, x: string, t: string)
    requires t in s
    ensures FirstPos(s + [x], t) == FirstPos(s, t)
  {
    assert (s + [x])[FirstPos(s, t)] == t;
  }

  lemma TitlesSnoc(products: seq<Product>)
    requires products != []
    ensures Titles(products) == Titles(products[..|products| - 1]) + [products[|products| - 1].title]
  {
  }

  /** The keys of the built dict are exactly the catalogue's titles. */
  lemma {:induction false} BuildKeysAreTitles(products: seq<Product>)
    ensures forall t :: t in Build(products).keys <==> t in Titles(products)
    decreases |products|
  {
    if products != [] {
      var n := |products| - 1;
      BuildKeysAreTitles(products[..n]);
      TitlesSnoc(products);
    }
  }

  /** The keys of the built dict are ordered by each title's first occurrence. */
  lemma {:induction false} BuildKeysInFirstOccurrenceOrder(products: seq<Product>)
    ensures forall t :: t in Build(products).keys ==> t in Titles(products)
    ensures forall i, j :: 0 <= i < j < |Build(products).keys| ==>
              FirstPos(Titles(products), Build(products).keys[i]) < FirstPos(Titles(products), Build(products).keys[j])
    decreases |products|
  {
    BuildKeysAreTitles(products);
    if products != [] {
      var n := |products| - 1;
      var p, x := products[..n], products[n];
      BuildKeysInFirstOccurrenceOrder(p);
      BuildKeysAreTitles(p);
      TitlesSnoc(products);
      var prev, idx := Build(p), Build(products);
      var titles, titles' := Titles(p), Titles(products);
      forall i, j | 0 <= i < j < |idx.keys|
        ensures FirstPos(titles', idx.keys[i]) < FirstPos(titles', idx.keys[j])
      {
        assert idx.keys[i] == prev.keys[i];
        FirstPosAppend(titles, x.title, idx.keys[i]);
        if j < |prev.keys| {
          FirstPosAppend(titles, x.title, idx.keys[j]);
        } else {
          assert idx.keys[j] == x.title && x.title !in titles;
          assert FirstPos(titles', x.title) == |titles|;
        }
      }
    }
  }

  /** Every title is priced by its last occurrence in the catalogue. */
  lemma {:induction false} BuildLastPriceWins(products: seq<Product>)
    ensures forall k :: 0 <= k < |products| && IsLastOccurrence(products, k) ==>
              products[k].title in Build(products).prices &&
              Build(products).prices[products[k].title] == products[k].price
    decreases |products|
  {
    if products != [] {
      var n := |products| - 1;
      var p := products[..n];
      BuildLastPriceWins(p);
      forall k | 0 <= k < |products| && IsLastOccurrence(products, k)
        ensures products[k].title in Build(products).prices
        ensures Build(products).prices[products[k].title] == products[k].price
      {
        if k < n {
          assert products[k] == p[k];
          assert IsLastOccurrence(p, k);
        }
      }
    }
  }

  /** The fold builds exactly the dict the comprehension promises. */
  lemma BuildIsDict(products: seq<Product>)
    ensures IsDictOf(Build(products), products)
  {
    BuildKeysAreTitles(products);
    BuildKeysInFirstOccurrenceOrder(products);
    BuildLastPriceWins(products);
  }

  /** A title listed more than once is priced by its last listing. */
  lemma LastListingWins(products: seq<Product>, i: int, j: int)
    requires 0 <= i < j < |products|
    requires products[i].title == products[j].title
    requires forall m :: j < m < |products| ==> products[m].title != products[j].title
    ensures var idx := Build(products);
      products[i].title in idx.prices && idx.prices[products[i].title] == products[j].price
  {
    BuildLastPriceWins(products);
    assert IsLastOccurrence(products, j);
  }

  /** Builds the dict with a loop over the catalogue, as the comprehension does. */
  method BuildIndex(products: seq<Product>) returns (idx: PriceIndex)
    ensures idx == Build(products)
    ensures IsDictOf(idx, products)
  {
    idx := PriceIndex([], map[]);
    for n := 0 to |products|
      invariant idx == Build(products[..n])
    {
      var product := products[n];
      assert products[..n + 1][..n] == products[..n];
      idx := Put(idx, product.title, product.price);
    }
    assert products[..|products|] == products;
    BuildIsDict(products);
  }
}
