/**
 * The title lookup of `compute_total_sales`
 * (ejercicio1/computeSales.py:26-33): the first dict key, in iteration order,
 * whose lower-cased form contains the lower-cased product name.
 */
module Matcher {
  import opened Wrappers
  import opened Text

  /**
   * `product_name.lower() in title.lower()`: the lower-cased name occurs at
   * some position of the lower-cased title.
   */
  predicate Matches(productName: string, title: string)
    ensures Matches(productName, title) ==> exists i :: OccursAt(Lower(productName), Lower(title), i)
    ensures (exists i :: OccursAt(Lower(productName), Lower(title), i)) ==> Matches(productName, title)
  {
    Contains(Lower(productName), Lower(title))
  }

  /** Position `k` holds a matching key and no key before it matches. */
  predicate IsFirstMatchAt(productName: string, keys: seq<string>, k: int) {
    && 0 <= k < |keys|
    && Matches(productName, keys[k])
    && forall j :: 0 <= j < k ==> !Matches(productName, keys[j])
  }

  /** Position of the first key that matches `productName`, scanning the keys in order. */
  function FirstMatchPos(productName: string, keys: seq<string>): (r: Option<nat>)
    ensures r.Some? ==> r.value < |keys| && Matches(productName, keys[r.value])
    ensures r.Some? ==> forall j :: 0 <= j < r.value ==> !Matches(productName, keys[j])
    ensures r.None? ==> forall j :: 0 <= j < |keys| ==> !Matches(productName, keys[j])
    ensures forall k :: IsFirstMatchAt(productName, keys, k) ==> r == Some(k)
    decreases |keys|
  {
    var r: Option<nat> :=
      if keys == [] then None
      else if Matches(productName, keys[0]) then Some(0)
      else match FirstMatchPos(productName, keys[1..])
        case None => None
        case Some(k) => Some(k + 1);
    FirstMatchIsUnique(productName, keys, r);
    r
  }

  /** A position found by the scan is the only position where the first match can be. */
  lemma FirstMatchIsUnique(productName: string, keys: seq<string>, r: Option<nat>)
    requires r.Some? ==> IsFirstMatchAt(productName, keys, r.value)
    requires r.None? ==> forall j :: 0 <= j < |keys| ==> !Matches(productName, keys[j])
    ensures forall k :: IsFirstMatchAt(productName, keys, k) ==> r == Some(k)
  {
  }

  /**
   * `next((title for title in keys if ...), None)`: the first matching key,
   * or None when no key matches.
   */
  function FirstMatch(productName: string, keys: seq<string>): (r: Option<string>)
    ensures r.None? <==> forall j :: 0 <= j < |keys| ==> !Matches(productName, keys[j])
    ensures r.Some? ==> exists k :: 0 <= k < |keys| && keys[k] == r.value && Matches(productName, keys[k])
                          && forall j :: 0 <= j < k ==> !Matches(productName, keys[j])
    ensures forall k :: IsFirstMatchAt(productName, keys, k) ==> r == Some(keys[k])
  {
    match FirstMatchPos(productName, keys)
    case None => None
    case Some(k) => Some(keys[k])
  }

  /**
   * Changing the case of the product name or of any key changes neither
   * whether a key matches nor which position matches first.
   */
  lemma {:induction false} FirstMatchPosIgnoresCase(p: string, p': string, keys: seq<string>, keys': seq<string>)
    requires SameUpToCase(p, p')
    requires |keys| == |keys'|
    requires forall i :: 0 <= i < |keys| ==> SameUpToCase(keys[i], keys'[i])
    ensures FirstMatchPos(p, keys) == FirstMatchPos(p', keys')
    decreases |keys|
  {
    if keys != [] {
      assert Matches(p, keys[0]) == Matches(p', keys'[0]);
      FirstMatchPosIgnoresCase(p, p', keys[1..], keys'[1..]);
    }
  }

  /** In particular, upper-casing a sale's product name does not change what it matches. */
  lemma UpperNameMatchesAlike(productName: string, keys: seq<string>)
    ensures FirstMatch(Upper(productName), keys) == FirstMatch(productName, keys)
  {
    CaseChangesAreCaseOnly(productName);
    FirstMatchPosIgnoresCase(Upper(productName), productName, keys, keys);
  }

  /** An empty product name is contained in every title, so the first key matches. */
  lemma EmptyNameMatchesFirstKey(keys: seq<string>)
    requires keys != []
    ensures FirstMatch("", keys) == Some(keys[0])
  {
    EmptyIsContained(Lower(keys[0]));
  }
}
