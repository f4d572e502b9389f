/**
 * The marketplace page: the catalogue filter (search, category,
 * certifications, USD price range), the sort modes, the certification
 * checkboxes, the featured strip and the "Add to Cart" button.
 */
module Marketplace {
  import opened Wrappers
  import opened Data
  import CommerceSlice
  import Seqs
  import Text

  const AllCategories := "All Categories"

  const Categories: seq<string> := [
    AllCategories, "Seeds & Plants", "Home & Living", "Health & Wellness",
    "Food & Beverages", "Clothing & Textiles", "Tools & Equipment", "Education & Books"]

  const CertificationOptions: seq<string> := [
    "USDA Organic", "Fair Trade", "B-Corp", "Regenerative Organic", "Non-GMO",
    "Carbon Neutral", "Women-Owned", "Handmade", "Wildcrafted"]

  /** The page's filter state: search term, category, ticked certifications and the `[lo, hi]` slider. */
  datatype Criteria = Criteria(searchTerm: string, category: string, certifications: seq<string>, lo: real, hi: real)

  /** The state the page starts with. */
  const DefaultCriteria := Criteria("", AllCategories, [], 0.0, 200.0)

  predicate MatchesSearch(p: Product, term: string) {
    Text.Contains(Text.Lower(p.name), Text.Lower(term)) || Text.Contains(Text.Lower(p.description), Text.Lower(term))
  }

  predicate MatchesCategory(p: Product, category: string) {
    category == AllCategories || p.category == category
  }

  /** `selected.length === 0 || selected.some(cert => product.certifications.includes(cert))`. */
  predicate MatchesCertifications(p: Product, selected: seq<string>) {
    selected == [] || exists i :: 0 <= i < |selected| && selected[i] in p.certifications
  }

  predicate MatchesPrice(p: Product, lo: real, hi: real) {
    lo <= p.price.usd <= hi
  }

  predicate Keep(c: Criteria, p: Product) {
    MatchesSearch(p, c.searchTerm) && MatchesCategory(p, c.category) &&
    MatchesCertifications(p, c.certifications) && MatchesPrice(p, c.lo, c.hi)
  }

  function FilteredProducts(catalog: seq<Product>, c: Criteria): seq<Product> {
    Seqs.Filter(catalog, p => Keep(c, p))
  }

  /**
   * A product is listed exactly when it is in the catalogue and passes all
   * four tests; the list keeps the catalogue's order.
   */
  lemma FilteredProductsFacts(catalog: seq<Product>, c: Criteria)
    ensures forall p :: p in FilteredProducts(catalog, c) <==>
      && p in catalog
      && (Text.Contains(Text.Lower(p.name), Text.Lower(c.searchTerm))
          || Text.Contains(Text.Lower(p.description), Text.Lower(c.searchTerm)))
      && (c.category == AllCategories || p.category == c.category)
      && (c.certifications == [] || exists i :: 0 <= i < |c.certifications| && c.certifications[i] in p.certifications)
      && c.lo <= p.price.usd <= c.hi
    ensures Seqs.IsSubsequence(FilteredProducts(catalog, c), catalog)
  {
    Seqs.FilterIsSubsequence(catalog, p => Keep(c, p));
  }

  /**
   * With the page's starting state every product priced within [0, 200] USD
   * is listed and no other; a catalogue priced entirely within that range is
   * listed whole, in order.
   */
  lemma DefaultCriteriaFacts(catalog: seq<Product>)
    ensures forall p :: p in FilteredProducts(catalog, DefaultCriteria) <==> p in catalog && 0.0 <= p.price.usd <= 200.0
    ensures (forall i :: 0 <= i < |catalog| ==> 0.0 <= catalog[i].price.usd <= 200.0) ==>
      FilteredProducts(catalog, DefaultCriteria) == catalog
  {
    forall p: Product ensures MatchesSearch(p, "") {
      Text.ContainsEmpty(Text.Lower(p.name));
    }
    if forall i :: 0 <= i < |catalog| ==> 0.0 <= catalog[i].price.usd <= 200.0 {
      Seqs.FilterKeepsAll(catalog, p => Keep(DefaultCriteria, p));
    }
  }

  function PriceUsd(p: Product): real { p.price.usd }
  function NegPriceUsd(p: Product): real { -p.price.usd }
  function NegRating(p: Product): real { -p.rating }
  function NegBiodiversity(p: Product): real { -p.impact.biodiversityScore }

  /**
   * `sortedProducts`: a stable sort of a copy of the filtered list. The
   * descending modes sort by the negated key, which keeps equal keys in
   * their filtered order as the comparator `b - a` does.
   */
  function SortedProducts(filtered: seq<Product>, sortBy: string): seq<Product> {
    if sortBy == "price-low" then Seqs.SortBy(filtered, PriceUsd)
    else if sortBy == "price-high" then Seqs.SortBy(filtered, NegPriceUsd)
    else if sortBy == "rating" then Seqs.SortBy(filtered, NegRating)
    else if sortBy == "impact" then Seqs.SortBy(filtered, NegBiodiversity)
    else filtered
  }

  /** Every mode gives a permutation of the filtered list, in the order its name promises. */
  lemma SortedProductsFacts(filtered: seq<Product>, sortBy: string)
    ensures var r := SortedProducts(filtered, sortBy);
      && multiset(r) == multiset(filtered)
      && (sortBy == "price-low" ==> forall i, j :: 0 <= i < j < |r| ==> r[i].price.usd <= r[j].price.usd)
      && (sortBy == "price-high" ==> forall i, j :: 0 <= i < j < |r| ==> r[i].price.usd >= r[j].price.usd)
      && (sortBy == "rating" ==> forall i, j :: 0 <= i < j < |r| ==> r[i].rating >= r[j].rating)
      && (sortBy == "impact" ==> forall i, j :: 0 <= i < j < |r| ==> r[i].impact.biodiversityScore >= r[j].impact.biodiversityScore)
      && (sortBy !in {"price-low", "price-high", "rating", "impact"} ==> r == filtered)
  {
    var r := SortedProducts(filtered, sortBy);
    if sortBy == "price-low" {
      Seqs.SortByFacts(filtered, PriceUsd);
      assert forall i, j :: 0 <= i < j < |r| ==> PriceUsd(r[i]) <= PriceUsd(r[j]);
    } else if sortBy == "price-high" {
      Seqs.SortByFacts(filtered, NegPriceUsd);
      assert forall i, j :: 0 <= i < j < |r| ==> NegPriceUsd(r[i]) <= NegPriceUsd(r[j]);
    } else if sortBy == "rating" {
      Seqs.SortByFacts(filtered, NegRating);
      assert forall i, j :: 0 <= i < j < |r| ==> NegRating(r[i]) <= NegRating(r[j]);
    } else if sortBy == "impact" {
      Seqs.SortByFacts(filtered, NegBiodiversity);
      assert forall i, j :: 0 <= i < j < |r| ==> NegBiodiversity(r[i]) <= NegBiodiversity(r[j]);
    }
  }

  /** Products with equal prices keep their filtered order under "price-low" (the sort is stable). */
  lemma PriceLowIsStable(filtered: seq<Product>, v: real)
    ensures Seqs.WithKey(SortedProducts(filtered, "price-low"), PriceUsd, v) == Seqs.WithKey(filtered, PriceUsd, v)
  {
    Seqs.SortByFacts(filtered, PriceUsd);
  }

  /**
   * A certification checkbox removes the certification when ticked and
   * appends it otherwise; clicking it twice gives back the same selection.
   */
  lemma CertificationToggle(selected: seq<string>, cert: string)
    ensures cert in Seqs.Toggle(selected, cert) <==> cert !in selected
    ensures forall other :: other != cert ==> (other in Seqs.Toggle(selected, cert) <==> other in selected)
    ensures forall x :: x in Seqs.Toggle(Seqs.Toggle(selected, cert), cert) <==> x in selected
    ensures cert !in selected ==> Seqs.Toggle(Seqs.Toggle(selected, cert), cert) == selected
  {
    Seqs.ToggleTwice(selected, cert);
  }

  /** The featured strip: the first three sorted products, or all of them when there are fewer. */
  function Featured(sorted: seq<Product>): (r: seq<Product>)
    ensures |r| <= 3 && |r| <= |sorted| && r == sorted[..|r|]
    ensures |sorted| >= 3 ==> |r| == 3
    ensures |sorted| < 3 ==> r == sorted
  {
    Seqs.Prefix(sorted, 3)
  }

  /** The "Add to Cart" button: disabled for a product out of stock, otherwise one unit of it. */
  function AddToCartClick(p: Product): (r: Option<CommerceSlice.CartItem>)
    ensures r.Some? <==> p.inStock
    ensures r.Some? ==> r.value.product == p && r.value.quantity == 1
  {
    if p.inStock then Some(CommerceSlice.CartItem(p, 1)) else None
  }

  /**
   * Clicking "Add to Cart" on an in-stock product leaves the cart with a
   * line for it holding one more unit than before (one unit when it was
   * not there), whether the line was merged or appended.
   */
  lemma AddToCartClickEffect(cart: seq<CommerceSlice.CartItem>, p: Product)
    requires p.inStock
    ensures var after := CommerceSlice.AddLine(cart, AddToCartClick(p).value);
      var i := Seqs.IndexOf(cart, CommerceSlice.LineProductId, p.id);
      && (i == -1 ==> |after| == |cart| + 1 && after[|cart|] == CommerceSlice.CartItem(p, 1))
      && (i != -1 ==> |after| == |cart| && after[i].quantity == cart[i].quantity + 1 && after[i].product.id == p.id)
  {
    CommerceSlice.AddLineFacts(cart, AddToCartClick(p).value);
  }
}
