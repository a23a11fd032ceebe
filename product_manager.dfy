/**
 * The catalog list (components/ProductManager.tsx): the case-insensitive
 * search over vehicles and accessories and the "No items found" row.
 */
module ProductManager {
  import opened Seqs
  import opened Strings
  import opened Types

  datatype ViewTab = VehiclesTab | AccessoriesTab

  /** The search term matches a vehicle's model or name, ignoring case. */
  predicate ProductMatches(term: string, p: Product) {
    Contains(Lower(p.model), Lower(term)) || Contains(Lower(p.name), Lower(term))
  }

  /** The search term matches an accessory's voltage or capacity, ignoring case. */
  predicate AccessoryMatches(term: string, a: Accessory) {
    Contains(Lower(a.voltage), Lower(term)) || Contains(Lower(a.capacity), Lower(term))
  }

  function MatchesProduct(term: string): Product -> bool {
    p => ProductMatches(term, p)
  }

  function MatchesAccessory(term: string): Accessory -> bool {
    a => AccessoryMatches(term, a)
  }

  /**
   * `filteredProducts`: the matching vehicles, unchanged, each as often as
   * it is in the catalog, and in catalog order.
   */
  function FilterProducts(products: seq<Product>, term: string): (r: seq<Product>)
    ensures forall i :: 0 <= i < |r| ==> r[i] in products && ProductMatches(term, r[i])
    ensures forall p :: multiset(r)[p] == if ProductMatches(term, p) then multiset(products)[p] else 0
    ensures IsSubsequence(r, products)
  {
    FilterIsSubsequence(products, MatchesProduct(term));
    FilterMultisetAll(products, MatchesProduct(term));
    Filter(products, MatchesProduct(term))
  }

  /**
   * `filteredAccessories`: the matching accessories, unchanged, each as often
   * as it is in the catalog, and in catalog order.
   */
  function FilterAccessories(accessories: seq<Accessory>, term: string): (r: seq<Accessory>)
    ensures forall i :: 0 <= i < |r| ==> r[i] in accessories && AccessoryMatches(term, r[i])
    ensures forall a :: multiset(r)[a] == if AccessoryMatches(term, a) then multiset(accessories)[a] else 0
    ensures IsSubsequence(r, accessories)
  {
    FilterIsSubsequence(accessories, MatchesAccessory(term));
    FilterMultisetAll(accessories, MatchesAccessory(term));
    Filter(accessories, MatchesAccessory(term))
  }

  /** An empty search term lists every vehicle. */
  lemma EmptySearchKeepsProducts(products: seq<Product>)
    ensures FilterProducts(products, "") == products
  {
    forall i | 0 <= i < |products| ensures MatchesProduct("")(products[i]) {
      ContainsEmpty(Lower(products[i].model));
    }
    FilterAllKept(products, MatchesProduct(""));
  }

  /** An empty search term lists every accessory. */
  lemma EmptySearchKeepsAccessories(accessories: seq<Accessory>)
    ensures FilterAccessories(accessories, "") == accessories
  {
    forall i | 0 <= i < |accessories| ensures MatchesAccessory("")(accessories[i]) {
      ContainsEmpty(Lower(accessories[i].voltage));
    }
    FilterAllKept(accessories, MatchesAccessory(""));
  }

  /**
   * The condition under which the table shows "No items found.": exactly
   * when no item of the active tab matches the search.
   */
  predicate NoItemsFound(tab: ViewTab, products: seq<Product>, accessories: seq<Accessory>, term: string): (shown: bool)
    ensures shown <==>
              match tab
              case VehiclesTab => forall p :: p in products ==> !ProductMatches(term, p)
              case AccessoriesTab => forall a :: a in accessories ==> !AccessoryMatches(term, a)
  {
    var fp := FilterProducts(products, term);
    var fa := FilterAccessories(accessories, term);
    assert |fp| > 0 ==> fp[0] in products && ProductMatches(term, fp[0]);
    assert |fa| > 0 ==> fa[0] in accessories && AccessoryMatches(term, fa[0]);
    (tab == VehiclesTab && |fp| == 0) || (tab == AccessoriesTab && |fa| == 0)
  }
}
