/**
 * The application shell (App.tsx): it owns the two catalog collections,
 * migrates vehicle records saved by older versions when it loads them, and
 * appends, replaces and deletes records on behalf of the form and the
 * manager. Local storage is not modelled: what it held is a parameter.
 */
module App {
  import opened Wrappers
  import opened Seqs
  import opened Strings
  import opened Types

  /** The `colors` field of a stored record: an array, a legacy comma-separated string, or anything else. */
  datatype LegacyColors = ColorList(list: seq<string>) | ColorText(text: string) | NoColorList

  /** A vehicle record as stored by any version: `price` may be missing, `priceTaxInc` may be there instead. */
  datatype LegacyProduct = LegacyProduct(
    id: string,
    model: string,
    name: string,
    battery: seq<string>,
    motor: string,
    brakeTire: string,
    seatDash: string,
    controlFunc: string,
    additional: string,
    colors: LegacyColors,
    price: Option<int>,
    priceTaxInc: Option<int>)

  predicate Trimmed(s: string) {
    s == [] || (!IsSpace(s[0]) && !IsSpace(s[|s| - 1]))
  }

  /**
   * The migrated colour list: an array is kept; a non-empty string becomes
   * one trimmed piece per comma-separated part, empty parts included; anything
   * else becomes the empty list.
   */
  function MigrateColors(c: LegacyColors): (r: seq<string>)
    ensures c.ColorList? ==> r == c.list
    ensures c.ColorText? && c.text != "" ==>
              && |r| == CountChar(c.text, ',') + 1
              && forall i :: 0 <= i < |r| ==> Trimmed(r[i]) && ',' !in r[i]
    ensures c.NoColorList? || c == ColorText("") ==> r == []
  {
    match c
    case ColorList(list) => list
    case ColorText(text) =>
      if |text| > 0 then TrimEach(Split(text, ',')) else []
    case NoColorList => []
  }

  /** `pieces.map(c => c.trim())`. */
  function TrimEach(pieces: seq<string>): (r: seq<string>)
    ensures |r| == |pieces|
    ensures forall i :: 0 <= i < |r| ==> r[i] == Trim(pieces[i])
    ensures forall i :: 0 <= i < |r| ==> Trimmed(r[i]) && (',' !in pieces[i] ==> ',' !in r[i])
  {
    seq(|pieces|, i requires 0 <= i < |pieces| => Trim(pieces[i]))
  }

  /** Pieces that are already trimmed are left alone. */
  lemma TrimEachTrimmed(pieces: seq<string>)
    requires forall i :: 0 <= i < |pieces| ==> Trimmed(pieces[i])
    ensures TrimEach(pieces) == pieces
  {
    forall i | 0 <= i < |pieces| ensures TrimEach(pieces)[i] == pieces[i] {
      TrimTrimmed(pieces[i]);
    }
  }

  /** `p.price !== undefined ? p.price : (p.priceTaxInc || 0)`. */
  function MigratePrice(price: Option<int>, priceTaxInc: Option<int>): (r: int)
    ensures price.Some? ==> r == price.value
    ensures price.None? ==> r == priceTaxInc.GetOr(0)
  {
    if price.Some? then price.value
    else if priceTaxInc.Some? && priceTaxInc.value != 0 then priceTaxInc.value
    else 0
  }

  /** One stored record brought up to date: only `colors` and `price` change. */
  function Migrate(p: LegacyProduct): (r: Product)
    ensures r.colors == MigrateColors(p.colors) && r.price == MigratePrice(p.price, p.priceTaxInc)
    ensures Product(p.id, p.model, p.name, p.battery, p.motor, p.brakeTire, p.seatDash, p.controlFunc,
                    p.additional, r.colors, r.price) == r
  {
    Product(p.id, p.model, p.name, p.battery, p.motor, p.brakeTire, p.seatDash, p.controlFunc,
            p.additional, MigrateColors(p.colors), MigratePrice(p.price, p.priceTaxInc))
  }

  /**
   * The migration is a map: one record out per record in, in the same order,
   * every field but `colors` and `price` copied unchanged.
   */
  function MigrateAll(ps: seq<LegacyProduct>): (r: seq<Product>)
    ensures |r| == |ps|
    ensures forall i :: 0 <= i < |ps| ==>
              && r[i].id == ps[i].id && r[i].model == ps[i].model && r[i].name == ps[i].name
              && r[i].battery == ps[i].battery && r[i].motor == ps[i].motor
              && r[i].brakeTire == ps[i].brakeTire && r[i].seatDash == ps[i].seatDash
              && r[i].controlFunc == ps[i].controlFunc && r[i].additional == ps[i].additional
              && r[i].colors == MigrateColors(ps[i].colors)
              && r[i].price == MigratePrice(ps[i].price, ps[i].priceTaxInc)
  {
    seq(|ps|, i requires 0 <= i < |ps| => Migrate(ps[i]))
  }

  /**
   * A legacy string written by joining trimmed, comma-free colours with commas
   * migrates back to exactly those colours.
   */
  lemma MigrateColorsRoundTrip(colors: seq<string>)
    requires |colors| >= 1 && Join(colors, ",") != ""
    requires forall i :: 0 <= i < |colors| ==> Trimmed(colors[i]) && ',' !in colors[i]
    ensures MigrateColors(ColorText(Join(colors, ","))) == colors
  {
    SplitJoin(colors, ',');
    TrimEachTrimmed(colors);
  }

  /** Every legacy string reads back from its pieces: the split loses no text but white space. */
  lemma MigrateColorsPieces(text: string)
    requires text != ""
    ensures var pieces := Split(text, ',');
            && Join(pieces, ",") == text
            && MigrateColors(ColorText(text)) == TrimEach(pieces)
  {
    JoinSplit(text, ',');
  }

  // ---------------------------------------------------------------------
  // The collection updates, for either record type

  function ProductId(p: Product): string { p.id }

  function AccessoryId(a: Accessory): string { a.id }

  function KeepOther<T>(idOf: T -> string, id: string): T -> bool {
    x => idOf(x) != id
  }

  /**
   * `list.map(x => x.id === item.id ? item : x)`: the records with the item's
   * id become the item, the others stay; length, order and ids are kept.
   */
  function ReplaceById<T>(s: seq<T>, idOf: T -> string, item: T): (r: seq<T>)
    ensures |r| == |s|
    ensures forall i :: 0 <= i < |s| ==> idOf(r[i]) == idOf(s[i])
    ensures forall i :: 0 <= i < |s| ==> r[i] == (if idOf(s[i]) == idOf(item) then item else s[i])
  {
    seq(|s|, i requires 0 <= i < |s| => if idOf(s[i]) == idOf(item) then item else s[i])
  }

  /**
   * `list.filter(x => x.id !== id)`: exactly the records without that id
   * remain, in their order.
   */
  function RemoveById<T(==)>(s: seq<T>, idOf: T -> string, id: string): (r: seq<T>)
    ensures forall i :: 0 <= i < |r| ==> r[i] in s && idOf(r[i]) != id
    ensures forall i :: 0 <= i < |s| && idOf(s[i]) != id ==> s[i] in r
    ensures IsSubsequence(r, s)
    ensures |r| == |s| - CountIf(s, (x: T) => !KeepOther(idOf, id)(x))
  {
    FilterIsSubsequence(s, KeepOther(idOf, id));
    FilterCount(s, KeepOther(idOf, id));
    Filter(s, KeepOther(idOf, id))
  }

  /** Saving a record whose id was absent and then deleting that id gives back the original list. */
  lemma SaveThenDelete<T>(s: seq<T>, idOf: T -> string, item: T)
    requires forall i :: 0 <= i < |s| ==> idOf(s[i]) != idOf(item)
    ensures RemoveById(s + [item], idOf, idOf(item)) == s
  {
    var keep := KeepOther(idOf, idOf(item));
    FilterConcat(s, [item], keep);
    FilterAllKept(s, keep);
    assert [item][1..] == [];
  }

  /** Updating with an id nobody has changes nothing. */
  lemma ReplaceAbsent<T>(s: seq<T>, idOf: T -> string, item: T)
    requires forall i :: 0 <= i < |s| ==> idOf(s[i]) != idOf(item)
    ensures ReplaceById(s, idOf, item) == s
  {
  }

  /** Updating twice with the same record is the same as updating once. */
  lemma ReplaceIdempotent<T>(s: seq<T>, idOf: T -> string, item: T)
    ensures ReplaceById(ReplaceById(s, idOf, item), idOf, item) == ReplaceById(s, idOf, item)
  {
  }

  /** Deleting an id after updating it is the same as deleting it straight away. */
  lemma {:induction false} ReplaceThenRemove<T>(s: seq<T>, idOf: T -> string, item: T)
    ensures RemoveById(ReplaceById(s, idOf, item), idOf, idOf(item)) == RemoveById(s, idOf, idOf(item))
  {
    if |s| > 0 {
      ReplaceThenRemove(s[1..], idOf, item);
      var r := ReplaceById(s, idOf, item);
      assert r[1..] == ReplaceById(s[1..], idOf, item);
    }
  }

  // ---------------------------------------------------------------------
  // The component's state

  class App {
    var products: seq<Product>
    var accessories: seq<Accessory>

    /**
     * The first render: stored vehicles are migrated, stored accessories
     * taken as they are; a missing or unreadable store gives an empty list.
     */
    constructor (savedProducts: Option<seq<LegacyProduct>>, savedAccessories: Option<seq<Accessory>>)
      ensures products == if savedProducts.Some? then MigrateAll(savedProducts.value) else []
      ensures accessories == savedAccessories.GetOr([])
    {
      products := if savedProducts.Some? then MigrateAll(savedProducts.value) else [];
      accessories := savedAccessories.GetOr([]);
    }

    /** `handleSaveProduct`: the record goes to the end of its own collection only. */
    method HandleSaveProduct(item: CatalogItem)
      modifies this
      ensures item.AccessoryItem? ==> accessories == old(accessories) + [item.accessory] && products == old(products)
      ensures item.VehicleItem? ==> products == old(products) + [item.product] && accessories == old(accessories)
    {
      match item
      case AccessoryItem(a) => accessories := accessories + [a];
      case VehicleItem(p) => products := products + [p];
    }

    /** `handleUpdateProduct`: every record of the item's collection with its id becomes the item. */
    method HandleUpdateProduct(item: CatalogItem)
      modifies this
      ensures item.AccessoryItem? ==>
                accessories == ReplaceById(old(accessories), AccessoryId, item.accessory) && products == old(products)
      ensures item.VehicleItem? ==>
                products == ReplaceById(old(products), ProductId, item.product) && accessories == old(accessories)
    {
      match item
      case AccessoryItem(a) => accessories := ReplaceById(accessories, AccessoryId, a);
      case VehicleItem(p) => products := ReplaceById(products, ProductId, p);
    }

    /** `handleDeleteProduct`: the records with that id leave the chosen collection; the other is untouched. */
    method HandleDeleteProduct(id: string, kind: ItemKind)
      modifies this
      ensures kind == AccessoryKind ==>
                accessories == RemoveById(old(accessories), AccessoryId, id) && products == old(products)
      ensures kind == VehicleKind ==>
                products == RemoveById(old(products), ProductId, id) && accessories == old(accessories)
    {
      if kind == AccessoryKind {
        accessories := RemoveById(accessories, AccessoryId, id);
      } else {
        products := RemoveById(products, ProductId, id);
      }
    }
  }
}
