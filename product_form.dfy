/**
 * The catalog form (components/ProductForm.tsx): the draft records being
 * edited, the list editors for battery options and colours, and the submit
 * handler that validates a draft and fills in defaults. A draft is a partial
 * record: every field may be missing (`None`).
 */
module ProductForm {
  import opened Wrappers
  import opened Seqs
  import opened Types

  /** `Partial<Product>`. */
  datatype ProductDraft = ProductDraft(
    id: Option<string>,
    model: Option<string>,
    name: Option<string>,
    battery: Option<seq<string>>,
    motor: Option<string>,
    brakeTire: Option<string>,
    seatDash: Option<string>,
    controlFunc: Option<string>,
    additional: Option<string>,
    colors: Option<seq<string>>,
    price: Option<int>)

  /** `Partial<Accessory>`. */
  datatype AccessoryDraft = AccessoryDraft(
    id: Option<string>,
    category: Option<Category>,
    voltage: Option<string>,
    capacity: Option<string>,
    price: Option<int>)

  /** `{ battery: [], colors: [] }`. */
  function EmptyProductDraft(): ProductDraft {
    ProductDraft(None, None, None, Some([]), None, None, None, None, None, Some([]), None)
  }

  /** `{ category: 'battery' }`. */
  function EmptyAccessoryDraft(): AccessoryDraft {
    AccessoryDraft(None, Some(Battery), None, None, None)
  }

  function DraftOf(p: Product): ProductDraft {
    ProductDraft(Some(p.id), Some(p.model), Some(p.name), Some(p.battery), Some(p.motor), Some(p.brakeTire),
                 Some(p.seatDash), Some(p.controlFunc), Some(p.additional), Some(p.colors), Some(p.price))
  }

  function AccessoryDraftOf(a: Accessory): AccessoryDraft {
    AccessoryDraft(Some(a.id), Some(a.category), Some(a.voltage), Some(a.capacity), Some(a.price))
  }

  /** A text field is truthy: present and not empty. */
  predicate Filled(o: Option<string>) {
    o.Some? && o.value != ""
  }

  /** `o || fallback` on a text field. */
  function TextOr(o: Option<string>, fallback: string): string {
    if Filled(o) then o.value else fallback
  }

  /** `o || 0` on a number field. */
  function NumberOr0(o: Option<int>): int {
    if o.Some? && o.value != 0 then o.value else 0
  }

  function Differs(v: string): string -> bool {
    x => x != v
  }

  /**
   * `list.filter(x => x !== v)`: every occurrence of `v` is gone, every other
   * entry stays as often as it was there, and the order is kept.
   */
  function Without(list: seq<string>, v: string): (r: seq<string>)
    ensures v !in r
    ensures multiset(r) == multiset(list)[v := 0]
    ensures IsSubsequence(r, list)
  {
    FilterIsSubsequence(list, Differs(v));
    FilterMultisetAll(list, Differs(v));
    Filter(list, Differs(v))
  }

  /** Removing a value keeps a duplicate-free list duplicate-free. */
  lemma WithoutNoDuplicates(list: seq<string>, v: string)
    requires NoDuplicates(list)
    ensures NoDuplicates(Without(list, v))
  {
    FilterNoDuplicates(list, Differs(v));
  }

  /** `toggleBattery`: an option that is there is removed everywhere, one that is not is appended. */
  function Toggle(list: seq<string>, option: string): (r: seq<string>)
    ensures option in list ==> r == Without(list, option)
    ensures option !in list ==> r == list + [option]
  {
    if option in list then Without(list, option) else list + [option]
  }

  /** The guard of `addCustomBattery` and `addCustomColor`: a non-empty value not yet listed. */
  predicate CanAdd(list: Option<seq<string>>, value: string) {
    value != "" && !(list.Some? && value in list.value)
  }

  /** Toggling an absent option twice gives back the list. */
  lemma ToggleTwice(list: seq<string>, option: string)
    requires option !in list
    ensures Toggle(Toggle(list, option), option) == list
  {
    var once := list + [option];
    assert option in once;
    FilterConcat(list, [option], Differs(option));
    FilterAllKept(list, Differs(option));
    assert [option][1..] == [];
  }

  /** Toggling keeps a duplicate-free list duplicate-free. */
  lemma ToggleNoDuplicates(list: seq<string>, option: string)
    requires NoDuplicates(list)
    ensures NoDuplicates(Toggle(list, option))
  {
    if option in list {
      FilterNoDuplicates(list, Differs(option));
    } else {
      AppendNoDuplicates(list, option);
    }
  }

  /** Appending what is not in a duplicate-free list keeps it duplicate-free. */
  lemma AppendNoDuplicates(list: seq<string>, v: string)
    requires NoDuplicates(list) && v !in list
    ensures NoDuplicates(list + [v])
  {
    var r := list + [v];
    forall i, j | 0 <= i < j < |r| ensures r[i] != r[j] {
      if j == |list| {
        assert r[i] == list[i];
      }
    }
  }

  /** A custom value passes the guard only if it is new, so the list stays duplicate-free. */
  lemma AddCustomNoDuplicates(list: Option<seq<string>>, value: string)
    requires NoDuplicates(list.GetOr([]))
    requires CanAdd(list, value)
    ensures NoDuplicates(list.GetOr([]) + [value])
  {
    AppendNoDuplicates(list.GetOr([]), value);
  }

  /**
   * The vehicle `handleSubmit` would save: none when the model or the name is
   * missing or empty; otherwise the draft's fields, a missing text becoming
   * "", a missing list [], a missing price 0, and a missing or empty id the
   * fresh one.
   */
  function BuildProduct(d: ProductDraft, freshId: string): (r: Option<Product>)
    ensures r.None? <==> !Filled(d.model) || !Filled(d.name)
    ensures r.Some? ==>
              && r.value.id == (if Filled(d.id) then d.id.value else freshId)
              && r.value.model == d.model.value && r.value.name == d.name.value
              && r.value.battery == d.battery.GetOr([]) && r.value.colors == d.colors.GetOr([])
              && r.value.motor == d.motor.GetOr("") && r.value.brakeTire == d.brakeTire.GetOr("")
              && r.value.seatDash == d.seatDash.GetOr("") && r.value.controlFunc == d.controlFunc.GetOr("")
              && r.value.additional == d.additional.GetOr("")
              && r.value.price == d.price.GetOr(0)
  {
    if !Filled(d.model) || !Filled(d.name) then None
    else Some(Product(
      TextOr(d.id, freshId), TextOr(d.model, ""), TextOr(d.name, ""), d.battery.GetOr([]),
      TextOr(d.motor, ""), TextOr(d.brakeTire, ""), TextOr(d.seatDash, ""), TextOr(d.controlFunc, ""),
      TextOr(d.additional, ""), d.colors.GetOr([]), NumberOr0(d.price)))
  }

  /**
   * The accessory `handleSubmit` would save: none when the voltage or the
   * capacity is missing or empty; otherwise one of the form's active kind.
   */
  function BuildAccessory(d: AccessoryDraft, kind: Category, freshId: string): (r: Option<Accessory>)
    ensures r.None? <==> !Filled(d.voltage) || !Filled(d.capacity)
    ensures r.Some? ==>
              && r.value.category == kind
              && r.value.id == (if Filled(d.id) then d.id.value else freshId)
              && r.value.voltage == d.voltage.value && r.value.capacity == d.capacity.value
              && r.value.price == d.price.GetOr(0)
  {
    if !Filled(d.voltage) || !Filled(d.capacity) then None
    else Some(Accessory(TextOr(d.id, freshId), kind, TextOr(d.voltage, ""), TextOr(d.capacity, ""), NumberOr0(d.price)))
  }

  /** Editing a saved vehicle and submitting it unchanged saves the same vehicle under its own id. */
  lemma ResubmitVehicle(p: Product, freshId: string)
    requires p.model != "" && p.name != "" && p.id != ""
    ensures BuildProduct(DraftOf(p), freshId) == Some(p)
  {
  }

  class ProductForm {
    /** The record being edited, if any (`initialData`). */
    const initialData: Option<CatalogItem>

    var itemType: ItemCategory
    var productData: ProductDraft
    var accessoryData: AccessoryDraft
    var customBattery: string
    var customColor: string

    /** The form as it stands once the initial-data effect has run. */
    constructor (initialData: Option<CatalogItem>)
      ensures this.initialData == initialData
      ensures customBattery == "" && customColor == ""
      ensures match initialData
              case Some(AccessoryItem(a)) =>
                itemType == AccessoryCategory(a.category) && accessoryData == AccessoryDraftOf(a)
                && productData == EmptyProductDraft()
              case Some(VehicleItem(p)) =>
                itemType == VehicleCategory && productData == DraftOf(p) && accessoryData == EmptyAccessoryDraft()
              case None =>
                itemType == VehicleCategory && productData == EmptyProductDraft() && accessoryData == EmptyAccessoryDraft()
    {
      this.initialData := initialData;
      customBattery := "";
      customColor := "";
      match initialData
      case Some(AccessoryItem(a)) =>
        itemType := AccessoryCategory(a.category);
        accessoryData := AccessoryDraftOf(a);
        productData := EmptyProductDraft();
      case Some(VehicleItem(p)) =>
        itemType := VehicleCategory;
        productData := DraftOf(p);
        accessoryData := EmptyAccessoryDraft();
      case None =>
        itemType := VehicleCategory;
        productData := EmptyProductDraft();
        accessoryData := EmptyAccessoryDraft();
    }

    method SetItemType(t: ItemCategory)
      modifies this`itemType
      ensures itemType == t
    {
      itemType := t;
    }

    method SetCustomBattery(v: string)
      modifies this`customBattery
      ensures customBattery == v
    {
      customBattery := v;
    }

    method SetCustomColor(v: string)
      modifies this`customColor
      ensures customColor == v
    {
      customColor := v;
    }

    /** `toggleBattery(option)` on the draft's battery list (a missing list counts as empty). */
    method ToggleBattery(option: string)
      modifies this`productData
      ensures productData == old(productData).(battery := Some(Toggle(old(productData).battery.GetOr([]), option)))
    {
      productData := productData.(battery := Some(Toggle(productData.battery.GetOr([]), option)));
    }

    /** `addCustomBattery`: a new, non-empty value is appended and the input cleared; otherwise nothing happens. */
    method AddCustomBattery()
      modifies this`productData, this`customBattery
      ensures CanAdd(old(productData).battery, old(customBattery)) ==>
                && productData == old(productData).(battery := Some(old(productData).battery.GetOr([]) + [old(customBattery)]))
                && customBattery == ""
      ensures !CanAdd(old(productData).battery, old(customBattery)) ==>
                productData == old(productData) && customBattery == old(customBattery)
    {
      if CanAdd(productData.battery, customBattery) {
        productData := productData.(battery := Some(productData.battery.GetOr([]) + [customBattery]));
        customBattery := "";
      }
    }

    /** `addCustomColor`: the same rule for the colour list. */
    method AddCustomColor()
      modifies this`productData, this`customColor
      ensures CanAdd(old(productData).colors, old(customColor)) ==>
                && productData == old(productData).(colors := Some(old(productData).colors.GetOr([]) + [old(customColor)]))
                && customColor == ""
      ensures !CanAdd(old(productData).colors, old(customColor)) ==>
                productData == old(productData) && customColor == old(customColor)
    {
      if CanAdd(productData.colors, customColor) {
        productData := productData.(colors := Some(productData.colors.GetOr([]) + [customColor]));
        customColor := "";
      }
    }

    /** `removeColor(color)`: every occurrence goes, the other colours keep their order. */
    method RemoveColor(color: string)
      modifies this`productData
      ensures productData == old(productData).(colors := Some(Without(old(productData).colors.GetOr([]), color)))
    {
      productData := productData.(colors := Some(Without(productData.colors.GetOr([]), color)));
    }

    /**
     * `handleSubmit`: the record handed to `onSave`, or `None` when validation
     * refuses the draft (and `onSave` is not called). A new record's draft is
     * cleared after saving; an edited one's is kept.
     */
    method Submit(freshId: string) returns (saved: Option<CatalogItem>)
      modifies this`productData, this`accessoryData
      ensures itemType == VehicleCategory ==>
                && saved == (match BuildProduct(old(productData), freshId)
                             case Some(p) => Some(VehicleItem(p))
                             case None => None)
                && productData == (if saved.Some? && initialData.None? then EmptyProductDraft() else old(productData))
                && accessoryData == old(accessoryData)
      ensures itemType.AccessoryCategory? ==>
                && saved == (match BuildAccessory(old(accessoryData), itemType.kind, freshId)
                             case Some(a) => Some(AccessoryItem(a))
                             case None => None)
                && accessoryData == (if saved.Some? && initialData.None?
                                     then AccessoryDraft(None, Some(itemType.kind), Some(""), Some(""), Some(0))
                                     else old(accessoryData))
                && productData == old(productData)
    {
      if itemType == VehicleCategory {
        match BuildProduct(productData, freshId)
        case None =>
          saved := None;
        case Some(p) =>
          saved := Some(VehicleItem(p));
          if initialData.None? {
            productData := EmptyProductDraft();
          }
      } else {
        match BuildAccessory(accessoryData, itemType.kind, freshId)
        case None =>
          saved := None;
        case Some(a) =>
          saved := Some(AccessoryItem(a));
          if initialData.None? {
            accessoryData := AccessoryDraft(None, Some(itemType.kind), Some(""), Some(""), Some(0));
          }
      }
    }
  }
}
