/**
 * The quote builder component (components/QuoteGenerator.tsx) as an object:
 * its state variables become fields and each handler a method whose
 * postcondition gives the new state as a function of the old one.
 */
module Quote {
  import opened Wrappers
  import opened Types
  import opened Cart
  import opened Translation
  import opened CsvExport
  import opened Strings

  class QuoteGenerator {
    /** The catalog handed in by the application. */
    var products: seq<Product>
    var accessories: seq<Accessory>

    var cart: seq<CartItem>
    var translatedCart: seq<CartItem>
    var activeCategory: ItemCategory
    var selectedId: string
    var selectedColor: string
    var language: Language
    var docType: DocumentType

    /** The cart never holds a quantity below 1 nor two lines with one merge key. */
    ghost predicate Valid()
      reads this
    {
      ValidCart(cart)
    }

    /** A fresh quote: empty cart, vehicles picked, Chinese quotation. */
    constructor (products: seq<Product>, accessories: seq<Accessory>)
      ensures Valid()
      ensures this.products == products && this.accessories == accessories
      ensures cart == [] && translatedCart == []
      ensures activeCategory == VehicleCategory && selectedId == "" && selectedColor == ""
      ensures language == Zh && docType == Quotation
    {
      this.products := products;
      this.accessories := accessories;
      cart := [];
      translatedCart := [];
      activeCategory := VehicleCategory;
      selectedId := "";
      selectedColor := "";
      language := Zh;
      docType := Quotation;
    }

    /**
     * A category button. The effect on `activeCategory` clears the picked
     * item and colour only when the category actually changes; clicking the
     * active category again keeps them.
     */
    method SelectCategory(category: ItemCategory)
      modifies this
      ensures activeCategory == category
      ensures selectedId == if category == old(activeCategory) then old(selectedId) else ""
      ensures selectedColor == if category == old(activeCategory) then old(selectedColor) else ""
      ensures products == old(products) && accessories == old(accessories)
      ensures cart == old(cart) && translatedCart == old(translatedCart)
      ensures language == old(language) && docType == old(docType)
    {
      if category != activeCategory {
        selectedId := "";
        selectedColor := "";
      }
      activeCategory := category;
    }

    method SelectItem(id: string)
      modifies this`selectedId
      ensures selectedId == id
    {
      selectedId := id;
    }

    method SelectColor(color: string)
      modifies this`selectedColor
      ensures selectedColor == color
    {
      selectedColor := color;
    }

    method SetLanguage(l: Language)
      modifies this`language
      ensures language == l
    {
      language := l;
    }

    method SetDocType(d: DocumentType)
      modifies this`docType
      ensures docType == d
    {
      docType := d;
    }

    /** `addToCart`: merge the picked item into the cart, keeping the cart valid. */
    method AddToCart()
      requires Valid()
      modifies this`cart
      ensures Valid()
      ensures cart == AddSelection(old(cart), products, accessories, activeCategory, selectedId, selectedColor)
    {
      AddSelectionValid(cart, products, accessories, activeCategory, selectedId, selectedColor);
      cart := AddSelection(cart, products, accessories, activeCategory, selectedId, selectedColor);
    }

    /** `removeFromCart(index)`: the line at `index` is gone, the others keep their order. */
    method RemoveFromCart(index: int)
      requires Valid()
      modifies this`cart
      ensures Valid()
      ensures cart == if 0 <= index < |old(cart)| then old(cart)[..index] + old(cart)[index + 1..] else old(cart)
    {
      RemoveAtSpec(cart, index);
      RemoveAtValid(cart, index);
      cart := RemoveAt(cart, index);
    }

    /** `updateQuantity(index, qty)`: refused below 1, otherwise only that line's quantity changes. */
    method UpdateQuantity(index: int, qty: int)
      requires Valid()
      modifies this`cart
      ensures Valid()
      ensures cart == if qty >= 1 && 0 <= index < |old(cart)|
                      then old(cart)[index := old(cart)[index].WithQuantity(qty)]
                      else old(cart)
    {
      SetQuantitySpec(cart, index, qty);
      SetQuantityValid(cart, index, qty);
      cart := SetQuantity(cart, index, qty);
    }

    /**
     * The row buttons acting on the cart line the row was built from, which
     * may sit elsewhere in the cart when the English view has moved the
     * vehicles ahead. `reply` is the settled answer `translatedCart` was
     * built from, so row `row` is the row `Displayed()` shows.
     */
    method RemoveShownLine(row: int, reply: Option<seq<Product>>)
      requires Valid()
      requires language == En ==> translatedCart == TranslatedView(cart, language, reply)
      modifies this`cart
      ensures Valid()
      ensures cart == RemoveShownRow(old(cart), language, reply, row)
      ensures 0 <= row < |old(Displayed())| ==>
                var idx := ShownRowToCartIndex(old(cart), language, reply, row);
                && 0 <= idx < |old(cart)|
                && old(Displayed())[row].quantity == old(cart)[idx].quantity
                && cart == old(cart)[..idx] + old(cart)[idx + 1..]
    {
      if 0 <= row < |Displayed()| {
        ShownRowOrigin(cart, language, reply, row);
      }
      RemoveAtValid(cart, ShownRowToCartIndex(cart, language, reply, row));
      cart := RemoveShownRow(cart, language, reply, row);
    }

    method UpdateShownQuantity(row: int, qty: int, reply: Option<seq<Product>>)
      requires Valid()
      requires language == En ==> translatedCart == TranslatedView(cart, language, reply)
      modifies this`cart
      ensures Valid()
      ensures cart == SetShownQuantity(old(cart), language, reply, row, qty)
      ensures 0 <= row < |old(Displayed())| && qty >= 1 ==>
                var idx := ShownRowToCartIndex(old(cart), language, reply, row);
                && 0 <= idx < |old(cart)|
                && old(Displayed())[row].quantity == old(cart)[idx].quantity
                && cart == old(cart)[idx := old(cart)[idx].WithQuantity(qty)]
    {
      if 0 <= row < |Displayed()| {
        ShownRowOrigin(cart, language, reply, row);
      }
      SetQuantityValid(cart, ShownRowToCartIndex(cart, language, reply, row), qty);
      cart := SetShownQuantity(cart, language, reply, row, qty);
    }

    /**
     * The translation effect once its call has settled with `reply` (`None`
     * when the call rejected for want of an API key).
     */
    method SyncTranslation(reply: Option<seq<Product>>)
      modifies this`translatedCart
      ensures translatedCart == TranslatedView(cart, language, reply)
    {
      translatedCart := TranslatedView(cart, language, reply);
    }

    /** The lines the document shows. */
    function Displayed(): (shown: seq<CartItem>)
      reads this
      ensures language == Zh ==> shown == cart
      ensures language == En ==> shown == translatedCart
    {
      DisplayCart(language, cart, translatedCart)
    }

    /** `getTotal`: the grand total of the shown lines; in Chinese, that of the cart itself. */
    function GetTotal(): (total: int)
      reads this
      ensures language == Zh ==> total == Total(cart)
      ensures language == En ==> total == Total(translatedCart)
    {
      Total(Displayed())
    }

    /** `exportCSV`: the text of the file for the shown lines. */
    function ExportCsv(): (file: string)
      reads this
      ensures |file| > |DataUriPrefix| && file[..|DataUriPrefix|] == DataUriPrefix
      ensures file[|DataUriPrefix|..] == Join(CsvLines(language, docType, Displayed()), "\n")
    {
      CsvContent(language, docType, Displayed())
    }
  }
}
