/**
 * The cart engine of the quote builder (components/QuoteGenerator.tsx):
 * what `addToCart`, `removeFromCart`, `updateQuantity` and `getTotal` do to
 * the list of lines, as functions of the old list, and the facts that make
 * the list a well-formed cart.
 */
module Cart {
  import opened Wrappers
  import opened Seqs
  import opened Types

  /**
   * The identity under which `addToCart` merges lines: a vehicle by its id and
   * chosen colour, an accessory by its id alone.
   */
  datatype LineKey = VehicleKey(id: string, color: string) | AccessoryKey(id: string)

  function KeyOf(item: CartItem): LineKey {
    match item
    case VehicleLine(p, _, color) => VehicleKey(p.id, color)
    case AccessoryLine(a, _) => AccessoryKey(a.id)
  }

  /** Every quantity is at least 1 and no two lines share a merge key. */
  predicate ValidCart(cart: seq<CartItem>) {
    && (forall i :: 0 <= i < |cart| ==> cart[i].quantity >= 1)
    && (forall i, j :: 0 <= i < j < |cart| ==> KeyOf(cart[i]) != KeyOf(cart[j]))
  }

  /**
   * The colour a vehicle is added in: the chosen one when one was chosen, else
   * the vehicle's first colour, else "Standard".
   */
  function ResolveColor(chosen: string, product: Product): (c: string)
    ensures chosen != "" ==> c == chosen
    ensures chosen == "" && |product.colors| > 0 ==> c == product.colors[0]
    ensures chosen == "" && |product.colors| == 0 ==> c == "Standard"
  {
    if chosen != "" then chosen
    else if |product.colors| > 0 then product.colors[0]
    else "Standard"
  }

  /** The line of `cart` with key `k`, found as `prev.find(...)` finds it. */
  function FindLine(cart: seq<CartItem>, k: LineKey): Option<CartItem> {
    FindFirst(cart, (item: CartItem) => KeyOf(item) == k)
  }

  /** Every line with key `k` gets one more unit; the others are kept. */
  function Bump(cart: seq<CartItem>, k: LineKey): seq<CartItem> {
    seq(|cart|, i requires 0 <= i < |cart| =>
      if KeyOf(cart[i]) == k then cart[i].WithQuantity(cart[i].quantity + 1) else cart[i])
  }

  /** Merge `line` into the cart: one more unit of the matching line, or `line` appended. */
  function AddLine(cart: seq<CartItem>, line: CartItem): seq<CartItem> {
    if FindLine(cart, KeyOf(line)).Some? then Bump(cart, KeyOf(line)) else cart + [line]
  }

  /**
   * The cart after `addToCart` with the picker in state (`active`, `selectedId`,
   * `selectedColor`) over the given catalog.
   */
  function AddSelection(cart: seq<CartItem>, products: seq<Product>, accessories: seq<Accessory>,
                        active: ItemCategory, selectedId: string, selectedColor: string): (r: seq<CartItem>)
    ensures |r| == |cart| || |r| == |cart| + 1
    ensures forall i :: 0 <= i < |cart| ==>
              KeyOf(r[i]) == KeyOf(cart[i]) && r[i].quantity - cart[i].quantity in {0, 1}
    ensures |r| == |cart| + 1 ==> r[|cart|].quantity == 1
  {
    if selectedId == "" then cart
    else if active == VehicleCategory then
      (match FindFirst(products, (p: Product) => p.id == selectedId)
       case None => cart
       case Some(p) => AddLine(cart, VehicleLine(p, 1, ResolveColor(selectedColor, p))))
    else
      (match FindFirst(accessories, (a: Accessory) => a.id == selectedId)
       case None => cart
       case Some(a) => AddLine(cart, AccessoryLine(a, 1)))
  }

  /** `prev.filter((_, i) => i !== index)`, walking the list with the index counted down. */
  function RemoveAt(cart: seq<CartItem>, index: int): (r: seq<CartItem>)
    ensures |r| == if 0 <= index < |cart| then |cart| - 1 else |cart|
  {
    if |cart| == 0 then []
    else (if index == 0 then [] else [cart[0]]) + RemoveAt(cart[1..], index - 1)
  }

  /** `updateQuantity`: nothing below 1; otherwise the line at `index` takes quantity `qty`. */
  function SetQuantity(cart: seq<CartItem>, index: int, qty: int): (r: seq<CartItem>)
    ensures |r| == |cart|
    ensures forall i :: 0 <= i < |cart| ==> KeyOf(r[i]) == KeyOf(cart[i])
    ensures forall i :: 0 <= i < |cart| && (i != index || qty < 1) ==> r[i] == cart[i]
  {
    if qty < 1 then cart
    else
      seq(|cart|, i requires 0 <= i < |cart| => if i == index then cart[i].WithQuantity(qty) else cart[i])
  }

  function LineTotal(item: CartItem): int {
    item.Price() * item.quantity
  }

  /** No line has a negative price or quantity. */
  predicate NoNegativeLine(cart: seq<CartItem>) {
    forall i :: 0 <= i < |cart| ==> cart[i].Price() >= 0 && cart[i].quantity >= 0
  }

  /** `reduce((sum, item) => sum + item.price * item.quantity, 0)`, folding from the left. */
  function Total(cart: seq<CartItem>): int {
    if |cart| == 0 then 0 else Total(cart[..|cart| - 1]) + LineTotal(cart[|cart| - 1])
  }

  /** A cart with no negative price or quantity has a total of at least 0. */
  lemma {:induction false} TotalNonNegative(cart: seq<CartItem>)
    requires NoNegativeLine(cart)
    ensures Total(cart) >= 0
  {
    if |cart| > 0 {
      var front := cart[..|cart| - 1];
      assert forall i :: 0 <= i < |front| ==> front[i] == cart[i];
      TotalNonNegative(front);
      var last := cart[|cart| - 1];
      assert last.Price() >= 0 && last.quantity >= 0;
      MulNonNegative(last.Price(), last.quantity);
    }
  }

  lemma MulNonNegative(a: int, b: int)
    requires a >= 0 && b >= 0
    ensures a * b >= 0
  {
  }

  /** `displayCart`: the translated cart in English, the cart itself in Chinese. */
  function DisplayCart(language: Language, cart: seq<CartItem>, translated: seq<CartItem>): (r: seq<CartItem>)
    ensures language == Zh ==> r == cart
    ensures language == En ==> r == translated
  {
    if language == En then translated else cart
  }

  // ---------------------------------------------------------------------
  // Merging

  /** When a line with the same key exists, only that line gains one unit. */
  lemma AddLineMerges(cart: seq<CartItem>, line: CartItem, i: int)
    requires ValidCart(cart)
    requires 0 <= i < |cart| && KeyOf(cart[i]) == KeyOf(line)
    ensures AddLine(cart, line) == cart[i := cart[i].WithQuantity(cart[i].quantity + 1)]
  {
    assert FindLine(cart, KeyOf(line)).Some?;
    var r := AddLine(cart, line);
    assert |r| == |cart|;
    forall j | 0 <= j < |cart|
      ensures r[j] == cart[i := cart[i].WithQuantity(cart[i].quantity + 1)][j]
    {
      if j != i {
        assert KeyOf(cart[j]) != KeyOf(cart[i]);
      }
    }
  }

  /** When no line has the key, the new line is appended at the end. */
  lemma AddLineAppends(cart: seq<CartItem>, line: CartItem)
    requires forall i :: 0 <= i < |cart| ==> KeyOf(cart[i]) != KeyOf(line)
    ensures AddLine(cart, line) == cart + [line]
  {
  }

  /** Merging or appending a line of quantity 1 keeps the cart well formed. */
  lemma AddLineValid(cart: seq<CartItem>, line: CartItem)
    requires ValidCart(cart) && line.quantity == 1
    ensures ValidCart(AddLine(cart, line))
  {
    var k := KeyOf(line);
    if FindLine(cart, k).Some? {
      var r := Bump(cart, k);
      assert forall i :: 0 <= i < |cart| ==> KeyOf(r[i]) == KeyOf(cart[i]);
    } else {
      var r := cart + [line];
      forall i, j | 0 <= i < j < |r| ensures KeyOf(r[i]) != KeyOf(r[j]) {
        if j == |cart| {
          assert r[i] == cart[i];
        }
      }
    }
  }

  /** `addToCart` keeps the cart well formed. */
  lemma AddSelectionValid(cart: seq<CartItem>, products: seq<Product>, accessories: seq<Accessory>,
                          active: ItemCategory, selectedId: string, selectedColor: string)
    requires ValidCart(cart)
    ensures ValidCart(AddSelection(cart, products, accessories, active, selectedId, selectedColor))
  {
    if selectedId != "" {
      if active == VehicleCategory {
        match FindFirst(products, (p: Product) => p.id == selectedId)
        case None =>
        case Some(p) => AddLineValid(cart, VehicleLine(p, 1, ResolveColor(selectedColor, p)));
      } else {
        match FindFirst(accessories, (a: Accessory) => a.id == selectedId)
        case None =>
        case Some(a) => AddLineValid(cart, AccessoryLine(a, 1));
      }
    }
  }

  /**
   * `addToCart` with nothing selected, or with an id the active catalog does
   * not hold, leaves the cart as it was.
   */
  lemma AddSelectionUnknownId(cart: seq<CartItem>, products: seq<Product>, accessories: seq<Accessory>,
                              active: ItemCategory, selectedId: string, selectedColor: string)
    requires selectedId == ""
          || (active == VehicleCategory && forall i :: 0 <= i < |products| ==> products[i].id != selectedId)
          || (active != VehicleCategory && forall i :: 0 <= i < |accessories| ==> accessories[i].id != selectedId)
    ensures AddSelection(cart, products, accessories, active, selectedId, selectedColor) == cart
  {
  }

  /**
   * Adding a vehicle that is in the catalog: the first vehicle with the id is
   * taken, in the resolved colour; the line with that id and colour gains one
   * unit if there is one, otherwise a line of quantity 1 is appended.
   */
  lemma AddVehicle(cart: seq<CartItem>, products: seq<Product>, accessories: seq<Accessory>,
                   selectedId: string, selectedColor: string, n: int)
    requires ValidCart(cart) && selectedId != ""
    requires 0 <= n < |products| && products[n].id == selectedId
    requires forall m :: 0 <= m < n ==> products[m].id != selectedId
    ensures var p := products[n];
            var color := ResolveColor(selectedColor, p);
            var r := AddSelection(cart, products, accessories, VehicleCategory, selectedId, selectedColor);
            (exists i :: 0 <= i < |cart| && KeyOf(cart[i]) == VehicleKey(selectedId, color)
                         && r == cart[i := cart[i].WithQuantity(cart[i].quantity + 1)])
            || ((forall i :: 0 <= i < |cart| ==> KeyOf(cart[i]) != VehicleKey(selectedId, color))
                && r == cart + [VehicleLine(p, 1, color)])
  {
    var found := FindFirst(products, (p: Product) => p.id == selectedId);
    assert found == Some(products[n]);
    var p := products[n];
    var line := VehicleLine(p, 1, ResolveColor(selectedColor, p));
    match FindLine(cart, KeyOf(line))
    case Some(_) =>
      var i :| 0 <= i < |cart| && KeyOf(cart[i]) == KeyOf(line);
      AddLineMerges(cart, line, i);
    case None =>
  }

  /** Adding an accessory in the catalog merges on its id alone. */
  lemma AddAccessory(cart: seq<CartItem>, products: seq<Product>, accessories: seq<Accessory>,
                     kind: Category, selectedId: string, selectedColor: string, n: int)
    requires ValidCart(cart) && selectedId != ""
    requires 0 <= n < |accessories| && accessories[n].id == selectedId
    requires forall m :: 0 <= m < n ==> accessories[m].id != selectedId
    ensures var a := accessories[n];
            var r := AddSelection(cart, products, accessories, AccessoryCategory(kind), selectedId, selectedColor);
            (exists i :: 0 <= i < |cart| && KeyOf(cart[i]) == AccessoryKey(selectedId)
                         && r == cart[i := cart[i].WithQuantity(cart[i].quantity + 1)])
            || ((forall i :: 0 <= i < |cart| ==> KeyOf(cart[i]) != AccessoryKey(selectedId))
                && r == cart + [AccessoryLine(a, 1)])
  {
    var found := FindFirst(accessories, (a: Accessory) => a.id == selectedId);
    assert found == Some(accessories[n]);
    var line := AccessoryLine(accessories[n], 1);
    match FindLine(cart, KeyOf(line))
    case Some(_) =>
      var i :| 0 <= i < |cart| && KeyOf(cart[i]) == KeyOf(line);
      AddLineMerges(cart, line, i);
    case None =>
  }

  /** Adding the same vehicle in the same colour twice gives one line of quantity 2. */
  lemma SameVehicleTwice(products: seq<Product>, accessories: seq<Accessory>, id: string, color: string, n: int)
    requires id != "" && 0 <= n < |products| && products[n].id == id
    requires forall m :: 0 <= m < n ==> products[m].id != id
    ensures var once := AddSelection([], products, accessories, VehicleCategory, id, color);
            AddSelection(once, products, accessories, VehicleCategory, id, color)
              == [VehicleLine(products[n], 2, ResolveColor(color, products[n]))]
  {
    var p := products[n];
    var line := VehicleLine(p, 1, ResolveColor(color, p));
    AddVehicle([], products, accessories, id, color, n);
    assert AddSelection([], products, accessories, VehicleCategory, id, color) == [line];
    AddVehicle([line], products, accessories, id, color, n);
  }

  /** The same vehicle in two different chosen colours gives two lines. */
  lemma TwoColoursTwoLines(products: seq<Product>, accessories: seq<Accessory>, id: string, c1: string, c2: string, n: int)
    requires id != "" && 0 <= n < |products| && products[n].id == id
    requires forall m :: 0 <= m < n ==> products[m].id != id
    requires c1 != "" && c2 != "" && c1 != c2
    ensures var once := AddSelection([], products, accessories, VehicleCategory, id, c1);
            AddSelection(once, products, accessories, VehicleCategory, id, c2)
              == [VehicleLine(products[n], 1, c1), VehicleLine(products[n], 1, c2)]
  {
    var p := products[n];
    AddVehicle([], products, accessories, id, c1, n);
    assert AddSelection([], products, accessories, VehicleCategory, id, c1) == [VehicleLine(p, 1, c1)];
    AddVehicle([VehicleLine(p, 1, c1)], products, accessories, id, c2, n);
  }

  // ---------------------------------------------------------------------
  // Removing and changing quantities

  /**
   * `removeFromCart(index)` deletes exactly the line at `index`, keeping the
   * others in order; an index outside the cart changes nothing.
   */
  lemma {:induction false} RemoveAtSpec(cart: seq<CartItem>, index: int)
    ensures RemoveAt(cart, index) == if 0 <= index < |cart| then cart[..index] + cart[index + 1..] else cart
  {
    if |cart| > 0 {
      var tail := cart[1..];
      RemoveAtSpec(tail, index - 1);
      assert RemoveAt(cart, index) == (if index == 0 then [] else [cart[0]]) + RemoveAt(tail, index - 1);
      if index == 0 {
        assert cart[..0] + cart[1..] == tail;
      } else if 0 < index < |cart| {
        assert tail[..index - 1] == cart[1..index] && tail[index..] == cart[index + 1..];
        assert cart[..index] == [cart[0]] + cart[1..index];
        assert [cart[0]] + (cart[1..index] + cart[index + 1..]) == ([cart[0]] + cart[1..index]) + cart[index + 1..];
      } else {
        assert cart == [cart[0]] + tail;
      }
    }
  }

  /** Removing a line keeps the cart well formed. */
  lemma RemoveAtValid(cart: seq<CartItem>, index: int)
    requires ValidCart(cart)
    ensures ValidCart(RemoveAt(cart, index))
  {
    RemoveAtSpec(cart, index);
    if 0 <= index < |cart| {
      var r := cart[..index] + cart[index + 1..];
      assert forall i :: 0 <= i < |r| ==> r[i] == cart[if i < index then i else i + 1];
    }
  }

  /**
   * `updateQuantity(index, qty)` is a no-op below 1 or outside the cart;
   * otherwise only the quantity of the line at `index` changes.
   */
  lemma SetQuantitySpec(cart: seq<CartItem>, index: int, qty: int)
    ensures SetQuantity(cart, index, qty)
         == if qty >= 1 && 0 <= index < |cart| then cart[index := cart[index].WithQuantity(qty)] else cart
  {
  }

  /** Changing a quantity keeps the cart well formed. */
  lemma SetQuantityValid(cart: seq<CartItem>, index: int, qty: int)
    requires ValidCart(cart)
    ensures ValidCart(SetQuantity(cart, index, qty))
  {
    var r := SetQuantity(cart, index, qty);
    assert forall i :: 0 <= i < |r| ==> KeyOf(r[i]) == KeyOf(cart[i]);
  }

  // ---------------------------------------------------------------------
  // Any sequence of cart operations

  /** One user action on the cart, with the picker state it reads. */
  datatype CartOp =
    | AddOp(active: ItemCategory, selectedId: string, selectedColor: string)
    | RemoveOp(index: int)
    | UpdateOp(index: int, qty: int)

  /** Each action adds at most one line. */
  function Apply(cart: seq<CartItem>, products: seq<Product>, accessories: seq<Accessory>, op: CartOp): (r: seq<CartItem>)
    ensures |r| <= |cart| + 1
    ensures !op.AddOp? ==> |r| <= |cart|
  {
    match op
    case AddOp(active, id, color) => AddSelection(cart, products, accessories, active, id, color)
    case RemoveOp(index) => RemoveAt(cart, index)
    case UpdateOp(index, qty) => SetQuantity(cart, index, qty)
  }

  /** The actions in order; the cart grows by at most one line per action. */
  function ApplyAll(cart: seq<CartItem>, products: seq<Product>, accessories: seq<Accessory>, ops: seq<CartOp>): (r: seq<CartItem>)
    ensures |r| <= |cart| + |ops|
    decreases |ops|
  {
    if |ops| == 0 then cart else ApplyAll(Apply(cart, products, accessories, ops[0]), products, accessories, ops[1..])
  }

  /**
   * Starting from a well-formed cart (the empty one, say), any sequence of
   * add, remove and update leaves every quantity at least 1 and every merge
   * key on one line only.
   */
  lemma {:induction false} ApplyAllValid(cart: seq<CartItem>, products: seq<Product>, accessories: seq<Accessory>, ops: seq<CartOp>)
    requires ValidCart(cart)
    ensures ValidCart(ApplyAll(cart, products, accessories, ops))
    decreases |ops|
  {
    if |ops| > 0 {
      match ops[0] {
        case AddOp(active, id, color) => AddSelectionValid(cart, products, accessories, active, id, color);
        case RemoveOp(index) => RemoveAtValid(cart, index);
        case UpdateOp(index, qty) => SetQuantityValid(cart, index, qty);
      }
      ApplyAllValid(Apply(cart, products, accessories, ops[0]), products, accessories, ops[1..]);
    }
  }

  // ---------------------------------------------------------------------
  // Totals

  lemma {:induction false} TotalConcat(a: seq<CartItem>, b: seq<CartItem>)
    ensures Total(a + b) == Total(a) + Total(b)
    decreases |b|
  {
    if |b| == 0 {
      assert a + b == a;
    } else {
      var b' := b[..|b| - 1];
      assert (a + b)[..|a + b| - 1] == a + b';
      TotalConcat(a, b');
    }
  }

  /** Replacing one line changes the total by the difference of the two line totals. */
  lemma {:induction false} TotalUpdate(cart: seq<CartItem>, i: int, x: CartItem)
    requires 0 <= i < |cart|
    ensures Total(cart[i := x]) == Total(cart) - LineTotal(cart[i]) + LineTotal(x)
  {
    assert cart == cart[..i] + [cart[i]] + cart[i + 1..];
    assert cart[i := x] == cart[..i] + [x] + cart[i + 1..];
    TotalConcat(cart[..i] + [cart[i]], cart[i + 1..]);
    TotalConcat(cart[..i] + [x], cart[i + 1..]);
    TotalConcat(cart[..i], [cart[i]]);
    TotalConcat(cart[..i], [x]);
  }

  /**
   * Adding one unit raises the total by one unit price: that of the line it
   * merges into, or that of the appended line.
   */
  lemma AddLineTotal(cart: seq<CartItem>, line: CartItem)
    requires ValidCart(cart)
    ensures FindLine(cart, KeyOf(line)).Some? ==>
              Total(AddLine(cart, line)) == Total(cart) + FindLine(cart, KeyOf(line)).value.Price()
    ensures FindLine(cart, KeyOf(line)).None? ==>
              Total(AddLine(cart, line)) == Total(cart) + LineTotal(line)
  {
    var found := FindLine(cart, KeyOf(line));
    if found.Some? {
      var i :| 0 <= i < |cart| && cart[i] == found.value && KeyOf(cart[i]) == KeyOf(line);
      MergedTotal(cart, line, i);
    } else {
      TotalConcat(cart, [line]);
      assert [line][..0] == [];
    }
  }

  lemma MergedTotal(cart: seq<CartItem>, line: CartItem, i: int)
    requires ValidCart(cart)
    requires 0 <= i < |cart| && KeyOf(cart[i]) == KeyOf(line)
    ensures Total(AddLine(cart, line)) == Total(cart) + cart[i].Price()
  {
    AddLineMerges(cart, line, i);
    BumpedTotal(cart, i);
  }

  /** One more unit on line `i` adds that line's unit price to the total. */
  lemma BumpedTotal(cart: seq<CartItem>, i: int)
    requires 0 <= i < |cart|
    ensures Total(cart[i := cart[i].WithQuantity(cart[i].quantity + 1)]) == Total(cart) + cart[i].Price()
  {
    var x := cart[i].WithQuantity(cart[i].quantity + 1);
    TotalUpdate(cart, i, x);
    WithQuantityTotal(cart[i], cart[i].quantity + 1);
    MulDistributes(cart[i].Price(), cart[i].quantity + 1, cart[i].quantity);
  }

  lemma TotalWithout(cart: seq<CartItem>, index: int)
    requires 0 <= index < |cart|
    ensures Total(cart[..index] + cart[index + 1..]) == Total(cart) - LineTotal(cart[index])
  {
    var front, b := cart[..index + 1], cart[index + 1..];
    assert cart == front + b;
    TotalConcat(front, b);
    assert front[..|front| - 1] == cart[..index];
    TotalConcat(cart[..index], b);
  }

  /** Removing the line at `index` lowers the total by that line's total. */
  lemma RemoveAtTotal(cart: seq<CartItem>, index: int)
    ensures Total(RemoveAt(cart, index))
         == if 0 <= index < |cart| then Total(cart) - LineTotal(cart[index]) else Total(cart)
  {
    RemoveAtSpec(cart, index);
    if 0 <= index < |cart| {
      TotalWithout(cart, index);
    }
  }

  /** Setting a quantity changes the total by the unit price times the change. */
  lemma SetQuantityTotal(cart: seq<CartItem>, index: int, qty: int)
    requires 0 <= index < |cart| && qty >= 1
    ensures Total(SetQuantity(cart, index, qty)) == Total(cart) + cart[index].Price() * (qty - cart[index].quantity)
  {
    SetQuantitySpec(cart, index, qty);
    var x := cart[index].WithQuantity(qty);
    TotalUpdate(cart, index, x);
    WithQuantityTotal(cart[index], qty);
    MulDistributes(cart[index].Price(), qty, cart[index].quantity);
  }

  lemma WithQuantityTotal(item: CartItem, q: int)
    ensures LineTotal(item.WithQuantity(q)) == item.Price() * q
  {
  }

  lemma MulDistributes(a: int, b: int, c: int)
    ensures a * b - a * c == a * (b - c)
  {
  }

  /** Two vehicles at 10000 and one accessory at 500 make a grand total of 20500. */
  lemma GrandTotalExample(a: Product, b: Accessory)
    requires a.price == 10000 && b.price == 500
    ensures Total([VehicleLine(a, 2, "Red"), AccessoryLine(b, 1)]) == 20500
  {
    var cart := [VehicleLine(a, 2, "Red"), AccessoryLine(b, 1)];
    assert cart[..1] == [VehicleLine(a, 2, "Red")];
    assert cart[..1][..0] == [];
    assert Total(cart[..1]) == 20000;
  }
}
