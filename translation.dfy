/**
 * The translation effect of the quote builder (components/QuoteGenerator.tsx,
 * the effect on `[language, cart]`): the cart is split into vehicle lines and
 * the rest, the vehicles' products go to the translator, and the translated
 * products get back the quantity and colour of the vehicle line in the same
 * position. The translator itself is not modelled: its reply is a parameter.
 * `None` stands for the one way the call rejects, a missing API key
 * (services/geminiService.ts:7-8). A failed request or an empty answer makes
 * the translator return its own input (services/geminiService.ts:55, 59-63):
 * that is the reply `Some(TranslationRequest(cart))`, whose outcome
 * `EchoedTranslation` states. A reply with more products than there are
 * vehicle lines makes the reassembly read past the vehicle list and throw;
 * the effect catches that and shows the untranslated cart.
 */
module Translation {
  import opened Wrappers
  import opened Seqs
  import opened Types
  import opened Cart

  predicate IsVehicle(item: CartItem) {
    item.VehicleLine?
  }

  predicate IsOther(item: CartItem) {
    !item.VehicleLine?
  }

  /** `cart.filter(item => item.type === 'vehicle')`. */
  function Vehicles(cart: seq<CartItem>): (r: seq<CartItem>)
    ensures forall i :: 0 <= i < |r| ==> r[i].VehicleLine?
  {
    Filter(cart, IsVehicle)
  }

  /** `cart.filter(item => item.type !== 'vehicle')`. */
  function Others(cart: seq<CartItem>): (r: seq<CartItem>)
    ensures forall i :: 0 <= i < |r| ==> r[i].AccessoryLine?
  {
    Filter(cart, IsOther)
  }

  /** What the translator is asked to translate: the vehicle lines' products, in order. */
  function TranslationRequest(cart: seq<CartItem>): (r: seq<Product>)
    ensures |r| == |Vehicles(cart)|
    ensures forall i :: 0 <= i < |r| ==> r[i] == Vehicles(cart)[i].product
  {
    var v := Vehicles(cart);
    seq(|v|, i requires 0 <= i < |v| => v[i].product)
  }

  /** The i-th translated product takes the quantity and colour of the i-th vehicle line. */
  function Reattach(vehicles: seq<CartItem>, translated: seq<Product>): (r: seq<CartItem>)
    requires |translated| <= |vehicles|
    requires forall i :: 0 <= i < |vehicles| ==> vehicles[i].VehicleLine?
    ensures |r| == |translated|
    ensures forall i :: 0 <= i < |r| ==>
              && r[i].VehicleLine? && r[i].product == translated[i]
              && r[i].quantity == vehicles[i].quantity && r[i].selectedColor == vehicles[i].selectedColor
  {
    seq(|translated|, i requires 0 <= i < |translated| =>
      VehicleLine(translated[i], vehicles[i].quantity, vehicles[i].selectedColor))
  }

  /**
   * `translatedCart` once the effect has run. In English with a non-empty
   * cart and a reply no longer than the vehicle list, the translated vehicles
   * come first, in request order, then the other lines in cart order. A
   * rejected call (`None`), or a reply longer than the vehicle list (whose
   * extra entries find no `vehicles[index]` and throw), gives the
   * untranslated cart; so does Chinese, or an empty cart.
   */
  function TranslatedView(cart: seq<CartItem>, language: Language, reply: Option<seq<Product>>): (r: seq<CartItem>)
    ensures language == Zh || |cart| == 0 || reply.None? ==> r == cart
    ensures reply.Some? && |reply.value| > |Vehicles(cart)| ==> r == cart
    ensures language == En && |cart| > 0 && reply.Some? && |reply.value| <= |Vehicles(cart)| ==>
              var t := reply.value;
              var v := Vehicles(cart);
              && |r| == |t| + |Others(cart)|
              && (forall i :: 0 <= i < |t| ==>
                    r[i] == VehicleLine(t[i], v[i].quantity, v[i].selectedColor))
              && r[|t|..] == Others(cart)
  {
    if language == En && |cart| > 0 then
      match reply
      case None => cart
      case Some(t) =>
        if |t| <= |Vehicles(cart)| then Reattach(Vehicles(cart), t) + Others(cart) else cart
    else cart
  }

  /** Splitting into vehicles and the rest loses and invents no line. */
  lemma {:induction false} PartitionPermutation(cart: seq<CartItem>)
    ensures multiset(Vehicles(cart) + Others(cart)) == multiset(cart)
  {
    if |cart| > 0 {
      PartitionPermutation(cart[1..]);
      assert cart == [cart[0]] + cart[1..];
    }
  }

  /** The two parts of the split add up to the cart's total. */
  lemma {:induction false} PartitionTotal(cart: seq<CartItem>)
    ensures Total(Vehicles(cart)) + Total(Others(cart)) == Total(cart)
  {
    if |cart| > 0 {
      PartitionTotal(cart[1..]);
      var c := cart[0];
      assert cart == [c] + cart[1..];
      TotalCons(c, cart[1..]);
      if c.VehicleLine? {
        assert Vehicles(cart) == [c] + Vehicles(cart[1..]);
        assert Others(cart) == Others(cart[1..]);
        TotalCons(c, Vehicles(cart[1..]));
      } else {
        assert Vehicles(cart) == Vehicles(cart[1..]);
        assert Others(cart) == [c] + Others(cart[1..]);
        TotalCons(c, Others(cart[1..]));
      }
    }
  }

  lemma TotalCons(c: CartItem, rest: seq<CartItem>)
    ensures Total([c] + rest) == LineTotal(c) + Total(rest)
  {
    TotalConcat([c], rest);
    assert [c][..0] == [];
  }

  /** Two lists whose lines have equal line totals have equal totals. */
  lemma {:induction false} TotalPointwise(a: seq<CartItem>, b: seq<CartItem>)
    requires |a| == |b|
    requires forall i :: 0 <= i < |a| ==> LineTotal(a[i]) == LineTotal(b[i])
    ensures Total(a) == Total(b)
  {
    if |a| > 0 {
      TotalPointwise(a[..|a| - 1], b[..|b| - 1]);
    }
  }

  /**
   * When the translator echoes its input, the English cart holds exactly the
   * cart's lines with every vehicle line moved ahead of the other lines.
   */
  lemma EchoedTranslation(cart: seq<CartItem>)
    requires |cart| > 0
    ensures TranslatedView(cart, En, Some(TranslationRequest(cart))) == Vehicles(cart) + Others(cart)
    ensures multiset(TranslatedView(cart, En, Some(TranslationRequest(cart)))) == multiset(cart)
  {
    var v := Vehicles(cart);
    var t := TranslationRequest(cart);
    assert Reattach(v, t) == v;
    PartitionPermutation(cart);
  }

  /**
   * The English grand total equals the Chinese one when the translator
   * returns one product per vehicle with the price unchanged.
   */
  lemma TranslatedTotal(cart: seq<CartItem>, t: seq<Product>)
    requires |t| == |Vehicles(cart)|
    requires forall i :: 0 <= i < |t| ==> t[i].price == Vehicles(cart)[i].product.price
    ensures Total(TranslatedView(cart, En, Some(t))) == Total(cart)
  {
    if |cart| > 0 {
      var v := Vehicles(cart);
      var re := Reattach(v, t);
      TotalPointwise(re, v);
      TotalConcat(re, Others(cart));
      PartitionTotal(cart);
    }
  }

  /**
   * The reassembly does not keep the cart's order: an accessory added before
   * a vehicle is listed after it once the cart is shown in English.
   */
  lemma VehiclesMoveAhead(p: Product, a: Accessory)
    ensures var cart := [AccessoryLine(a, 1), VehicleLine(p, 1, "Red")];
            TranslatedView(cart, En, Some([p])) == [VehicleLine(p, 1, "Red"), AccessoryLine(a, 1)] != cart
  {
    var cart := [AccessoryLine(a, 1), VehicleLine(p, 1, "Red")];
    assert cart[1..][1..] == [];
    assert Filter(cart[1..][1..], IsVehicle) == [] && Filter(cart[1..][1..], IsOther) == [];
    assert Filter(cart[1..], IsVehicle) == [VehicleLine(p, 1, "Red")];
    assert Filter(cart[1..], IsOther) == [];
    assert Vehicles(cart) == [VehicleLine(p, 1, "Red")];
    assert Others(cart) == [AccessoryLine(a, 1)];
  }

  // ---------------------------------------------------------------------
  // Rows of the shown table and lines of the cart

  /** The English view was reassembled from a reply rather than copied from the cart. */
  predicate Reassembled(cart: seq<CartItem>, language: Language, reply: Option<seq<Product>>) {
    language == En && |cart| > 0 && reply.Some? && |reply.value| <= |Vehicles(cart)|
  }

  /**
   * The position in the cart of the line that row `row` of the shown table
   * was built from: a translated vehicle row comes from the vehicle line with
   * the same rank among vehicles, another row from the line with the same
   * rank among the other lines. Wherever the view is the cart itself, the
   * row is the position.
   */
  function ShownRowToCartIndex(cart: seq<CartItem>, language: Language, reply: Option<seq<Product>>, row: int): (idx: int)
    ensures 0 <= row < |TranslatedView(cart, language, reply)| ==> 0 <= idx < |cart|
    ensures !Reassembled(cart, language, reply) ==> idx == row
  {
    if Reassembled(cart, language, reply) then
      var t := reply.value;
      assert |TranslatedView(cart, language, reply)| == |t| + |Others(cart)|;
      if 0 <= row < |t| then
        NthIndexSpec(cart, IsVehicle, row);
        NthIndex(cart, IsVehicle, row)
      else if |t| <= row < |t| + |Others(cart)| then
        NthIndexSpec(cart, IsOther, row - |t|);
        NthIndex(cart, IsOther, row - |t|)
      else -1
    else
      assert TranslatedView(cart, language, reply) == cart;
      row
  }

  /**
   * Every shown row comes from the cart line `ShownRowToCartIndex` names: an
   * untranslated row is that line, a translated one has its quantity and
   * colour and the translation of its product.
   */
  lemma ShownRowOrigin(cart: seq<CartItem>, language: Language, reply: Option<seq<Product>>, row: int)
    requires 0 <= row < |TranslatedView(cart, language, reply)|
    ensures var idx := ShownRowToCartIndex(cart, language, reply, row);
            var shown := TranslatedView(cart, language, reply)[row];
            && 0 <= idx < |cart|
            && shown.quantity == cart[idx].quantity
            && (!Reassembled(cart, language, reply) || row >= |reply.value| ==> shown == cart[idx])
            && (Reassembled(cart, language, reply) && row < |reply.value| ==>
                  && cart[idx].VehicleLine? && shown.selectedColor == cart[idx].selectedColor
                  && cart[idx].product == TranslationRequest(cart)[row]
                  && shown.product == reply.value[row])
  {
    if !Reassembled(cart, language, reply) {
      assert TranslatedView(cart, language, reply) == cart;
    } else if row < |reply.value| {
      ShownVehicleRow(cart, language, reply, row);
    } else {
      ShownOtherRow(cart, language, reply, row);
    }
  }

  lemma ShownVehicleRow(cart: seq<CartItem>, language: Language, reply: Option<seq<Product>>, row: int)
    requires Reassembled(cart, language, reply) && 0 <= row < |reply.value|
    ensures var idx := ShownRowToCartIndex(cart, language, reply, row);
            && 0 <= idx < |cart| && cart[idx].VehicleLine?
            && cart[idx].product == TranslationRequest(cart)[row]
            && TranslatedView(cart, language, reply)[row]
                 == VehicleLine(reply.value[row], cart[idx].quantity, cart[idx].selectedColor)
  {
    var t := reply.value;
    var v := Vehicles(cart);
    var idx := ShownRowToCartIndex(cart, language, reply, row);
    assert idx == NthIndex(cart, IsVehicle, row);
    NthIndexSpec(cart, IsVehicle, row);
    assert cart[idx] == v[row];
    assert TranslatedView(cart, language, reply)[row] == VehicleLine(t[row], v[row].quantity, v[row].selectedColor);
  }

  lemma ShownOtherRow(cart: seq<CartItem>, language: Language, reply: Option<seq<Product>>, row: int)
    requires Reassembled(cart, language, reply)
    requires |reply.value| <= row < |TranslatedView(cart, language, reply)|
    ensures var idx := ShownRowToCartIndex(cart, language, reply, row);
            0 <= idx < |cart| && TranslatedView(cart, language, reply)[row] == cart[idx]
  {
    var t := reply.value;
    var view := TranslatedView(cart, language, reply);
    assert |view| == |t| + |Others(cart)|;
    var idx := ShownRowToCartIndex(cart, language, reply, row);
    assert idx == NthIndex(cart, IsOther, row - |t|);
    NthIndexSpec(cart, IsOther, row - |t|);
    assert view[row] == view[|t|..][row - |t|];
  }

  /** `removeFromCart` on the line a shown row was built from. */
  function RemoveShownRow(cart: seq<CartItem>, language: Language, reply: Option<seq<Product>>, row: int): (r: seq<CartItem>)
    ensures 0 <= row < |TranslatedView(cart, language, reply)| ==>
              var idx := ShownRowToCartIndex(cart, language, reply, row);
              r == cart[..idx] + cart[idx + 1..]
  {
    RemoveAtSpec(cart, ShownRowToCartIndex(cart, language, reply, row));
    RemoveAt(cart, ShownRowToCartIndex(cart, language, reply, row))
  }

  /** `updateQuantity` on the line a shown row was built from. */
  function SetShownQuantity(cart: seq<CartItem>, language: Language, reply: Option<seq<Product>>, row: int, qty: int): (r: seq<CartItem>)
    ensures 0 <= row < |TranslatedView(cart, language, reply)| && qty >= 1 ==>
              var idx := ShownRowToCartIndex(cart, language, reply, row);
              r == cart[idx := cart[idx].WithQuantity(qty)]
    ensures qty < 1 ==> r == cart
  {
    SetQuantitySpec(cart, ShownRowToCartIndex(cart, language, reply, row), qty);
    SetQuantity(cart, ShownRowToCartIndex(cart, language, reply, row), qty)
  }

  /**
   * The table's delete button passes the row's position in the shown list to
   * `removeFromCart`, which reads it as a position in the cart. With an
   * accessory added before a vehicle and the English view shown, deleting the
   * vehicle's row deletes the accessory and keeps the vehicle.
   */
  lemma ShownIndexRemovesOtherLine(p: Product, a: Accessory)
    ensures var cart := [AccessoryLine(a, 1), VehicleLine(p, 1, "Red")];
            && TranslatedView(cart, En, Some(TranslationRequest(cart)))[0] == VehicleLine(p, 1, "Red")
            && RemoveAt(cart, 0) == [VehicleLine(p, 1, "Red")]
  {
    var cart := [AccessoryLine(a, 1), VehicleLine(p, 1, "Red")];
    VehiclesMoveAhead(p, a);
    assert TranslationRequest(cart) == [p];
    assert RemoveAt(cart[1..], -1) == [VehicleLine(p, 1, "Red")];
  }

  /**
   * The same mix-up on the quantity buttons: "+" on the vehicle's row writes
   * the vehicle's quantity plus one into the accessory's line.
   */
  lemma ShownIndexChangesOtherLine(p: Product, a: Accessory)
    ensures var cart := [AccessoryLine(a, 1), VehicleLine(p, 1, "Red")];
            var shown := TranslatedView(cart, En, Some(TranslationRequest(cart)));
            && shown[0] == VehicleLine(p, 1, "Red")
            && SetQuantity(cart, 0, shown[0].quantity + 1) == [AccessoryLine(a, 2), VehicleLine(p, 1, "Red")]
  {
    var cart := [AccessoryLine(a, 1), VehicleLine(p, 1, "Red")];
    VehiclesMoveAhead(p, a);
    assert TranslationRequest(cart) == [p];
  }

  /** Mapped back to its cart line, the vehicle's row acts on the vehicle. */
  lemma ShownRowActsOnItsLine(p: Product, a: Accessory)
    ensures var cart := [AccessoryLine(a, 1), VehicleLine(p, 1, "Red")];
            var reply := Some(TranslationRequest(cart));
            && RemoveShownRow(cart, En, reply, 0) == [AccessoryLine(a, 1)]
            && SetShownQuantity(cart, En, reply, 0, 2) == [AccessoryLine(a, 1), VehicleLine(p, 2, "Red")]
  {
    var cart := [AccessoryLine(a, 1), VehicleLine(p, 1, "Red")];
    VehiclesMoveAhead(p, a);
    assert TranslationRequest(cart) == [p];
    ShownRowOrigin(cart, En, Some([p]), 0);
    assert ShownRowToCartIndex(cart, En, Some([p]), 0) == 1;
  }
}
