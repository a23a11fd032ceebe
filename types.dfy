/** The records of the catalog and the cart (types.ts). */
module Types {
  import opened Seqs

  /** A vehicle of the catalog; `price` is the single tax-inclusive price. */
  datatype Product = Product(
    id: string,
    model: string,
    name: string,
    battery: seq<string>,
    motor: string,
    brakeTire: string,
    seatDash: string,
    controlFunc: string,
    additional: string,
    colors: seq<string>,
    price: int)

  /** An accessory is a battery or a charger, nothing else. */
  datatype Category = Battery | Charger

  datatype Accessory = Accessory(
    id: string,
    category: Category,
    voltage: string,
    capacity: string,
    price: int)

  /**
   * A line of the cart: a vehicle snapshot with its quantity and chosen
   * colour, or an accessory snapshot with its quantity and no colour.
   */
  datatype CartItem =
    | VehicleLine(product: Product, quantity: int, selectedColor: string)
    | AccessoryLine(accessory: Accessory, quantity: int)
  {
    function Id(): string {
      if VehicleLine? then product.id else accessory.id
    }

    function Price(): int {
      if VehicleLine? then product.price else accessory.price
    }

    /** `{ ...item, quantity: q }`: the same line with quantity `q`. */
    function WithQuantity(q: int): CartItem {
      match this
      case VehicleLine(p, _, color) => VehicleLine(p, q, color)
      case AccessoryLine(a, _) => AccessoryLine(a, q)
    }

    /** The line's `type` tag. */
    function TypeTag(): string {
      if VehicleLine? then "vehicle" else "accessory"
    }
  }

  /** What `handleSaveProduct` and `handleUpdateProduct` receive: `Product | Accessory`. */
  datatype CatalogItem = VehicleItem(product: Product) | AccessoryItem(accessory: Accessory)
  {
    function Id(): string {
      if VehicleItem? then product.id else accessory.id
    }
  }

  /** The kind of item a picker or form is working on: `'vehicle' | 'battery' | 'charger'`. */
  datatype ItemCategory = VehicleCategory | AccessoryCategory(kind: Category)

  /** The collection `handleDeleteProduct` works on: `'vehicle' | 'accessory'`. */
  datatype ItemKind = VehicleKind | AccessoryKind

  datatype Language = Zh | En

  datatype DocumentType = Quotation | PriceList

  /** The preset battery labels offered by the vehicle form. */
  const BatteryOptions: seq<string> := ["48V 20Ah", "60V 20Ah", "60V 32Ah", "72V 20Ah", "72V 32Ah"]

  lemma BatteryOptionsDistinct()
    ensures |BatteryOptions| == 5 && NoDuplicates(BatteryOptions)
  {
  }
}
