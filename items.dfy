/**
 * One ordered drink (OrderItem.java): the customer it belongs to and its kind.
 * An item never changes once created; its owner and kind are the datatype's fields.
 */
module Items {

  /** The two kinds of drink (OrderItem.ItemType). */
  datatype ItemType = Tea | Coffee

  /**
   * Java compares OrderItem objects by identity (equals is not overridden), so two
   * items of the same customer and kind are still different items. The `id` stands
   * for that identity: the cafe gives every item it creates a fresh one.
   */
  datatype OrderItem = OrderItem(id: nat, customerName: string, itemType: ItemType)

  const TeaBrewTimeMs: nat := 30000
  const CoffeeBrewTimeMs: nat := 45000

  /** How long the brewing of the item takes, in milliseconds (getBrewTimeMs). */
  function BrewTimeMs(item: OrderItem): (ms: nat)
    ensures ms > 0
    ensures ms <= CoffeeBrewTimeMs
  {
    if item.itemType == Tea then TeaBrewTimeMs else CoffeeBrewTimeMs
  }

  lemma BrewTimeByKind(item: OrderItem)
    ensures item.itemType == Tea ==> BrewTimeMs(item) == 30000
    ensures item.itemType == Coffee ==> BrewTimeMs(item) == 45000
  {
  }

  /** The name of the enum constant, as Java's Enum.toString gives it. */
  function KindName(t: ItemType): (s: string)
    ensures |s| >= 3
  {
    match t
    case Tea => "TEA"
    case Coffee => "COFFEE"
  }

  /** toString: the kind's name, " for ", then the customer's name. */
  function Describe(item: OrderItem): (s: string)
    ensures |s| == |KindName(item.itemType)| + 5 + |item.customerName|
    ensures s[..|KindName(item.itemType)|] == KindName(item.itemType)
    ensures s[|s| - |item.customerName|..] == item.customerName
    ensures s[|KindName(item.itemType)|..|s| - |item.customerName|] == " for "
  {
    KindName(item.itemType) + " for " + item.customerName
  }

  /** The text of an item tells its kind and its owner apart from every other item's. */
  lemma DescribeDeterminesKindAndOwner(a: OrderItem, b: OrderItem)
    requires Describe(a) == Describe(b)
    ensures a.itemType == b.itemType
    ensures a.customerName == b.customerName
  {
    var s := Describe(a);
    assert s[0] == KindName(a.itemType)[0] == KindName(b.itemType)[0];
    assert |a.customerName| == |b.customerName|;
    assert a.customerName == s[|s| - |a.customerName|..] == b.customerName;
  }
}
