/** Item definitions and the slot value that the inventory engine stores,
    after `ItemSO`, `ItemParameter` and the `InventoryItem` struct. */
module Items {

  /** The storage regions. `None` is the placeholder selector that names no list. */
  datatype StorageType = None | Inventory | EquipedWeapon

  /** A live parameter value: the descriptor it belongs to and its magnitude.
      The engine copies parameter lists around but never looks inside them. */
  datatype ItemParameter = ItemParameter(descriptor: nat, value: real)

  /** Stack limits are at least one. */
  type StackLimit = n: int | 1 <= n witness 1

  /** The catalogue entry of an item. Two entries stack together when their
      `id`s are equal. */
  datatype ItemSO = ItemSO(
    id: int,
    isStackable: bool,
    maxStackSize: StackLimit,
    defaultParameters: seq<ItemParameter>)

  /** What a slot holds: nothing (the C# `item == null`), or a stack. */
  datatype Contents =
    | NoItem
    | Stack(item: ItemSO, quantity: int, parameters: seq<ItemParameter>)

  /** One slot of a storage region: its contents and the region it belongs to. */
  datatype InventoryItem = InventoryItem(contents: Contents, storageType: StorageType)
  {
    predicate IsEmpty()
    {
      contents.NoItem?
    }

    /** The quantity field; an empty slot holds zero. */
    function Quantity(): int
    {
      if contents.Stack? then contents.quantity else 0
    }

    /** The same stack with a new quantity; item, parameters and region are kept.
        Every caller passes an occupied slot. */
    function ChangeQuantity(newQuantity: int): (y: InventoryItem)
      requires !IsEmpty()
      ensures !y.IsEmpty() && y.Quantity() == newQuantity
      ensures y.storageType == storageType
      ensures y.contents.item == contents.item && y.contents.parameters == contents.parameters
    {
      InventoryItem(contents.(quantity := newQuantity), storageType)
    }

    /** Takes over the contents of `other` while staying in its own region. */
    function SwapItemTo(other: InventoryItem): (y: InventoryItem)
      ensures y.storageType == storageType
      ensures y.IsEmpty() == other.IsEmpty() && y.Quantity() == other.Quantity()
      ensures y.contents == other.contents
    {
      InventoryItem(other.contents, storageType)
    }

    /** True when the slot holds a stack of the item with identity `id`. */
    predicate Holds(id: int)
    {
      contents.Stack? && contents.item.id == id
    }
  }

  /** The canonical empty slot of a region. */
  function GetEmptyItem(storageType: StorageType): (e: InventoryItem)
    ensures e.IsEmpty() && e.Quantity() == 0
    ensures e.storageType == storageType
  {
    InventoryItem(NoItem, storageType)
  }

  /** Changing the quantity twice is the same as changing it once to the last
      value, and changing it to the current quantity changes nothing. */
  lemma ChangeQuantityOverwrites(x: InventoryItem, m: int, n: int)
    requires !x.IsEmpty()
    ensures x.ChangeQuantity(m).ChangeQuantity(n) == x.ChangeQuantity(n)
    ensures x.ChangeQuantity(x.Quantity()) == x
    ensures x.ChangeQuantity(n).Quantity() == n
    ensures x.ChangeQuantity(n).storageType == x.storageType
    ensures x.ChangeQuantity(n).contents.item == x.contents.item
    ensures x.ChangeQuantity(n).contents.parameters == x.contents.parameters
  {
  }

  /** Exchanging contents back and forth restores both slots; an empty slot
      always has quantity zero. */
  lemma SwapItemToRestores(a: InventoryItem, b: InventoryItem)
    ensures a.SwapItemTo(b.SwapItemTo(a)) == a
    ensures b.SwapItemTo(a).storageType == b.storageType
    ensures b.SwapItemTo(a).contents == a.contents
    ensures GetEmptyItem(a.storageType).IsEmpty() && GetEmptyItem(a.storageType).Quantity() == 0
  {
  }
}
