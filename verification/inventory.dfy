/** The slot-based inventory engine of `InventorySO`: two fixed-length regions
    of slots, placement and stacking of items, removal, swapping, and the
    read paths. Every operation is a pure function from the engine state to a
    new state, plus the values `InventorySO` returns and the change
    notifications it publishes (one `bool` flag per notification). */
module Inventory {
  import opened Results
  import opened Items
  import opened Tally

  /** Slot counts, indexed by a region's enum value (Inventory = 0, EquipedWeapon = 1). */
  const StorageSize: seq<int> := [10, 2]

  /** The enum value of a region. */
  function StorageIndex(r: StorageType): int
  {
    match r
    case None => -1
    case Inventory => 0
    case EquipedWeapon => 1
  }

  /** The engine state: the two region lists. */
  datatype InventorySO = InventorySO(equipedItems: seq<InventoryItem>, inventoryItems: seq<InventoryItem>)

  /** The end of an add: new state, the quantity that could not be placed, and
      the flags of the notifications published. */
  datatype AddReturn = AddReturn(state: InventorySO, remainder: int, notifications: seq<bool>)

  /** The end of a remove or a swap: new state and the notifications published. */
  datatype Update = Update(state: InventorySO, notifications: seq<bool>)

  /** The state of a placement loop when it stops: state and quantity still to place. */
  datatype Partial = Partial(state: InventorySO, remaining: int)

  /** One placement into the first free slot and the quantity it reports as placed. */
  datatype Placement = Placement(state: InventorySO, placed: int)

  /** The end of the pass over existing stacks: the list, the quantity still to
      place, and whether the pass absorbed everything and returned early. */
  datatype TopUp = TopUp(items: seq<InventoryItem>, remaining: int, absorbed: bool)

  // ---------------------------------------------------------------- regions

  /** The list a region selector names, or none for the placeholder `None`. */
  function GetItemListByStorageType(s: InventorySO, r: StorageType): (o: Option<seq<InventoryItem>>)
    ensures o.None? <==> r == StorageType.None
    ensures o.Some? ==> WithItemList(s, r, o.value) == s
    ensures o.Some? ==> forall i :: ValidIndex(s, r, i) <==> 0 <= i < |o.value|
  {
    match r
    case Inventory => Some(s.inventoryItems)
    case EquipedWeapon => Some(s.equipedItems)
    case None => Option.None
  }

  /** The list of a real region. */
  function ItemList(s: InventorySO, r: StorageType): seq<InventoryItem>
    requires r != StorageType.None
  {
    if r == Inventory then s.inventoryItems else s.equipedItems
  }

  /** The state with the list of region `r` replaced. */
  function WithItemList(s: InventorySO, r: StorageType, l: seq<InventoryItem>): InventorySO
    requires r != StorageType.None
  {
    if r == Inventory then s.(inventoryItems := l) else s.(equipedItems := l)
  }

  predicate ValidIndex(s: InventorySO, r: StorageType, i: int)
  {
    r != StorageType.None && 0 <= i < |ItemList(s, r)|
  }

  function Slot(s: InventorySO, r: StorageType, i: int): InventoryItem
    requires ValidIndex(s, r, i)
  {
    ItemList(s, r)[i]
  }

  function SetSlot(s: InventorySO, r: StorageType, i: int, x: InventoryItem): InventorySO
    requires ValidIndex(s, r, i)
  {
    WithItemList(s, r, ItemList(s, r)[i := x])
  }

  // ------------------------------------------------------------- invariants

  /** A slot belongs to region `r`, and a stack in it holds between one and its
      item's stack limit. */
  predicate ValidSlot(x: InventoryItem, r: StorageType)
  {
    && x.storageType == r
    && (x.contents.Stack? ==> 1 <= x.contents.quantity <= x.contents.item.maxStackSize)
  }

  predicate ValidList(l: seq<InventoryItem>, r: StorageType)
  {
    forall i | 0 <= i < |l| :: ValidSlot(l[i], r)
  }

  /** Every stack stays within its item's stack limit. */
  predicate WithinStackLimits(l: seq<InventoryItem>)
  {
    forall i | 0 <= i < |l| :: l[i].contents.Stack? ==> l[i].contents.quantity <= l[i].contents.item.maxStackSize
  }

  /** The engine invariant: each region has its configured size and holds only
      valid slots tagged with that region. */
  predicate WellFormed(s: InventorySO)
  {
    && |s.inventoryItems| == StorageSize[StorageIndex(Inventory)]
    && |s.equipedItems| == StorageSize[StorageIndex(EquipedWeapon)]
    && ValidList(s.inventoryItems, Inventory)
    && ValidList(s.equipedItems, EquipedWeapon)
  }

  // ------------------------------------------------------------- Initialize

  /** A fresh list of `n` empty slots of region `r` (none when `n` is negative). */
  method EmptyRegion(r: StorageType, n: int) returns (l: seq<InventoryItem>)
    ensures |l| == if n < 0 then 0 else n
    ensures forall i | 0 <= i < |l| :: l[i] == GetEmptyItem(r)
  {
    l := [];
    var i := 0;
    while i < n
      invariant |l| == i
      invariant i <= if n < 0 then 0 else n
      invariant forall j | 0 <= j < i :: l[j] == GetEmptyItem(r)
    {
      l := l + [GetEmptyItem(r)];
      i := i + 1;
    }
  }

  /** Resets both regions to their configured sizes, every slot empty and
      tagged with its own region. */
  method Initialize() returns (s: InventorySO)
    ensures |s.inventoryItems| == 10 && |s.equipedItems| == 2
    ensures forall i | 0 <= i < |s.inventoryItems| :: s.inventoryItems[i] == GetEmptyItem(Inventory)
    ensures forall i | 0 <= i < |s.equipedItems| :: s.equipedItems[i] == GetEmptyItem(EquipedWeapon)
    ensures WellFormed(s)
    ensures Snapshot(s) == map[Inventory := map[], EquipedWeapon := map[]]
  {
    var inventory := EmptyRegion(Inventory, StorageSize[StorageIndex(Inventory)]);
    var equiped := EmptyRegion(EquipedWeapon, StorageSize[StorageIndex(EquipedWeapon)]);
    s := InventorySO(equiped, inventory);
    assert Occupied(inventory) == map[];
    assert Occupied(equiped) == map[];
  }

  // ---------------------------------------------------------------- AddItem

  /** `Mathf.Clamp` on integers. */
  function Clamp(value: int, min: int, max: int): int
  {
    if value < min then min else if value > max then max else value
  }

  /** Two states whose regions have the same lengths. */
  predicate SameSizes(s: InventorySO, s': InventorySO)
  {
    |s'.inventoryItems| == |s.inventoryItems| && |s'.equipedItems| == |s.equipedItems|
  }

  /** True when the Inventory list has no free slot, whatever region is being filled. */
  predicate IsInventoryFull(s: InventorySO)
  {
    forall i | 0 <= i < |s.inventoryItems| :: !s.inventoryItems[i].IsEmpty()
  }

  /** A new stack of `quantity` units of `item` in region `r`, carrying the
      supplied parameter state or else the item's defaults. */
  function NewStack(item: ItemSO, quantity: int, itemState: Option<seq<ItemParameter>>, r: StorageType): InventoryItem
  {
    InventoryItem(Stack(item, quantity, itemState.GetOr(item.defaultParameters)), r)
  }

  /** Puts a new stack into the lowest free slot of region `r` and reports
      `quantity` as placed, or reports zero when there is no such slot. */
  function AddItemToFirstFreeSlot(s: InventorySO, r: StorageType, item: ItemSO, quantity: int,
                                  itemState: Option<seq<ItemParameter>>): (p: Placement)
    ensures SameSizes(s, p.state)
    ensures p.placed == 0 || p.placed == quantity
    ensures r == StorageType.None || FirstFree(ItemList(s, r)) == -1 ==> p.placed == 0 && p.state == s
    ensures r != StorageType.None && FirstFree(ItemList(s, r)) != -1 ==>
      p.placed == quantity && ItemList(p.state, r)[FirstFree(ItemList(s, r))] == NewStack(item, quantity, itemState, r)
  {
    match GetItemListByStorageType(s, r)
    case None => Placement(s, 0)
    case Some(l) =>
      var k := FirstFree(l);
      if k == -1 then Placement(s, 0)
      else Placement(WithItemList(s, r, l[k := NewStack(item, quantity, itemState, r)]), quantity)
  }

  /** The non-stackable loop: one unit at a time while units remain and the
      Inventory list has a free slot. When a placement reports zero the state
      and the guard no longer change, so the loop never ends. */
  function FillOneByOne(s: InventorySO, r: StorageType, item: ItemSO, quantity: int,
                        itemState: Option<seq<ItemParameter>>): Outcome<Partial>
    decreases quantity
  {
    if quantity > 0 && !IsInventoryFull(s) then
      var p := AddItemToFirstFreeSlot(s, r, item, 1, itemState);
      if p.placed == 0 then Diverges
      else FillOneByOne(p.state, r, item, quantity - p.placed, itemState)
    else
      Returns(Partial(s, quantity))
  }

  /** The non-stackable loop never throws; it runs forever only for a
      positive quantity aimed outside the Inventory; when it returns, the
      region sizes are kept, a positive quantity has not grown or turned
      negative, and anything left unplaced means the Inventory is full. */
  lemma {:induction false} FillExit(s: InventorySO, r: StorageType, item: ItemSO, quantity: int,
                                    itemState: Option<seq<ItemParameter>>)
    ensures
      var res := FillOneByOne(s, r, item, quantity, itemState);
      && !res.Throws?
      && (res.Diverges? ==> quantity > 0 && r != Inventory)
      && (res.Returns? ==> SameSizes(s, res.value.state))
      && (res.Returns? && quantity > 0 ==> 0 <= res.value.remaining <= quantity)
      && (res.Returns? && res.value.remaining > 0 ==> IsInventoryFull(res.value.state))
    decreases quantity
  {
    if quantity > 0 && !IsInventoryFull(s) {
      var p := AddItemToFirstFreeSlot(s, r, item, 1, itemState);
      if p.placed != 0 {
        FillExit(p.state, r, item, quantity - p.placed, itemState);
      }
    }
  }

  /** The first stackable pass, from slot `i` upwards: every occupied slot whose
      item has the same identity is topped up to its limit; the pass returns
      early once the remaining quantity fits into one of them. */
  function TopUpStacks(l: seq<InventoryItem>, item: ItemSO, quantity: int, i: nat): (t: TopUp)
    requires i <= |l|
    ensures |t.items| == |l|
    ensures t.absorbed ==> t.remaining == 0
    decreases |l| - i
  {
    if i == |l| then TopUp(l, quantity, false)
    else if l[i].IsEmpty() || l[i].contents.item.id != item.id then TopUpStacks(l, item, quantity, i + 1)
    else
      var room := l[i].contents.item.maxStackSize - l[i].contents.quantity;
      if quantity > room then
        TopUpStacks(l[i := l[i].ChangeQuantity(l[i].contents.item.maxStackSize)], item, quantity - room, i + 1)
      else
        TopUp(l[i := l[i].ChangeQuantity(l[i].contents.quantity + quantity)], 0, true)
  }

  /** The second stackable pass: new stacks of at most the item's limit, each
      into the lowest free slot of region `r`, while quantity remains and the
      Inventory list has a free slot. The quantity is reduced whether or not a
      slot was found. */
  function SpillNewStacks(s: InventorySO, r: StorageType, item: ItemSO, quantity: int): (p: Partial)
    decreases quantity
  {
    if quantity > 0 && !IsInventoryFull(s) then
      var n := Clamp(quantity, 0, item.maxStackSize);
      SpillNewStacks(AddItemToFirstFreeSlot(s, r, item, n, Option.None).state, r, item, quantity - n)
    else
      Partial(s, quantity)
  }

  /** The stackable add: top up, then spill. For the placeholder region nothing
      is placed and zero is returned. An add absorbed by the first pass
      publishes a notification of its own. */
  function AddStackableItem(s: InventorySO, r: StorageType, item: ItemSO, quantity: int): (a: AddReturn)
    ensures SameSizes(s, a.state)
    ensures r == StorageType.None ==> a.state == s && a.remainder == 0
    ensures a.remainder > 0 ==> IsInventoryFull(a.state)
    ensures a.notifications == [] || a.notifications == [false]
    ensures r == StorageType.None ==> a.notifications == []
    ensures r != StorageType.None ==>
              (a.notifications == [false] <==> TopUpStacks(ItemList(s, r), item, quantity, 0).absorbed)
  {
    match GetItemListByStorageType(s, r)
    case None => AddReturn(s, 0, [])
    case Some(l) =>
      var t := TopUpStacks(l, item, quantity, 0);
      var s1 := WithItemList(s, r, t.items);
      if t.absorbed then AddReturn(s1, 0, [false])
      else
        var p := SpillNewStacks(s1, r, item, t.remaining);
        SpillExit(s1, r, item, t.remaining);
        AddReturn(p.state, p.remaining, [])
  }

  /** The spill loop keeps the region sizes and stops only when the quantity
      is used up or the Inventory is full: whatever it leaves unplaced, the
      Inventory has no free slot left. A positive quantity never comes back
      larger or negative; a quantity that is not positive comes back as is. */
  lemma {:induction false} SpillExit(s: InventorySO, r: StorageType, item: ItemSO, quantity: int)
    ensures
      var p := SpillNewStacks(s, r, item, quantity);
      && SameSizes(s, p.state)
      && (quantity <= 0 ==> p == Partial(s, quantity))
      && (quantity > 0 ==> 0 <= p.remaining <= quantity)
      && (p.remaining > 0 ==> IsInventoryFull(p.state))
    decreases quantity
  {
    if quantity > 0 && !IsInventoryFull(s) {
      var n := Clamp(quantity, 0, item.maxStackSize);
      SpillExit(AddItemToFirstFreeSlot(s, r, item, n, Option.None).state, r, item, quantity - n);
    }
  }

  /** `AddItem(storageType, item, quantity, itemState)`: a non-stackable item
      whose target list exists and is not empty goes one unit per free slot;
      everything else takes the stackable path, which drops `itemState`.
      Returns the quantity that could not be placed. */
  function AddItem(s: InventorySO, r: StorageType, item: ItemSO, quantity: int,
                   itemState: Option<seq<ItemParameter>>): (res: Outcome<AddReturn>)
    ensures !res.Throws?
    ensures res.Diverges? ==> !item.isStackable && r == EquipedWeapon && quantity > 0
    ensures res.Returns? ==> SameSizes(s, res.value.state)
    ensures res.Returns? && res.value.remainder > 0 ==> IsInventoryFull(res.value.state)
    ensures res.Returns? ==> res.value.notifications in {[false], [false, false]}
    ensures r != StorageType.None && item.isStackable ==>
              res.Returns? &&
              (res.value.notifications == [false, false] <==> TopUpStacks(ItemList(s, r), item, quantity, 0).absorbed)
    ensures r == StorageType.None || (!item.isStackable && |ItemList(s, r)| > 0) ==>
              res.Returns? ==> res.value.notifications == [false]
  {
    var l := GetItemListByStorageType(s, r);
    if !item.isStackable && l.Some? && |l.value| > 0 then
      FillExit(s, r, item, quantity, itemState);
      match FillOneByOne(s, r, item, quantity, itemState)
      case Returns(p) => Returns(AddReturn(p.state, p.remaining, [false]))
      case _ => Diverges
    else
      var a := AddStackableItem(s, r, item, quantity);
      assert a.notifications == [] ==> a.notifications + [false] == [false];
      assert a.notifications == [false] ==> a.notifications + [false] == [false, false];
      Returns(a.(notifications := a.notifications + [false]))
  }

  /** `AddItem(storageType, inventoryItem)`: adds the slot's item and quantity
      with default parameters and discards the remainder; an empty slot is a
      null dereference. */
  function AddInventoryItem(s: InventorySO, r: StorageType, x: InventoryItem): (res: Outcome<Update>)
    ensures res.Throws? <==> x.IsEmpty()
    ensures res.Diverges? ==> r == EquipedWeapon && !x.contents.item.isStackable
    ensures res.Returns? ==> SameSizes(s, res.value.state) && |res.value.notifications| in {1, 2}
  {
    if x.IsEmpty() then Throws
    else
      match AddItem(s, r, x.contents.item, x.contents.quantity, Option.None)
      case Returns(a) => Returns(Update(a.state, a.notifications))
      case _ => Diverges
  }

  // ------------------------------------------------------------- RemoveItem

  /** `RemoveItem(itemIndex, amount)` on the Inventory list. */
  function RemoveItem(s: InventorySO, itemIndex: int, amount: int): (res: Outcome<Update>)
    ensures res.Throws? <==> itemIndex < 0
    ensures !res.Diverges?
    ensures itemIndex >= 0 ==>
      && res.Returns?
      && res.value.state.equipedItems == s.equipedItems
      && |res.value.state.inventoryItems| == |s.inventoryItems|
      && forall j | 0 <= j < |s.inventoryItems| && j != itemIndex ::
           res.value.state.inventoryItems[j] == s.inventoryItems[j]
    ensures itemIndex >= |s.inventoryItems| || (0 <= itemIndex && s.inventoryItems[itemIndex].IsEmpty()) ==>
      res == Returns(Update(s, []))
    ensures 0 <= itemIndex < |s.inventoryItems| && !s.inventoryItems[itemIndex].IsEmpty() ==>
      var x := s.inventoryItems[itemIndex];
      var y := res.value.state.inventoryItems[itemIndex];
      && res.value.notifications == [false]
      && (x.Quantity() <= amount ==> y == GetEmptyItem(Inventory))
      && (x.Quantity() > amount ==>
            !y.IsEmpty() && y.Quantity() == x.Quantity() - amount && y.contents.item == x.contents.item
            && y.contents.parameters == x.contents.parameters && y.storageType == x.storageType)
  {
    var items := s.inventoryItems;
    if |items| > itemIndex then
      if itemIndex < 0 then Throws
      else if items[itemIndex].IsEmpty() then Returns(Update(s, []))
      else
        var reminder := items[itemIndex].contents.quantity - amount;
        if reminder <= 0 then
          Returns(Update(s.(inventoryItems := items[itemIndex := GetEmptyItem(Inventory)]), [false]))
        else
          Returns(Update(s.(inventoryItems := items[itemIndex := items[itemIndex].ChangeQuantity(reminder)]), [false]))
    else
      Returns(Update(s, []))
  }

  // --------------------------------------------------------------- read paths

  /** The occupied slots of a list, keyed by index. */
  function Occupied(l: seq<InventoryItem>): map<int, InventoryItem>
  {
    map i | 0 <= i < |l| && !l[i].IsEmpty() :: l[i]
  }

  /** The state snapshot: for each real region, its occupied slots by index. */
  function Snapshot(s: InventorySO): map<StorageType, map<int, InventoryItem>>
  {
    map[Inventory := Occupied(s.inventoryItems), EquipedWeapon := Occupied(s.equipedItems)]
  }

  /** Walks a list and collects its occupied slots by index. */
  method CollectOccupied(l: seq<InventoryItem>) returns (d: map<int, InventoryItem>)
    ensures forall i :: i in d <==> 0 <= i < |l| && !l[i].IsEmpty()
    ensures forall i | i in d :: d[i] == l[i]
    ensures d == Occupied(l)
  {
    d := map[];
    for i := 0 to |l|
      invariant forall j :: j in d <==> 0 <= j < i && !l[j].IsEmpty()
      invariant forall j | j in d :: d[j] == l[j]
    {
      if !l[i].IsEmpty() {
        d := d[i := l[i]];
      }
    }
    assert d.Keys == Occupied(l).Keys;
  }

  /** `GetCurrentInventoryState`: one dictionary per real region, holding
      exactly the occupied slots of that region keyed by index. */
  method GetCurrentInventoryState(s: InventorySO) returns (m: map<StorageType, map<int, InventoryItem>>)
    ensures m.Keys == {Inventory, EquipedWeapon}
    ensures forall r, i | r in m :: i in m[r] <==> ValidIndex(s, r, i) && !Slot(s, r, i).IsEmpty()
    ensures forall r, i | r in m && i in m[r] :: ValidIndex(s, r, i) && m[r][i] == Slot(s, r, i)
    ensures m == Snapshot(s)
  {
    m := map[];
    var regions := [StorageType.None, Inventory, EquipedWeapon];
    for k := 0 to |regions|
      invariant forall r :: r in m <==> r != StorageType.None && StorageIndex(r) < k - 1
      invariant forall r | r in m :: r != StorageType.None && m[r] == Occupied(ItemList(s, r))
    {
      var r := regions[k];
      assert StorageIndex(r) == k - 1;
      if r != StorageType.None {
        var d := CollectOccupied(ItemList(s, r));
        m := m[r := d];
      }
    }
    assert m.Keys == Snapshot(s).Keys;
  }

  /** `GetItemAt`: the slot at an index of a region. The placeholder region
      yields `false` and an empty slot; an index outside the list throws. */
  function GetItemAt(s: InventorySO, r: StorageType, itemIndex: int): (res: Outcome<(bool, InventoryItem)>)
    ensures r == StorageType.None ==> res == Returns((false, GetEmptyItem(r)))
    ensures r != StorageType.None ==> (res.Throws? <==> !ValidIndex(s, r, itemIndex))
    ensures ValidIndex(s, r, itemIndex) ==> res == Returns((true, Slot(s, r, itemIndex)))
  {
    match GetItemListByStorageType(s, r)
    case None => Returns((false, GetEmptyItem(r)))
    case Some(l) => if 0 <= itemIndex < |l| then Returns((true, l[itemIndex])) else Throws
  }

  // -------------------------------------------------------------- SwapItems

  /** True when a swap between these regions must be announced as affecting
      equipment: either side lies outside the Inventory region. */
  predicate TouchesEquipment(current: StorageType, target: StorageType)
  {
    current != Inventory || target != Inventory
  }

  /** `SwapItems`: the two slots exchange contents while each keeps its own
      region tag. A placeholder region makes it a no-op; an index outside its
      list throws before anything changes. */
  function SwapItems(s: InventorySO, cr: StorageType, ci: int, tr: StorageType, ti: int): (res: Outcome<Update>)
    ensures cr == StorageType.None || tr == StorageType.None ==> res == Returns(Update(s, []))
    ensures cr != StorageType.None && tr != StorageType.None ==>
      (res.Throws? <==> !ValidIndex(s, cr, ci) || !ValidIndex(s, tr, ti))
    ensures !res.Diverges?
    ensures ValidIndex(s, cr, ci) && ValidIndex(s, tr, ti) ==>
      var s' := res.value.state;
      && res.Returns?
      && |s'.inventoryItems| == |s.inventoryItems| && |s'.equipedItems| == |s.equipedItems|
      && Slot(s', cr, ci).contents == Slot(s, tr, ti).contents
      && Slot(s', tr, ti).contents == Slot(s, cr, ci).contents
      && Slot(s', cr, ci).storageType == Slot(s, cr, ci).storageType
      && Slot(s', tr, ti).storageType == Slot(s, tr, ti).storageType
      && (forall r, i | ValidIndex(s, r, i) && (r, i) != (cr, ci) && (r, i) != (tr, ti) ::
            Slot(s', r, i) == Slot(s, r, i))
      && res.value.notifications == [TouchesEquipment(cr, tr)]
  {
    match (GetItemListByStorageType(s, cr), GetItemListByStorageType(s, tr))
    case (Some(cl), Some(tl)) =>
      if !(0 <= ci < |cl|) || !(0 <= ti < |tl|) then Throws
      else
        var currentItem := cl[ci];
        var s1 := SetSlot(s, cr, ci, cl[ci].SwapItemTo(tl[ti]));
        var s2 := SetSlot(s1, tr, ti, Slot(s1, tr, ti).SwapItemTo(currentItem));
        Returns(Update(s2, [TouchesEquipment(cr, tr)]))
    case _ => Returns(Update(s, []))
  }
}
