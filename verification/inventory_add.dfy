/** Properties of `AddItem` and of the passes it is built from. */
module InventoryAdd {
  import opened Results
  import opened Items
  import opened Tally
  import opened Inventory

  // ------------------------------------------------------------ vocabulary

  /** `l'` differs from `l` only in free slots that became occupied. */
  predicate OnlyFillsFree(l: seq<InventoryItem>, l': seq<InventoryItem>)
  {
    |l'| == |l| && forall i | 0 <= i < |l| && (!l[i].IsEmpty() || l'[i].IsEmpty()) :: l'[i] == l[i]
  }

  /** No free slot of `l` was taken while a lower free slot stayed free. */
  predicate LowestFirst(l: seq<InventoryItem>, l': seq<InventoryItem>)
    requires |l'| == |l|
  {
    forall i, j | 0 <= i < j < |l| && l[i].IsEmpty() && l'[i].IsEmpty() && l[j].IsEmpty() :: l'[j].IsEmpty()
  }

  /** The list of the region that a placement into `r` does not touch. */
  function OtherList(s: InventorySO, r: StorageType): seq<InventoryItem>
    requires r != StorageType.None
  {
    if r == Inventory then s.equipedItems else s.inventoryItems
  }

  /** `b` is `a` with at most its quantity changed, and changed only if `a`
      holds a stack of item `id`. */
  predicate SameButQuantity(a: InventoryItem, b: InventoryItem, id: int)
  {
    && b.storageType == a.storageType
    && (a.Holds(id) ==> b.Holds(id) && b.contents.item == a.contents.item && b.contents.parameters == a.contents.parameters)
    && (!a.Holds(id) ==> b == a)
  }

  /** A stack filled to its item's limit. */
  predicate AtLimit(x: InventoryItem)
  {
    x.contents.Stack? && x.contents.quantity == x.contents.item.maxStackSize
  }

  // ------------------------------------------------------ a single placement

  /** A placement into a region with a free slot fills the lowest free slot,
      frees one slot fewer and adds `n` units of the item. */
  lemma PlaceStep(s: InventorySO, r: StorageType, item: ItemSO, n: int, st: Option<seq<ItemParameter>>)
    requires r != StorageType.None
    requires FirstFree(ItemList(s, r)) != -1
    ensures
      var p := AddItemToFirstFreeSlot(s, r, item, n, st);
      var l := ItemList(s, r);
      && p.placed == n
      && ItemList(p.state, r) == l[FirstFree(l) := NewStack(item, n, st, r)]
      && OtherList(p.state, r) == OtherList(s, r)
      && Vacancies(ItemList(p.state, r)) == Vacancies(l) - 1
      && Total(ItemList(p.state, r), item.id) == Total(l, item.id) + n
  {
    var l := ItemList(s, r);
    var k := FirstFree(l);
    SumUpdate(l, k, NewStack(item, n, st, r), Vacancy);
    SumUpdate(l, k, NewStack(item, n, st, r), QuantityOf(item.id));
  }

  /** Filling the lowest free slot first, then keeping occupied slots and filling
      lowest-first from there, keeps occupied slots and fills lowest-first overall. */
  lemma LowestFirstStep(l: seq<InventoryItem>, x: InventoryItem, l': seq<InventoryItem>)
    requires FirstFree(l) != -1 && !x.IsEmpty()
    requires OnlyFillsFree(l[FirstFree(l) := x], l') && LowestFirst(l[FirstFree(l) := x], l')
    ensures OnlyFillsFree(l, l') && LowestFirst(l, l')
  {
    var k := FirstFree(l);
    var l1 := l[k := x];
    forall i, j | 0 <= i < j < |l| && l[i].IsEmpty() && l'[i].IsEmpty() && l[j].IsEmpty()
      ensures l'[j].IsEmpty()
    {
      if i != k {
        assert l1[i] == l[i] && l1[j] == l[j];
      }
    }
  }

  // ------------------------------------------------- the non-stackable loop

  /** The non-stackable loop leaves the other region alone, keeps occupied
      slots, fills free slots lowest-first, and each slot it fills holds one
      unit with the supplied (or default) parameters. */
  lemma {:induction false} FillShape(s: InventorySO, r: StorageType, item: ItemSO, q: int, st: Option<seq<ItemParameter>>)
    requires r != StorageType.None
    requires FillOneByOne(s, r, item, q, st).Returns?
    ensures
      var s' := FillOneByOne(s, r, item, q, st).value.state;
      var l := ItemList(s, r);
      var l' := ItemList(s', r);
      && OtherList(s', r) == OtherList(s, r)
      && OnlyFillsFree(l, l')
      && LowestFirst(l, l')
      && forall i | 0 <= i < |l| && l[i].IsEmpty() && !l'[i].IsEmpty() :: l'[i] == NewStack(item, 1, st, r)
    decreases q
  {
    if q > 0 && !IsInventoryFull(s) {
      var p := AddItemToFirstFreeSlot(s, r, item, 1, st);
      var l := ItemList(s, r);
      assert FirstFree(l) != -1;
      PlaceStep(s, r, item, 1, st);
      FillShape(p.state, r, item, q - 1, st);
      var l' := ItemList(FillOneByOne(s, r, item, q, st).value.state, r);
      LowestFirstStep(l, NewStack(item, 1, st, r), l');
    }
  }

  /** Into the Inventory region the non-stackable loop always ends; with a
      positive quantity it fills `min(q, free)` slots and leaves
      `max(0, q - free)` unplaced. */
  lemma {:induction false} FillCount(s: InventorySO, item: ItemSO, q: int, st: Option<seq<ItemParameter>>)
    ensures
      var res := FillOneByOne(s, Inventory, item, q, st);
      var v := Vacancies(s.inventoryItems);
      && res.Returns?
      && res.value.remaining == (if q <= 0 then q else Max(0, q - v))
      && Vacancies(res.value.state.inventoryItems) == v - (if q <= 0 then 0 else Min(q, v))
    decreases q
  {
    VacanciesRange(s.inventoryItems);
    if q > 0 && !IsInventoryFull(s) {
      PlaceStep(s, Inventory, item, 1, st);
      FillCount(AddItemToFirstFreeSlot(s, Inventory, item, 1, st).state, item, q - 1, st);
    }
  }

  // ------------------------------------------------------- the top-up pass

  /** The top-up pass leaves slots below `i` alone and changes at most the
      quantity of stacks of the same item. When it does not return early every
      such stack from `i` on is full, and it reaches a stack only after every
      earlier one is full. */
  lemma {:induction false} TopUpShape(l: seq<InventoryItem>, item: ItemSO, q: int, i: nat)
    requires i <= |l|
    ensures
      var t := TopUpStacks(l, item, q, i);
      && t.items[..i] == l[..i]
      && (forall j | 0 <= j < |l| :: SameButQuantity(l[j], t.items[j], item.id))
      && (!t.absorbed ==> forall j | i <= j < |l| && l[j].Holds(item.id) :: AtLimit(t.items[j]))
      && (forall j, k | i <= j < k < |l| && l[j].Holds(item.id) && t.items[k] != l[k] :: AtLimit(t.items[j]))
    decreases |l| - i
  {
    if i < |l| {
      if l[i].IsEmpty() || l[i].contents.item.id != item.id {
        TopUpShape(l, item, q, i + 1);
      } else {
        var room := l[i].contents.item.maxStackSize - l[i].contents.quantity;
        if q > room {
          var l1 := l[i := l[i].ChangeQuantity(l[i].contents.item.maxStackSize)];
          TopUpShape(l1, item, q - room, i + 1);
          var t := TopUpStacks(l1, item, q - room, i + 1);
          assert t.items[i] == l1[i];
          assert forall j | 0 <= j < |l| && j != i :: l1[j] == l[j];
        }
      }
    }
  }

  /** The top-up pass conserves quantity: what it adds to the stacks of the
      item is exactly what it takes off the quantity still to place. */
  lemma {:induction false} TopUpConserves(l: seq<InventoryItem>, item: ItemSO, q: int, i: nat)
    requires i <= |l|
    ensures
      var t := TopUpStacks(l, item, q, i);
      Total(t.items, item.id) + t.remaining == Total(l, item.id) + q
    decreases |l| - i
  {
    if i < |l| {
      if l[i].IsEmpty() || l[i].contents.item.id != item.id {
        TopUpConserves(l, item, q, i + 1);
      } else {
        var room := l[i].contents.item.maxStackSize - l[i].contents.quantity;
        if q > room {
          var x := l[i].ChangeQuantity(l[i].contents.item.maxStackSize);
          SumUpdate(l, i, x, QuantityOf(item.id));
          TopUpConserves(l[i := x], item, q - room, i + 1);
        } else {
          SumUpdate(l, i, l[i].ChangeQuantity(l[i].contents.quantity + q), QuantityOf(item.id));
        }
      }
    }
  }

  /** With stacks within their limits and a quantity that is not negative, the
      top-up pass returns early exactly when some stack of the item exists and
      the quantity fits into the headroom from `i` on; otherwise it leaves the
      quantity minus that headroom, which is positive once anything was topped up. */
  lemma {:induction false} TopUpRemainder(l: seq<InventoryItem>, item: ItemSO, q: int, i: nat)
    requires i <= |l|
    requires WithinStackLimits(l)
    requires q >= 0
    ensures
      var t := TopUpStacks(l, item, q, i);
      var h := Headroom(l[i..], item.id);
      && (t.absorbed ==> q <= h && exists j | i <= j < |l| :: l[j].Holds(item.id))
      && (!t.absorbed ==> t.remaining == q - h && t.remaining >= 0)
      && (!t.absorbed && (q > 0 || exists j | i <= j < |l| :: l[j].Holds(item.id)) ==> t.remaining > 0)
    decreases |l| - i
  {
    if i < |l| {
      SumSuffix(l, i, HeadroomOf(item.id));
      if l[i].IsEmpty() || l[i].contents.item.id != item.id {
        TopUpRemainder(l, item, q, i + 1);
        if exists j | i <= j < |l| :: l[j].Holds(item.id) {
          var j :| i <= j < |l| && l[j].Holds(item.id);
          assert j != i;
        }
      } else {
        var room := l[i].contents.item.maxStackSize - l[i].contents.quantity;
        if q > room {
          var l1 := l[i := l[i].ChangeQuantity(l[i].contents.item.maxStackSize)];
          assert l1[i + 1..] == l[i + 1..];
          TopUpRemainder(l1, item, q - room, i + 1);
        } else {
          HeadroomNonNegative(l[i + 1..], item.id);
        }
      }
    }
  }

  /** The top-up pass keeps every slot valid for its region when the quantity
      is not negative, and keeps every stack within its limit in any case. */
  lemma {:induction false} TopUpValid(l: seq<InventoryItem>, r: StorageType, item: ItemSO, q: int, i: nat)
    requires i <= |l|
    ensures WithinStackLimits(l) ==> WithinStackLimits(TopUpStacks(l, item, q, i).items)
    ensures ValidList(l, r) && q >= 0 ==> ValidList(TopUpStacks(l, item, q, i).items, r)
    decreases |l| - i
  {
    if i < |l| {
      if l[i].IsEmpty() || l[i].contents.item.id != item.id {
        TopUpValid(l, r, item, q, i + 1);
      } else {
        var room := l[i].contents.item.maxStackSize - l[i].contents.quantity;
        if q > room {
          TopUpValid(l[i := l[i].ChangeQuantity(l[i].contents.item.maxStackSize)], r, item, q - room, i + 1);
        }
      }
    }
  }

  // -------------------------------------------------------- the spill pass

  /** The spill pass leaves the other region alone, keeps occupied slots, fills
      free slots lowest-first, and each slot it fills holds between one unit
      and the item's limit, with the item's default parameters. */
  lemma {:induction false} SpillShape(s: InventorySO, r: StorageType, item: ItemSO, q: int)
    requires r != StorageType.None
    ensures
      var s' := SpillNewStacks(s, r, item, q).state;
      var l := ItemList(s, r);
      var l' := ItemList(s', r);
      && OtherList(s', r) == OtherList(s, r)
      && OnlyFillsFree(l, l')
      && LowestFirst(l, l')
      && forall i | 0 <= i < |l| && l[i].IsEmpty() && !l'[i].IsEmpty() ::
           && l'[i].storageType == r
           && l'[i].contents.Stack? && l'[i].contents.item == item
           && l'[i].contents.parameters == item.defaultParameters
           && 1 <= l'[i].contents.quantity <= item.maxStackSize
    decreases q
  {
    if q > 0 && !IsInventoryFull(s) {
      var n := Clamp(q, 0, item.maxStackSize);
      assert 1 <= n <= item.maxStackSize;
      var l := ItemList(s, r);
      var s1 := AddItemToFirstFreeSlot(s, r, item, n, Option.None).state;
      SpillShape(s1, r, item, q - n);
      assert SpillNewStacks(s, r, item, q) == SpillNewStacks(s1, r, item, q - n);
      if FirstFree(l) != -1 {
        var k := FirstFree(l);
        var x := NewStack(item, n, Option.None, r);
        PlaceStep(s, r, item, n, Option.None);
        var l1 := ItemList(s1, r);
        var l' := ItemList(SpillNewStacks(s1, r, item, q - n).state, r);
        assert l1 == l[k := x];
        LowestFirstStep(l, x, l');
        forall i | 0 <= i < |l| && l[i].IsEmpty() && !l'[i].IsEmpty()
          ensures l'[i].storageType == r && l'[i].contents.Stack? && l'[i].contents.item == item
          ensures l'[i].contents.parameters == item.defaultParameters
          ensures 1 <= l'[i].contents.quantity <= item.maxStackSize
        {
          if i == k {
            assert l'[i] == x;
          } else {
            assert l1[i] == l[i];
          }
        }
      } else {
        assert s1 == s;
      }
    }
  }

  /** Into the Inventory region the spill pass conserves quantity, and with a
      positive quantity it leaves `max(0, q - free * limit)` unplaced. */
  lemma SpillCount(s: InventorySO, item: ItemSO, q: int)
    ensures
      var p := SpillNewStacks(s, Inventory, item, q);
      var v := Vacancies(s.inventoryItems);
      && p.remaining == (if q <= 0 then q else Max(0, q - v * item.maxStackSize))
      && Total(p.state.inventoryItems, item.id) + p.remaining == Total(s.inventoryItems, item.id) + q
  {
    VacanciesRange(s.inventoryItems);
    SpillRemaining(s, item, q);
    if q > 0 {
      SpillBoundValue(q, Vacancies(s.inventoryItems), item.maxStackSize);
    }
    SpillConserves(s, item, q);
  }

  /** What the spill loop leaves of `q` with `v` free slots of `m` units each,
      counted turn by turn. */
  function SpillBound(q: int, v: int, m: int): int
    decreases if v < 0 then 0 else v
  {
    if q <= 0 || v <= 0 then q else SpillBound(q - Min(q, m), v - 1, m)
  }

  /** Turn by turn, the spill leaves what exceeds one full stack per free slot. */
  lemma {:induction false} SpillBoundValue(q: int, v: int, m: int)
    requires q > 0 && v >= 0 && m >= 1
    ensures SpillBound(q, v, m) == Max(0, q - v * m)
    decreases v
  {
    if v > 0 {
      ProductStep(v, m);
      if q > m {
        assert SpillBound(q, v, m) == SpillBound(q - m, v - 1, m);
        SpillBoundValue(q - m, v - 1, m);
      } else {
        assert SpillBound(q, v, m) == SpillBound(0, v - 1, m) == 0;
      }
    } else {
      assert v * m == 0;
    }
  }

  lemma ProductStep(v: int, m: int)
    requires v >= 1 && m >= 1
    ensures v * m == (v - 1) * m + m
    ensures (v - 1) * m >= 0
  {
  }

  /** One turn of the spill loop: a stack of `min(q, limit)` units goes to the
      lowest free slot and the loop carries on with the rest. */
  lemma SpillStep(s: InventorySO, r: StorageType, item: ItemSO, q: int)
    requires q > 0 && !IsInventoryFull(s)
    ensures
      var n := Clamp(q, 0, item.maxStackSize);
      && 1 <= n <= q
      && n == Min(q, item.maxStackSize)
      && SpillNewStacks(s, r, item, q) ==
           SpillNewStacks(AddItemToFirstFreeSlot(s, r, item, n, Option.None).state, r, item, q - n)
  {
  }

  lemma {:induction false} SpillRemaining(s: InventorySO, item: ItemSO, q: int)
    ensures SpillNewStacks(s, Inventory, item, q).remaining == SpillBound(q, Vacancies(s.inventoryItems), item.maxStackSize)
    decreases q
  {
    InventoryFullMeansNoVacancy(s);
    if q > 0 && !IsInventoryFull(s) {
      var n := Clamp(q, 0, item.maxStackSize);
      var s1 := AddItemToFirstFreeSlot(s, Inventory, item, n, Option.None).state;
      SpillStep(s, Inventory, item, q);
      PlaceStep(s, Inventory, item, n, Option.None);
      SpillRemaining(s1, item, q - n);
      VacanciesRange(s.inventoryItems);
      var v := Vacancies(s.inventoryItems);
      assert Vacancies(s1.inventoryItems) == v - 1;
      assert SpillBound(q, v, item.maxStackSize) == SpillBound(q - n, v - 1, item.maxStackSize);
    }
  }

  lemma {:induction false} SpillConserves(s: InventorySO, item: ItemSO, q: int)
    ensures
      var p := SpillNewStacks(s, Inventory, item, q);
      Total(p.state.inventoryItems, item.id) + p.remaining == Total(s.inventoryItems, item.id) + q
    decreases q
  {
    if q > 0 && !IsInventoryFull(s) {
      var n := Clamp(q, 0, item.maxStackSize);
      var s1 := AddItemToFirstFreeSlot(s, Inventory, item, n, Option.None).state;
      SpillStep(s, Inventory, item, q);
      InventoryFullMeansNoVacancy(s);
      PlaceStep(s, Inventory, item, n, Option.None);
      SpillConserves(s1, item, q - n);
    }
  }

  /** Outside the Inventory region, while the Inventory list has a free slot,
      the spill pass runs until the quantity is used up, whether or not it found
      room: a positive quantity always comes back as zero. */
  lemma {:induction false} SpillOutsideInventory(s: InventorySO, item: ItemSO, q: int)
    requires !IsInventoryFull(s)
    ensures
      var p := SpillNewStacks(s, EquipedWeapon, item, q);
      && p.remaining == (if q <= 0 then q else 0)
      && p.state.inventoryItems == s.inventoryItems
      && (FirstFree(s.equipedItems) == -1 ==> p.state == s)
    decreases q
  {
    if q > 0 {
      var n := Clamp(q, 0, item.maxStackSize);
      SpillOutsideInventory(AddItemToFirstFreeSlot(s, EquipedWeapon, item, n, Option.None).state, item, q - n);
    }
  }

  // ------------------------------------------- AddItem into the Inventory region

  /** The stackable path of `AddItem` spelled out: top up, then spill unless
      the top-up absorbed everything. */
  lemma StackablePath(s: InventorySO, r: StorageType, item: ItemSO, q: int, st: Option<seq<ItemParameter>>)
    requires r != StorageType.None
    requires item.isStackable || |ItemList(s, r)| == 0
    ensures
      var t := TopUpStacks(ItemList(s, r), item, q, 0);
      var s1 := WithItemList(s, r, t.items);
      var p := SpillNewStacks(s1, r, item, t.remaining);
      AddItem(s, r, item, q, st) ==
        if t.absorbed then Returns(AddReturn(s1, 0, [false, false]))
        else Returns(AddReturn(p.state, p.remaining, [false]))
  {
    var l := ItemList(s, r);
    assert GetItemListByStorageType(s, r) == Some(l);
    assert [] + [false] == [false];
    assert [false] + [false] == [false, false];
  }

  /** A non-stackable add of a positive quantity into the Inventory region
      fills `min(q, free)` previously free slots, lowest first, each with one
      unit, leaves occupied slots and the equipment alone, returns
      `max(0, q - free)` and publishes one notification. */
  lemma AddNonStackableToInventory(s: InventorySO, item: ItemSO, q: int, st: Option<seq<ItemParameter>>)
    requires !item.isStackable
    requires q > 0
    ensures AddItem(s, Inventory, item, q, st).Returns?
    ensures
      var a := AddItem(s, Inventory, item, q, st).value;
      var l := s.inventoryItems;
      var l' := a.state.inventoryItems;
      var v := Vacancies(l);
      && a.remainder == Max(0, q - v)
      && a.state.equipedItems == s.equipedItems
      && Vacancies(l') == v - Min(q, v)
      && OnlyFillsFree(l, l')
      && LowestFirst(l, l')
      && (forall i | 0 <= i < |l| && l[i].IsEmpty() && !l'[i].IsEmpty() :: l'[i] == NewStack(item, 1, st, Inventory))
      && a.notifications == [false]
  {
    if |s.inventoryItems| > 0 {
      FillCount(s, item, q, st);
      FillShape(s, Inventory, item, q, st);
    } else {
      assert s.(inventoryItems := []) == s;
    }
  }

  /** A stackable add into the Inventory region conserves the item: what the
      region holds of it afterwards plus the remainder is what it held before
      plus the quantity asked for. Slots holding other items, and the
      equipment, are unchanged; stacks of the item change only in quantity. */
  lemma AddStackableConserves(s: InventorySO, item: ItemSO, q: int, st: Option<seq<ItemParameter>>)
    requires item.isStackable
    ensures AddItem(s, Inventory, item, q, st).Returns?
    ensures
      var a := AddItem(s, Inventory, item, q, st).value;
      var l := s.inventoryItems;
      var l' := a.state.inventoryItems;
      && Total(l', item.id) + a.remainder == Total(l, item.id) + q
      && a.state.equipedItems == s.equipedItems
      && |l'| == |l|
      && (forall i | 0 <= i < |l| && !l[i].IsEmpty() && !l[i].Holds(item.id) :: l'[i] == l[i])
      && (forall i | 0 <= i < |l| && l[i].Holds(item.id) :: SameButQuantity(l[i], l'[i], item.id))
  {
    StackablePath(s, Inventory, item, q, st);
    var l := s.inventoryItems;
    var t := TopUpStacks(l, item, q, 0);
    TopUpConserves(l, item, q, 0);
    TopUpShape(l, item, q, 0);
    if !t.absorbed {
      var s1 := s.(inventoryItems := t.items);
      SpillCount(s1, item, t.remaining);
      SpillShape(s1, Inventory, item, t.remaining);
      var l' := SpillNewStacks(s1, Inventory, item, t.remaining).state.inventoryItems;
      forall i | 0 <= i < |l| && !l[i].IsEmpty() && !l[i].Holds(item.id)
        ensures l'[i] == l[i]
      {
        assert t.items[i] == l[i];
      }
      forall i | 0 <= i < |l| && l[i].Holds(item.id)
        ensures SameButQuantity(l[i], l'[i], item.id)
      {
        assert SameButQuantity(l[i], t.items[i], item.id);
        assert l'[i] == t.items[i];
      }
    }
  }

  /** A stackable add into the Inventory region never takes a stack past its
      item's limit, provided none was past it before. */
  lemma AddStackableWithinLimits(s: InventorySO, item: ItemSO, q: int, st: Option<seq<ItemParameter>>)
    requires item.isStackable
    requires WithinStackLimits(s.inventoryItems)
    ensures AddItem(s, Inventory, item, q, st).Returns?
    ensures WithinStackLimits(AddItem(s, Inventory, item, q, st).value.state.inventoryItems)
  {
    StackablePath(s, Inventory, item, q, st);
    var l := s.inventoryItems;
    var t := TopUpStacks(l, item, q, 0);
    TopUpValid(l, Inventory, item, q, 0);
    if !t.absorbed {
      var s1 := s.(inventoryItems := t.items);
      SpillShape(s1, Inventory, item, t.remaining);
    }
  }

  /** With stacks within their limits and a quantity that is not negative, a
      stackable add into the Inventory region returns exactly the part of the
      quantity beyond the capacity (headroom of the existing stacks plus one
      full stack per free slot), so it returns zero exactly when the quantity
      fits. It publishes a second notification exactly when the existing stacks
      absorb everything. */
  lemma AddStackableRemainder(s: InventorySO, item: ItemSO, q: int, st: Option<seq<ItemParameter>>)
    requires item.isStackable
    requires WithinStackLimits(s.inventoryItems)
    requires q >= 0
    ensures AddItem(s, Inventory, item, q, st).Returns?
    ensures
      var a := AddItem(s, Inventory, item, q, st).value;
      var l := s.inventoryItems;
      var capacity := Headroom(l, item.id) + Vacancies(l) * item.maxStackSize;
      && a.remainder == Max(0, q - capacity)
      && (a.remainder == 0 <==> q <= capacity)
      && a.notifications ==
           if (exists i | 0 <= i < |l| :: l[i].Holds(item.id)) && q <= Headroom(l, item.id)
           then [false, false] else [false]
  {
    var l := s.inventoryItems;
    VacanciesRange(l);
    var vm := Vacancies(l) * item.maxStackSize;
    assert vm >= 0 by {
      if Vacancies(l) > 0 {
        ProductStep(Vacancies(l), item.maxStackSize);
      }
    }
    if TopUpStacks(l, item, q, 0).absorbed {
      AbsorbedRemainder(s, item, q, st);
    } else {
      SpilledRemainder(s, item, q, st);
    }
  }

  /** The branch of `AddStackableRemainder` where the top-up pass absorbs
      everything: some stack of the item exists, the quantity fits its
      headroom, and the add publishes twice. */
  lemma AbsorbedRemainder(s: InventorySO, item: ItemSO, q: int, st: Option<seq<ItemParameter>>)
    requires item.isStackable
    requires WithinStackLimits(s.inventoryItems)
    requires q >= 0
    requires TopUpStacks(s.inventoryItems, item, q, 0).absorbed
    ensures AddItem(s, Inventory, item, q, st).Returns?
    ensures
      var a := AddItem(s, Inventory, item, q, st).value;
      var l := s.inventoryItems;
      && a.remainder == 0
      && a.notifications == [false, false]
      && q <= Headroom(l, item.id)
      && exists i | 0 <= i < |l| :: l[i].Holds(item.id)
  {
    StackablePath(s, Inventory, item, q, st);
    var l := s.inventoryItems;
    assert l[0..] == l;
    TopUpRemainder(l, item, q, 0);
  }

  /** The branch of `AddStackableRemainder` where the top-up pass runs to the
      end: the quantity exceeds the headroom or no stack of the item exists,
      new stacks take what is left up to the free slots' capacity, and the add
      publishes once. */
  lemma SpilledRemainder(s: InventorySO, item: ItemSO, q: int, st: Option<seq<ItemParameter>>)
    requires item.isStackable
    requires WithinStackLimits(s.inventoryItems)
    requires q >= 0
    requires !TopUpStacks(s.inventoryItems, item, q, 0).absorbed
    ensures AddItem(s, Inventory, item, q, st).Returns?
    ensures
      var a := AddItem(s, Inventory, item, q, st).value;
      var l := s.inventoryItems;
      var h := Headroom(l, item.id);
      && a.remainder == Max(0, q - (h + Vacancies(l) * item.maxStackSize))
      && a.notifications == [false]
      && ((exists i | 0 <= i < |l| :: l[i].Holds(item.id)) ==> q > h)
  {
    StackablePath(s, Inventory, item, q, st);
    var l := s.inventoryItems;
    var t := TopUpStacks(l, item, q, 0);
    assert l[0..] == l;
    TopUpRemainder(l, item, q, 0);
    TopUpShape(l, item, q, 0);
    var s1 := s.(inventoryItems := t.items);
    SumPointwise(l, t.items, Vacancy);
    assert Vacancies(s1.inventoryItems) == Vacancies(l);
    SpillCount(s1, item, t.remaining);
    var p := SpillNewStacks(s1, Inventory, item, t.remaining);
    assert AddItem(s, Inventory, item, q, st).value == AddReturn(p.state, p.remaining, [false]);
    assert t.remaining == q - Headroom(l, item.id);
    VacanciesRange(l);
    if Vacancies(l) > 0 {
      ProductStep(Vacancies(l), item.maxStackSize);
    }
  }

  /** A stackable add into the Inventory region tops up existing stacks of the
      item in ascending index order, opens new stacks only once every existing
      one is full, opens them lowest slot first, and each new stack holds
      between one unit and the limit, with the item's default parameters (any
      supplied parameter state is dropped). */
  lemma AddStackableOrder(s: InventorySO, item: ItemSO, q: int, st: Option<seq<ItemParameter>>)
    requires item.isStackable
    ensures AddItem(s, Inventory, item, q, st).Returns?
    ensures
      var l := s.inventoryItems;
      var l' := AddItem(s, Inventory, item, q, st).value.state.inventoryItems;
      && |l'| == |l|
      && LowestFirst(l, l')
      && (forall i, j | 0 <= i < j < |l| && l[i].Holds(item.id) && l[j].Holds(item.id) && l'[j] != l[j] ::
            AtLimit(l'[i]))
      && ((exists j | 0 <= j < |l| :: l[j].IsEmpty() && !l'[j].IsEmpty()) ==>
            forall i | 0 <= i < |l| && l[i].Holds(item.id) :: AtLimit(l'[i]))
      && (forall i | 0 <= i < |l| && l[i].IsEmpty() && !l'[i].IsEmpty() ::
            && l'[i].storageType == Inventory
            && l'[i].contents.Stack? && l'[i].contents.item == item
            && l'[i].contents.parameters == item.defaultParameters
            && 1 <= l'[i].contents.quantity <= item.maxStackSize)
  {
    StackablePath(s, Inventory, item, q, st);
    var l := s.inventoryItems;
    var t := TopUpStacks(l, item, q, 0);
    TopUpShape(l, item, q, 0);
    if !t.absorbed {
      var s1 := s.(inventoryItems := t.items);
      SpillShape(s1, Inventory, item, t.remaining);
      var l' := SpillNewStacks(s1, Inventory, item, t.remaining).state.inventoryItems;
      assert forall i | 0 <= i < |l| :: l[i].IsEmpty() == t.items[i].IsEmpty();
      assert LowestFirst(l, l');
    }
  }

  // ----------------------------------------- AddItem outside the Inventory region

  /** The placeholder region takes nothing yet reports everything placed. */
  lemma AddIntoNoneLosesItems(s: InventorySO, item: ItemSO, q: int, st: Option<seq<ItemParameter>>)
    ensures AddItem(s, StorageType.None, item, q, st) == Returns(AddReturn(s, 0, [false]))
  {
    assert AddStackableItem(s, StorageType.None, item, q) == AddReturn(s, 0, []);
    assert [] + [false] == [false];
  }

  /** While the Inventory list is full, a non-stackable add into any non-empty
      region places nothing and returns the whole quantity, even when that
      region has free slots. */
  lemma NonStackableWhileInventoryFull(s: InventorySO, r: StorageType, item: ItemSO, q: int, st: Option<seq<ItemParameter>>)
    requires r != StorageType.None && |ItemList(s, r)| > 0
    requires !item.isStackable
    requires IsInventoryFull(s)
    ensures AddItem(s, r, item, q, st) == Returns(AddReturn(s, q, [false]))
  {
  }

  /** A non-stackable add of a positive quantity into a full equipment region
      never returns while the Inventory list has a free slot. */
  lemma NonStackableIntoFullEquipmentDiverges(s: InventorySO, item: ItemSO, q: int, st: Option<seq<ItemParameter>>)
    requires !item.isStackable && q > 0
    requires |s.equipedItems| > 0
    requires forall i | 0 <= i < |s.equipedItems| :: !s.equipedItems[i].IsEmpty()
    requires !IsInventoryFull(s)
    ensures AddItem(s, EquipedWeapon, item, q, st) == Diverges
  {
  }

  /** While the Inventory list has a free slot, a stackable add of a positive
      quantity into the equipment region always reports everything placed; when
      the equipment region is full and holds none of the item, nothing changes
      at all, so the quantity is lost. */
  lemma StackableIntoEquipmentReportsAllPlaced(s: InventorySO, item: ItemSO, q: int, st: Option<seq<ItemParameter>>)
    requires item.isStackable && q > 0
    requires WithinStackLimits(s.equipedItems)
    requires !IsInventoryFull(s)
    ensures AddItem(s, EquipedWeapon, item, q, st).Returns?
    ensures AddItem(s, EquipedWeapon, item, q, st).value.remainder == 0
    ensures (forall i | 0 <= i < |s.equipedItems| :: !s.equipedItems[i].IsEmpty() && !s.equipedItems[i].Holds(item.id)) ==>
              AddItem(s, EquipedWeapon, item, q, st).value.state == s
  {
    var l := s.equipedItems;
    var t := TopUpStacks(l, item, q, 0);
    TopUpRemainder(l, item, q, 0);
    TopUpShape(l, item, q, 0);
    if !t.absorbed {
      var s1 := s.(equipedItems := t.items);
      SpillOutsideInventory(s1, item, t.remaining);
      if forall i | 0 <= i < |l| :: !l[i].IsEmpty() && !l[i].Holds(item.id) {
        assert t.items == l;
        assert s1 == s;
      }
    }
  }

  /** The slot overload adds the slot's item and quantity with the item's
      default parameters: the slot's own parameters and region play no part,
      and an empty slot is a null dereference. */
  lemma AddInventoryItemDropsParameters(s: InventorySO, r: StorageType, x: InventoryItem, y: InventoryItem)
    requires !x.IsEmpty() && !y.IsEmpty()
    requires x.contents.item == y.contents.item && x.contents.quantity == y.contents.quantity
    ensures AddInventoryItem(s, r, x) == AddInventoryItem(s, r, y)
    ensures AddInventoryItem(s, r, GetEmptyItem(r)) == Throws
  {
  }

  /** Adding a stackable slot to the Inventory places exactly as much of it as
      fits into existing stacks and free slots; the remainder `AddItem`
      returns is discarded, so the rest of the slot's quantity is lost. */
  lemma AddInventoryItemPlacesWhatFits(s: InventorySO, x: InventoryItem)
    requires !x.IsEmpty() && x.contents.item.isStackable
    requires WithinStackLimits(s.inventoryItems)
    requires x.Quantity() >= 0
    ensures AddInventoryItem(s, Inventory, x).Returns?
    ensures
      var id := x.contents.item.id;
      var l := s.inventoryItems;
      var capacity := Headroom(l, id) + Vacancies(l) * x.contents.item.maxStackSize;
      && Total(AddInventoryItem(s, Inventory, x).value.state.inventoryItems, id) == Total(l, id) + Min(x.Quantity(), capacity)
      && AddInventoryItem(s, Inventory, x).value.state.equipedItems == s.equipedItems
  {
    var item := x.contents.item;
    AddStackableConserves(s, item, x.Quantity(), Option.None);
    AddStackableRemainder(s, item, x.Quantity(), Option.None);
  }

  /** The Inventory is full exactly when it has no free slot, which is exactly
      when the scan for a free slot finds none. */
  lemma InventoryFullMeansNoVacancy(s: InventorySO)
    ensures IsInventoryFull(s) <==> Vacancies(s.inventoryItems) == 0
    ensures IsInventoryFull(s) <==> FirstFree(s.inventoryItems) == -1
  {
    VacanciesRange(s.inventoryItems);
  }

  // ---------------------------------------------------------- the invariant

  /** A list that keeps its occupied slots and fills free slots only with slots
      valid for its region stays valid for that region. */
  lemma ValidAfterFilling(l: seq<InventoryItem>, l': seq<InventoryItem>, r: StorageType)
    requires ValidList(l, r) && OnlyFillsFree(l, l')
    requires forall i | 0 <= i < |l| && l[i].IsEmpty() && !l'[i].IsEmpty() :: ValidSlot(l'[i], r)
    ensures ValidList(l', r)
  {
  }

  /** Every add with a quantity that is not negative keeps the engine
      invariant, into whichever region it goes. */
  lemma AddPreservesWellFormed(s: InventorySO, r: StorageType, item: ItemSO, q: int, st: Option<seq<ItemParameter>>)
    requires WellFormed(s)
    requires q >= 0
    requires AddItem(s, r, item, q, st).Returns?
    ensures WellFormed(AddItem(s, r, item, q, st).value.state)
  {
    if r != StorageType.None {
      var l := ItemList(s, r);
      if !item.isStackable && |l| > 0 {
        FillPreservesValid(s, r, item, q, st);
      } else {
        StackablePreservesValid(s, r, item, q);
      }
    }
  }

  lemma FillPreservesValid(s: InventorySO, r: StorageType, item: ItemSO, q: int, st: Option<seq<ItemParameter>>)
    requires r != StorageType.None && WellFormed(s)
    requires FillOneByOne(s, r, item, q, st).Returns?
    ensures WellFormed(FillOneByOne(s, r, item, q, st).value.state)
  {
    var l := ItemList(s, r);
    var s' := FillOneByOne(s, r, item, q, st).value.state;
    FillShape(s, r, item, q, st);
    ValidAfterFilling(l, ItemList(s', r), r);
  }

  lemma StackablePreservesValid(s: InventorySO, r: StorageType, item: ItemSO, q: int)
    requires r != StorageType.None && WellFormed(s) && q >= 0
    ensures WellFormed(AddStackableItem(s, r, item, q).state)
  {
    var l := ItemList(s, r);
    var t := TopUpStacks(l, item, q, 0);
    TopUpValid(l, r, item, q, 0);
    var s1 := WithItemList(s, r, t.items);
    if !t.absorbed {
      SpillShape(s1, r, item, t.remaining);
      var s' := SpillNewStacks(s1, r, item, t.remaining).state;
      ValidAfterFilling(t.items, ItemList(s', r), r);
    }
  }
}
