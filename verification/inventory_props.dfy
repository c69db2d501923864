/** Properties of `RemoveItem`, `SwapItems` and the read paths, and the engine
    invariant over whole call sequences. */
module InventoryProps {
  import opened Results
  import opened Items
  import opened Tally
  import opened Inventory
  import InventoryAdd

  // ------------------------------------------------------------- RemoveItem

  /** Removing from an occupied Inventory slot takes `min(amount, quantity)`
      units of its item out of the region (for an amount that is not negative)
      and frees the slot exactly when the amount covers the quantity. */
  lemma RemoveItemTakesAtMostAmount(s: InventorySO, itemIndex: int, amount: int)
    requires 0 <= itemIndex < |s.inventoryItems| && !s.inventoryItems[itemIndex].IsEmpty()
    requires amount >= 0
    ensures
      var x := s.inventoryItems[itemIndex];
      var l' := RemoveItem(s, itemIndex, amount).value.state.inventoryItems;
      && Total(l', x.contents.item.id) == Total(s.inventoryItems, x.contents.item.id) - Min(amount, x.Quantity())
      && Vacancies(l') == Vacancies(s.inventoryItems) + (if x.Quantity() <= amount then 1 else 0)
  {
    var l := s.inventoryItems;
    var l' := RemoveItem(s, itemIndex, amount).value.state.inventoryItems;
    assert l' == l[itemIndex := l'[itemIndex]];
    SumUpdate(l, itemIndex, l'[itemIndex], QuantityOf(l[itemIndex].contents.item.id));
    SumUpdate(l, itemIndex, l'[itemIndex], Vacancy);
  }

  /** A removal with an amount that is not negative keeps the engine invariant;
      in particular a slot holds an item exactly when its quantity is positive. */
  lemma RemoveItemPreservesWellFormed(s: InventorySO, itemIndex: int, amount: int)
    requires WellFormed(s)
    requires amount >= 0
    requires RemoveItem(s, itemIndex, amount).Returns?
    ensures WellFormed(RemoveItem(s, itemIndex, amount).value.state)
    ensures forall i | 0 <= i < |s.inventoryItems| ::
      var y := RemoveItem(s, itemIndex, amount).value.state.inventoryItems[i];
      !y.IsEmpty() <==> y.Quantity() > 0
  {
    var l' := RemoveItem(s, itemIndex, amount).value.state.inventoryItems;
    assert ValidList(l', Inventory);
  }

  // -------------------------------------------------------------- SwapItems

  /** Swapping the same two slots twice restores the state, and both swaps
      publish the same flag. */
  lemma SwapTwiceRestores(s: InventorySO, cr: StorageType, ci: int, tr: StorageType, ti: int)
    requires SwapItems(s, cr, ci, tr, ti).Returns?
    ensures
      var u := SwapItems(s, cr, ci, tr, ti).value;
      SwapItems(u.state, cr, ci, tr, ti) == Returns(Update(s, u.notifications))
  {
    if ValidIndex(s, cr, ci) && ValidIndex(s, tr, ti) {
      var s1 := SwapItems(s, cr, ci, tr, ti).value.state;
      var s2 := SwapItems(s1, cr, ci, tr, ti).value.state;
      SameSlotsSameState(s, s2);
    }
  }

  /** Two states with lists of the same lengths and the same slots are equal. */
  lemma SameSlotsSameState(s: InventorySO, s': InventorySO)
    requires |s'.inventoryItems| == |s.inventoryItems| && |s'.equipedItems| == |s.equipedItems|
    requires forall r, i | ValidIndex(s, r, i) :: Slot(s', r, i) == Slot(s, r, i)
    ensures s' == s
  {
    forall i | 0 <= i < |s.inventoryItems| ensures s'.inventoryItems[i] == s.inventoryItems[i] {
      assert ValidIndex(s, Inventory, i);
    }
    forall i | 0 <= i < |s.equipedItems| ensures s'.equipedItems[i] == s.equipedItems[i] {
      assert ValidIndex(s, EquipedWeapon, i);
    }
  }

  /** Everything the two regions hold together of any item. */
  function Held(s: InventorySO, id: int): int
  {
    Total(s.inventoryItems, id) + Total(s.equipedItems, id)
  }

  /** Replacing one slot changes what the engine holds by the difference. */
  lemma HeldUpdate(s: InventorySO, r: StorageType, i: int, x: InventoryItem, id: int)
    requires ValidIndex(s, r, i)
    ensures Held(SetSlot(s, r, i, x), id) == Held(s, id) - Weight(QuantityOf(id), Slot(s, r, i)) + Weight(QuantityOf(id), x)
  {
    SumUpdate(ItemList(s, r), i, x, QuantityOf(id));
  }

  /** Free slots across both regions. */
  function FreeSlots(s: InventorySO): int
  {
    Vacancies(s.inventoryItems) + Vacancies(s.equipedItems)
  }

  lemma FreeSlotsUpdate(s: InventorySO, r: StorageType, i: int, x: InventoryItem)
    requires ValidIndex(s, r, i)
    ensures FreeSlots(SetSlot(s, r, i, x)) == FreeSlots(s) - Weight(Vacancy, Slot(s, r, i)) + Weight(Vacancy, x)
  {
    SumUpdate(ItemList(s, r), i, x, Vacancy);
  }

  /** A swap moves contents without creating or destroying any: what the two
      regions hold of every item is unchanged, and so is the number of free slots. */
  lemma SwapConservesItems(s: InventorySO, cr: StorageType, ci: int, tr: StorageType, ti: int, id: int)
    requires SwapItems(s, cr, ci, tr, ti).Returns?
    ensures Held(SwapItems(s, cr, ci, tr, ti).value.state, id) == Held(s, id)
    ensures FreeSlots(SwapItems(s, cr, ci, tr, ti).value.state) == FreeSlots(s)
  {
    if ValidIndex(s, cr, ci) && ValidIndex(s, tr, ti) {
      var a := Slot(s, cr, ci);
      var b := Slot(s, tr, ti);
      var s1 := SetSlot(s, cr, ci, a.SwapItemTo(b));
      HeldUpdate(s, cr, ci, a.SwapItemTo(b), id);
      FreeSlotsUpdate(s, cr, ci, a.SwapItemTo(b));
      assert ValidIndex(s1, tr, ti);
      HeldUpdate(s1, tr, ti, Slot(s1, tr, ti).SwapItemTo(a), id);
      FreeSlotsUpdate(s1, tr, ti, Slot(s1, tr, ti).SwapItemTo(a));
      assert SwapItems(s, cr, ci, tr, ti).value.state == SetSlot(s1, tr, ti, Slot(s1, tr, ti).SwapItemTo(a));
    }
  }

  /** A swap keeps the engine invariant: contents move, region tags stay. */
  lemma SwapPreservesWellFormed(s: InventorySO, cr: StorageType, ci: int, tr: StorageType, ti: int)
    requires WellFormed(s)
    requires SwapItems(s, cr, ci, tr, ti).Returns?
    ensures WellFormed(SwapItems(s, cr, ci, tr, ti).value.state)
  {
    if ValidIndex(s, cr, ci) && ValidIndex(s, tr, ti) {
      var s' := SwapItems(s, cr, ci, tr, ti).value.state;
      forall r, i | ValidIndex(s', r, i) ensures ValidSlot(Slot(s', r, i), r) {
        assert ValidIndex(s, r, i);
        assert ValidSlot(Slot(s, r, i), r);
        if (r, i) == (cr, ci) {
          assert ValidSlot(Slot(s, tr, ti), tr);
        } else if (r, i) == (tr, ti) {
          assert ValidSlot(Slot(s, cr, ci), cr);
        }
      }
      forall i | 0 <= i < |s'.inventoryItems| ensures ValidSlot(s'.inventoryItems[i], Inventory) {
        assert ValidIndex(s', Inventory, i);
      }
      forall i | 0 <= i < |s'.equipedItems| ensures ValidSlot(s'.equipedItems[i], EquipedWeapon) {
        assert ValidIndex(s', EquipedWeapon, i);
      }
    }
  }

  // -------------------------------------------------------------- read paths

  /** The snapshot lists a slot exactly when `GetItemAt` finds it occupied,
      and lists it with the slot `GetItemAt` returns. */
  lemma SnapshotAgreesWithGetItemAt(s: InventorySO, r: StorageType, i: int)
    requires r != StorageType.None
    ensures r in Snapshot(s)
    ensures i in Snapshot(s)[r] <==> GetItemAt(s, r, i).Returns? && !GetItemAt(s, r, i).value.1.IsEmpty()
    ensures i in Snapshot(s)[r] ==> GetItemAt(s, r, i) == Returns((true, Snapshot(s)[r][i]))
  {
  }

  // ------------------------------------------------------------ call sequences

  /** A call into the engine, as a collaborator makes it. */
  datatype Call =
    | Add(region: StorageType, item: ItemSO, quantity: int, itemState: Option<seq<ItemParameter>>)
    | Remove(index: int, amount: int)
    | Swap(currentRegion: StorageType, currentIndex: int, targetRegion: StorageType, targetIndex: int)

  /** Quantities and amounts are not negative: what the callers pass. */
  predicate CallerContract(c: Call)
  {
    match c
    case Add(_, _, q, _) => q >= 0
    case Remove(_, a) => a >= 0
    case Swap(_, _, _, _) => true
  }

  /** The state after a call, or none if the call never returns. A call that
      throws does so before writing any slot, so the state it leaves is the
      state it found. */
  function Apply(s: InventorySO, c: Call): Option<InventorySO>
  {
    match c
    case Add(r, item, q, st) =>
      (match AddItem(s, r, item, q, st) case Returns(a) => Some(a.state) case Throws => Some(s) case Diverges => Option.None)
    case Remove(i, a) =>
      (match RemoveItem(s, i, a) case Returns(u) => Some(u.state) case Throws => Some(s) case Diverges => Option.None)
    case Swap(cr, ci, tr, ti) =>
      (match SwapItems(s, cr, ci, tr, ti) case Returns(u) => Some(u.state) case Throws => Some(s) case Diverges => Option.None)
  }

  /** The state after a sequence of calls, if none of them runs forever. */
  function Run(s: InventorySO, calls: seq<Call>): Option<InventorySO>
    decreases |calls|
  {
    if calls == [] then Some(s)
    else
      match Apply(s, calls[0])
      case Some(s1) => Run(s1, calls[1..])
      case None => Option.None
  }

  /** Every state reached from a well-formed one by calls that keep the
      caller contract is well formed: regions keep their sizes, slots keep
      their region tags, and every stack holds between one unit and its limit. */
  lemma {:induction false} RunPreservesWellFormed(s: InventorySO, calls: seq<Call>)
    requires WellFormed(s)
    requires forall k | 0 <= k < |calls| :: CallerContract(calls[k])
    requires Run(s, calls).Some?
    ensures WellFormed(Run(s, calls).value)
    decreases |calls|
  {
    if calls != [] {
      assert CallerContract(calls[0]);
      match calls[0] {
        case Add(r, item, q, st) =>
          if AddItem(s, r, item, q, st).Returns? {
            InventoryAdd.AddPreservesWellFormed(s, r, item, q, st);
          }
        case Remove(i, a) =>
          if RemoveItem(s, i, a).Returns? {
            RemoveItemPreservesWellFormed(s, i, a);
          }
        case Swap(cr, ci, tr, ti) =>
          if SwapItems(s, cr, ci, tr, ti).Returns? {
            SwapPreservesWellFormed(s, cr, ci, tr, ti);
          }
      }
      var s1 := Apply(s, calls[0]).value;
      assert forall k | 0 <= k < |calls[1..]| :: calls[1..][k] == calls[k + 1];
      RunPreservesWellFormed(s1, calls[1..]);
    }
  }
}
