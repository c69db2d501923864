# DungeonCrawler inventory, reload and chest rules in Dafny

This project models three pieces of the DungeonCrawler Unity game:

- **The inventory engine (`InventorySO`, `InventoryItem`).** There are two fixed-size slot lists: the ten-slot Inventory and the two-slot equipped-weapon storage. `AddItem` adds items in two ways:
  - Non-stackable items are placed one at a time into the first free slot.
  - Stackable items first top up existing stacks of the same item id, up to `MaxStackSize`, and the rest spills into new stacks.

  The engine also supports `RemoveItem`, `SwapItems`, `GetItemAt` and the occupied-slot snapshot `GetCurrentInventoryState`. Every mutation except `Initialize` publishes that snapshot together with a flag. The no-op cases publish nothing: `RemoveItem` on an empty or out-of-range slot, and `SwapItems` with storage `None`.
- **The integer rules of a weapon reload (`ReloadWeapon.ReloadWeaponRoutine`).** After the reload timer runs out:
  - an empty reserve ends the reload with the weapon untouched;
  - a non-zero top-up percent raises the remaining ammo, clamped at the ammo capacity;
  - the clip is then refilled, either to capacity or with whatever the reserve holds;
  - the weapon-reloaded event reports the reserve that is left.
- **The chest state machine (`Chest`).** A chest is closed until its first use. It then offers its health, ammo and weapon items in that order and finally becomes empty. It can only be used once it is enabled, which happens at once or when its materialization finishes.

Each module is built from immutable datatypes and pure functions:

- `Results` holds the generic outcome types.
- `Items` models the item records and their storage tags.
- `Tally` holds sums over slot lists: quantity of an id, free slots, stack headroom.
- `Inventory` holds the engine's operations.
- `InventoryAdd` and `InventoryProps` hold the properties.
- `Reload` and `Chests` hold the other two components.

A C# exception is the outcome `Throws`. An example is an index outside a list, or a negative index for `RemoveItem`. A loop that can never end is `Diverges`.

Several behaviours of the code are modelled as written and proved as lemmas, rather than "fixed":

- Adding into storage type `None` silently loses the items.
- `IsInventoryFull` always inspects the Inventory list, even when the target is the equipment list. Adding a non-stackable item into a full equipment list therefore never terminates while the Inventory has room.
- The flag passed by `SwapItems` is true exactly when the equipment list is touched, despite its variable name.

## Model

| member | source | states |
|---|---|---|
| Items.InventoryItem.ChangeQuantity | Assets/InventoryUI/Scripts/Model/InventorySO.cs:260-269 | the new stack is occupied with exactly the new quantity, keeping its storage tag, item and parameters |
| Items.InventoryItem.SwapItemTo | Assets/InventoryUI/Scripts/Model/InventorySO.cs:271-280 | the slot takes the other's contents (item, quantity and parameters, or nothing) and keeps its own storage tag |
| Items.GetEmptyItem | Assets/InventoryUI/Scripts/Model/InventorySO.cs:282-288 | the empty item of a region holds nothing, has quantity 0 and carries that region's tag |
| Items.ChangeQuantityOverwrites | Assets/InventoryUI/Scripts/Model/InventorySO.cs:260-269 | changing the quantity replaces it: the last change wins, re-setting the current quantity is the identity, and item, parameters and storage tag are kept |
| Items.SwapItemToRestores | Assets/InventoryUI/Scripts/Model/InventorySO.cs:271-288 | a slot takes the other's item, quantity and parameters but keeps its own storage tag, so swapping back restores it; an empty item has quantity 0 |
| Tally.FirstFree | Assets/InventoryUI/Scripts/Model/InventorySO.cs:90-97 | the scan for a free slot returns -1 exactly when every slot is occupied, otherwise the lowest empty slot |
| Tally.SumUpdate | Assets/InventoryUI/Scripts/Model/InventorySO.cs:94 | writing one slot changes a per-slot sum by exactly the difference between the new and old slot |
| Tally.VacanciesRange | Assets/InventoryUI/Scripts/Model/InventorySO.cs:101 | the number of free slots lies between 0 and the list length, and is 0 exactly when the list is full |
| Tally.HeadroomNonNegative | Assets/InventoryUI/Scripts/Model/InventorySO.cs:116 | when no stack exceeds its maximum, the room left in the stacks of an id is not negative |
| Inventory.AddItem | Assets/InventoryUI/Scripts/Model/InventorySO.cs:50-73 | an add never throws; it runs forever only for a non-stackable positive quantity aimed at the equipment; otherwise list sizes are kept, a positive rest means the Inventory is full; it publishes once, except that a stackable add into a real region publishes twice exactly when the top-up absorbed everything |
| Inventory.AddItemToFirstFreeSlot | Assets/InventoryUI/Scripts/Model/InventorySO.cs:75-99 | storage None or a full list places nothing and changes nothing; otherwise the whole quantity goes as a new stack into the lowest free slot; sizes are kept |
| Inventory.FillExit | Assets/InventoryUI/Scripts/Model/InventorySO.cs:59-64 | the one-at-a-time loop behind a non-stackable add never throws, runs forever only for a positive quantity aimed outside the Inventory, keeps sizes, returns a rest between 0 and the quantity, and a positive rest means the Inventory is full |
| Inventory.AddStackableItem | Assets/InventoryUI/Scripts/Model/InventorySO.cs:103-138 | storage None changes nothing and returns 0; otherwise sizes are kept, a positive rest means the Inventory is full; it publishes one notification of its own exactly when the top-up absorbs everything, and none otherwise |
| Inventory.TopUpStacks | Assets/InventoryUI/Scripts/Model/InventorySO.cs:110-130 | the stacking scan keeps the list length and, when it returns early, has nothing left to place |
| Inventory.SpillExit | Assets/InventoryUI/Scripts/Model/InventorySO.cs:131-136 | the spill loop keeps sizes, does nothing for a quantity that is not positive, returns a rest between 0 and the quantity, and a positive rest means the Inventory is full |
| Inventory.AddInventoryItem | Assets/InventoryUI/Scripts/Model/InventorySO.cs:156-159 | adding a whole inventory item throws exactly when it is empty, runs forever only for a non-stackable item aimed at the equipment, and otherwise keeps sizes and publishes once or twice |
| Inventory.GetItemListByStorageType | Assets/InventoryUI/Scripts/Model/InventorySO.cs:205-219 | there is no list exactly for storage None; otherwise the list returned is the region's own list, and its indices are exactly the valid indices of that region |
| Inventory.EmptyRegion | Assets/InventoryUI/Scripts/Model/InventorySO.cs:40-46 | the list is rebuilt with exactly the requested number of slots, each the empty item of its region |
| Inventory.Initialize | Assets/InventoryUI/Scripts/Model/InventorySO.cs:18-48 | the Inventory gets 10 slots and the equipment 2, all empty and tagged with their own region; the state is well formed and its snapshot holds no item |
| Inventory.RemoveItem | Assets/InventoryUI/Scripts/Model/InventorySO.cs:140-154 | a negative index throws; an index past the end or an empty slot changes nothing and publishes nothing; removing at least the held quantity empties the slot, otherwise the quantity drops by the amount with item and parameters kept; only that slot changes and one notification is published |
| Inventory.CollectOccupied | Assets/InventoryUI/Scripts/Model/InventorySO.cs:170-183 | the dictionary has a key exactly for every occupied slot index, mapping to that slot |
| Inventory.GetCurrentInventoryState | Assets/InventoryUI/Scripts/Model/InventorySO.cs:161-189 | the snapshot has exactly the two real regions as keys, and each maps exactly the occupied slots of that region to their contents |
| Inventory.GetItemAt | Assets/InventoryUI/Scripts/Model/InventorySO.cs:191-203 | storage None returns false with an empty item; otherwise an invalid index throws and a valid one returns true with that slot |
| Inventory.SwapItems | Assets/InventoryUI/Scripts/Model/InventorySO.cs:221-242 | a None storage is a no-op; otherwise an invalid index throws, and the two slots exchange contents, each keeping its tag, with every other slot unchanged; the flag published is true exactly when the equipment is involved |
| InventoryAdd.PlaceStep | Assets/InventoryUI/Scripts/Model/InventorySO.cs:75-99 | placing into a list with a free slot writes the new stack into the lowest free slot, touches no other list, and uses up exactly one free slot |
| InventoryAdd.LowestFirstStep | Assets/InventoryUI/Scripts/Model/InventorySO.cs:90-97 | filling the lowest free slot first and then more free slots in order still fills only free slots, lowest first |
| InventoryAdd.FillShape | Assets/InventoryUI/Scripts/Model/InventorySO.cs:61-64 | the non-stackable loop only fills free slots, lowest first, each with a one-item stack carrying the given state, and leaves the other list alone |
| InventoryAdd.FillCount | Assets/InventoryUI/Scripts/Model/InventorySO.cs:61-66 | into the Inventory, the loop places min(quantity, free slots) items and returns the rest |
| InventoryAdd.TopUpShape | Assets/InventoryUI/Scripts/Model/InventorySO.cs:110-130 | the stacking scan changes only quantities of stacks of the same id; if it does not absorb everything, all those stacks end full; a later stack is touched only once every earlier one is full |
| InventoryAdd.TopUpConserves | Assets/InventoryUI/Scripts/Model/InventorySO.cs:116-127 | the quantity held of the id plus the quantity still to place is conserved by the stacking scan |
| InventoryAdd.TopUpRemainder | Assets/InventoryUI/Scripts/Model/InventorySO.cs:116-128 | the scan absorbs everything exactly when some stack of the id exists and the quantity fits into the room of the existing stacks; otherwise the rest is the quantity minus that room, positive once any stack exists or the quantity is positive |
| InventoryAdd.TopUpValid | Assets/InventoryUI/Scripts/Model/InventorySO.cs:116-125 | when every stack was within its maximum, the stacking scan keeps it so; from a valid list and a quantity that is not negative, the list stays valid, every stack holding 1 to its maximum |
| InventoryAdd.SpillShape | Assets/InventoryUI/Scripts/Model/InventorySO.cs:131-136 | the spill loop only fills free slots, lowest first, with stacks of the item holding default parameters and 1..MaxStackSize items |
| InventoryAdd.SpillRemaining | Assets/InventoryUI/Scripts/Model/InventorySO.cs:131-137 | into the Inventory, the spill's rest is the quantity reduced turn by turn by up to MaxStackSize per free slot |
| InventoryAdd.SpillBoundValue | Assets/InventoryUI/Scripts/Model/InventorySO.cs:131-137 | with free slots of MaxStackSize units each, that turn-by-turn rest is the quantity minus the free capacity, or 0 |
| InventoryAdd.SpillConserves | Assets/InventoryUI/Scripts/Model/InventorySO.cs:131-137 | into the Inventory, the quantity held of the id plus the spill's rest is conserved |
| InventoryAdd.SpillCount | Assets/InventoryUI/Scripts/Model/InventorySO.cs:131-137 | into the Inventory, the spill places up to MaxStackSize per free slot and returns the rest, conserving the total |
| InventoryAdd.SpillOutsideInventory | Assets/InventoryUI/Scripts/Model/InventorySO.cs:131-137 | spilling into the equipment while the Inventory has room drives the quantity to 0 even when nothing fits, and leaves the Inventory untouched |
| InventoryAdd.AddNonStackableToInventory | Assets/InventoryUI/Scripts/Model/InventorySO.cs:50-67 | adding a positive quantity of a non-stackable item to the Inventory fills min(quantity, free slots) slots, lowest first, with one-item stacks, and returns the rest |
| InventoryAdd.AddStackableConserves | Assets/InventoryUI/Scripts/Model/InventorySO.cs:103-138 | the quantity held plus the quantity returned equals the quantity before plus the quantity offered; other items and the equipment are untouched |
| InventoryAdd.AddStackableWithinLimits | Assets/InventoryUI/Scripts/Model/InventorySO.cs:116-136 | when no stack in the Inventory exceeded its MaxStackSize before a stackable add into the Inventory, none does after it |
| InventoryAdd.AddStackableRemainder | Assets/InventoryUI/Scripts/Model/InventorySO.cs:103-138 | the returned rest is what exceeds the room of existing stacks plus MaxStackSize per free slot, so it is 0 exactly when the quantity fits; the add publishes twice exactly when some stack of the id exists and the quantity fits its room (the top-up publishes and then the caller publishes again), otherwise once |
| InventoryAdd.AbsorbedRemainder | Assets/InventoryUI/Scripts/Model/InventorySO.cs:116-125 | when the top-up absorbs everything, some stack of the id exists, the quantity fits its room, nothing is returned, and the add publishes twice |
| InventoryAdd.SpilledRemainder | Assets/InventoryUI/Scripts/Model/InventorySO.cs:126-138 | when the top-up runs to the end, the rest is what exceeds the room plus the free capacity, the add publishes once, and the quantity exceeds the room whenever a stack of the id exists |
| InventoryAdd.AddStackableOrder | Assets/InventoryUI/Scripts/Model/InventorySO.cs:110-136 | stacks are topped up in index order, and new stacks appear only once every existing stack of the id is full |
| InventoryAdd.AddIntoNoneLosesItems | Assets/InventoryUI/Scripts/Model/InventorySO.cs:105-108 | adding into storage None leaves the state unchanged and reports 0 left, so the items are lost |
| InventoryAdd.NonStackableWhileInventoryFull | Assets/InventoryUI/Scripts/Model/InventorySO.cs:59-66 | a non-stackable add while the Inventory is full places nothing and returns the whole quantity, whichever list is targeted |
| InventoryAdd.NonStackableIntoFullEquipmentDiverges | Assets/InventoryUI/Scripts/Model/InventorySO.cs:61-64 | a non-stackable add into a full equipment list while the Inventory has room never terminates |
| InventoryAdd.StackableIntoEquipmentReportsAllPlaced | Assets/InventoryUI/Scripts/Model/InventorySO.cs:131-137 | a stackable add into the equipment while the Inventory has room reports 0 left even when nothing could be placed |
| InventoryAdd.AddInventoryItemDropsParameters | Assets/InventoryUI/Scripts/Model/InventorySO.cs:156-159 | adding a whole inventory item depends only on its item and quantity, not its parameters; an empty item throws |
| InventoryAdd.AddInventoryItemPlacesWhatFits | Assets/InventoryUI/Scripts/Model/InventorySO.cs:156-159 | adding a whole stackable inventory item to the Inventory raises the quantity held of its id by min(quantity, room plus free capacity) and leaves the equipment alone |
| InventoryAdd.InventoryFullMeansNoVacancy | Assets/InventoryUI/Scripts/Model/InventorySO.cs:101 | the Inventory is full exactly when it has no free slot, exactly when the scan for a free slot finds none |
| InventoryAdd.ValidAfterFilling | Assets/InventoryUI/Scripts/Model/InventorySO.cs:94 | filling only free slots with valid stacks keeps a list valid |
| InventoryAdd.FillPreservesValid | Assets/InventoryUI/Scripts/Model/InventorySO.cs:59-66 | the non-stackable loop keeps the inventory well formed |
| InventoryAdd.StackablePreservesValid | Assets/InventoryUI/Scripts/Model/InventorySO.cs:103-138 | a stackable add with a quantity that is not negative keeps the inventory well formed |
| InventoryAdd.AddPreservesWellFormed | Assets/InventoryUI/Scripts/Model/InventorySO.cs:50-73 | from a well-formed state, every terminating add of a quantity that is not negative keeps sizes, storage tags and 1..MaxStackSize quantities |
| InventoryProps.RemoveItemTakesAtMostAmount | Assets/InventoryUI/Scripts/Model/InventorySO.cs:146-150 | removal lowers the quantity held of the item by min(amount, held) and frees the slot exactly when the whole stack is removed |
| InventoryProps.RemoveItemPreservesWellFormed | Assets/InventoryUI/Scripts/Model/InventorySO.cs:140-154 | removing an amount that is not negative keeps the inventory well formed, with a slot occupied exactly when its quantity is positive |
| InventoryProps.SwapTwiceRestores | Assets/InventoryUI/Scripts/Model/InventorySO.cs:221-242 | swapping the same two slots twice gives back the original state |
| InventoryProps.HeldUpdate | Assets/InventoryUI/Scripts/Model/InventorySO.cs:231-232 | writing one slot in either list changes the quantity held across both lists by the slot difference |
| InventoryProps.SwapConservesItems | Assets/InventoryUI/Scripts/Model/InventorySO.cs:221-242 | a swap changes no item's total quantity across both lists, nor the number of free slots across both lists |
| InventoryProps.FreeSlotsUpdate | Assets/InventoryUI/Scripts/Model/InventorySO.cs:231-232 | writing one slot changes the number of free slots across both lists by the difference in vacancy between the new and old slot |
| InventoryProps.SwapPreservesWellFormed | Assets/InventoryUI/Scripts/Model/InventorySO.cs:221-242 | a swap keeps the inventory well formed; each slot keeps its region tag |
| InventoryProps.SnapshotAgreesWithGetItemAt | Assets/InventoryUI/Scripts/Model/InventorySO.cs:161-203 | an index is in the published snapshot of a region exactly when GetItemAt returns an occupied slot there, and then both agree |
| InventoryProps.RunPreservesWellFormed | Assets/InventoryUI/Scripts/Model/InventorySO.cs:50-242 | any sequence of adds, removals and swaps that respects the caller contract keeps the inventory well formed; a call that throws leaves the state it found, and only a call that runs forever ends the run |
| Reload.RoundHundredths | Assets/Scripts/Weapons/Weapons/ReloadWeapon.cs:104 | the rounding gives the integer nearest to n/100, with ties going to the even one |
| Reload.AmmoIncrease | Assets/Scripts/Weapons/Weapons/ReloadWeapon.cs:104 | the ammo increase is the integer nearest to capacity times percent over 100, with ties going to the even one |
| Reload.TopUpAmmo | Assets/Scripts/Weapons/Weapons/ReloadWeapon.cs:102-116 | a zero percent leaves the remaining ammo alone; otherwise it becomes the smaller of remaining plus increase and the ammo capacity |
| Reload.RefillClip | Assets/Scripts/Weapons/Weapons/ReloadWeapon.cs:118-141 | the clip step changes only the clip and the reserve |
| Reload.ReloadWeaponRoutine | Assets/Scripts/Weapons/Weapons/ReloadWeapon.cs:70-159 | the reload stops exactly when the reserve is 0; otherwise the weapon ends not reloading, infinite ammo fills the clip and reports the reserve unchanged, a sufficient reserve fills the clip and loses the deficit, and an insufficient one is emptied into the clip |
| Reload.FiniteReloadConserves | Assets/Scripts/Weapons/Weapons/ReloadWeapon.cs:125-141 | with finite ammo, clip plus reported reserve is the same before and after |
| Reload.ReloadKeepsClipInRange | Assets/Scripts/Weapons/Weapons/ReloadWeapon.cs:118-141 | a clip within capacity never shrinks and never overflows; the reported reserve stays between 0 and the reserve; the clip ends full whenever the reserve covers the deficit |
| Reload.ReloadFullClipMovesNothing | Assets/Scripts/Weapons/Weapons/ReloadWeapon.cs:125-135 | reloading a full clip keeps it full and reports the whole reserve |
| Reload.TopUpStaysWithinCapacity | Assets/Scripts/Weapons/Weapons/ReloadWeapon.cs:102-116 | the top-up never lowers the remaining ammo and never takes it past the ammo capacity |
| Reload.IncreaseWithinCapacity | Assets/Scripts/Weapons/Weapons/ReloadWeapon.cs:104 | the increase is between 0 and the ammo capacity for a percent up to 100, and exactly the capacity at 100 percent |
| Chests.Initialize | Assets/Scripts/Chests/Chest.cs:73-111 | items are spawned for the prefabs supplied; without materialization the chest is enabled at once, with it the enabled flag waits; the state is not touched |
| Chests.EnableChest | Assets/Scripts/Chests/Chest.cs:128-132 | enabling sets the enabled flag and leaves the state and the items present unchanged |
| Chests.Collect | Assets/Scripts/Chests/Chest.cs:209-280 | collecting keeps the enabled flag; an offered item that survives its pickup action leaves the chest unchanged; otherwise that item is cleared and the chest moves to the next state with an item |
| Chests.UpdateChestState | Assets/Scripts/Chests/Chest.cs:183-204 | the chest offers health if present, else ammo, else the weapon, else is empty, and nothing else changes |
| Chests.PickUpItem | Assets/Scripts/Chests/Chest.cs:137-165 | a disabled or empty chest ignores a use; a closed chest opens into the first state with an item; an item that is still present after its pickup action keeps the state; an item that is gone (consumed, or destroyed earlier) is cleared and the chest moves to the next state with an item |
| Chests.PickUpMovesForward | Assets/Scripts/Chests/Chest.cs:137-280 | a use keeps the chest consistent and never moves it backwards through closed, health, ammo, weapon, empty; an open chest never closes again |
| Chests.OpenOffersFirstPresent | Assets/Scripts/Chests/Chest.cs:170-204 | opening offers the first item present in the order health, ammo, weapon, or is empty |
| Chests.ConsumedItemAdvances | Assets/Scripts/Chests/Chest.cs:209-280 | collecting an item that is then gone moves the chest strictly forward |
| Chests.RunMovesForward | Assets/Scripts/Chests/Chest.cs:128-280 | over any run of uses, item destructions and enabling, the chest stays consistent, never moves backwards, never closes again once open, and stays empty once empty |
| Chests.InitializedChestIsClosed | Assets/Scripts/Chests/Chest.cs:40-111 | a newly initialized chest is closed and consistent, enabled exactly when it does not materialize, and enabling it always succeeds |

## Left out

- Notification delivery is not modelled. Each mutation's `OnInventoryUpdated` event becomes a list of the flags it would carry, and the snapshot it carries is `Snapshot` of the resulting state. `Debug.Log` is not modelled.
- Item behaviour behind `ItemSO`, beyond id, stackability, `MaxStackSize` and default parameters, is not modelled. This covers pickup actions and equipping.
- Items.InventoryItem.ChangeQuantity: it is defined only on occupied slots. On an empty slot the C# struct would yield an item-less slot with a quantity, and no caller in the core does that.
- `Inventory.RemoveItem`: it follows the code, so it returns nothing and has no shortfall result. A negative index throws, as the list indexer would.
- Items.ItemSO: `maxStackSize` is a `StackLimit`, at least 1. In the code, `ItemSO.MaxStackSize` is an unchecked `int`. With 0, the spill loop would write stacks of quantity 0 and loop until the Inventory fills, which this model does not cover.
- Integer overflow is not modelled. C# `int` arithmetic wraps at 32 bits, and quantities and ammo are unbounded integers here. The sizes in play are tiny.
- A negative quantity or amount can be passed to `AddItem` and `RemoveItem`. The operations model this exactly, but the well-formedness lemmas require quantities that are not negative, because negative values break stack limits in the code too.
- Multi-threading and reentrancy of the event handlers are not modelled. Unity runs them on one thread.
- `ReloadWeaponRoutine` takes the reserve as a parameter. It comes from the inventory controller's `GetCurrentWeaponTotalAmmo`, which is 0 without a controller. That aggregation is not part of this model, and neither is removing ammo from the inventory or updating the clip display.
- Float parts of the reload are not modelled:
  - the reload timer and its frame-by-frame wait;
  - the sound effect;
  - the coroutine restart when a new reload event arrives.

  `Mathf.RoundToInt` of `capacity * percent / 100f` is modelled with exact rational rounding. This agrees with single-precision floats while the product stays below 2^24.
- Rendering and animation of the chest are not modelled:
  - the animator and the sprites;
  - the materialization effect and its duration;
  - the message display;
  - activating item game objects.

  Whether an item's pickup action destroys it at once is a parameter (`consumed`). A destruction that happens later is the `Destroy` event. In this code base `Item.DestroyItem` defers `Destroy` to the end of a pickup animation, so an item is never gone right after its pickup action; the chest advances on the use that follows the `Destroy` event, and `consumed` stays false in practice.
- The UI pages, the weapon equip logic and the pick-up trigger are not modelled. They only call into the operations above.
