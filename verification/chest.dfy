/** The chest of `Chest.cs` as a state machine: it opens on first use, then
    offers its health, ammo and weapon items one after another, and ends empty. */
module Chests {

  datatype ChestState = Closed | HealthItem | AmmoItem | WeaponItem | Empty

  /** Whether the chest can be used, its state, and which of its three item
      slots still hold an item. */
  datatype Chest = Chest(
    isEnabled: bool,
    chestState: ChestState,
    hasHealthItem: bool,
    hasAmmoItem: bool,
    hasWeaponItem: bool)

  /** A chest as it exists before `Initialize`: disabled, closed, no items. */
  const NewChest: Chest := Chest(false, Closed, false, false, false)

  /** `Initialize`: items are spawned for the prefabs supplied; without
      materialization the chest is enabled at once, with it the chest stays as
      it was until the materialization ends in `EnableChest`. */
  function Initialize(c: Chest, shouldMaterialize: bool, health: bool, weapon: bool, ammo: bool): (c': Chest)
    ensures !shouldMaterialize ==> c'.isEnabled
    ensures shouldMaterialize ==> c'.isEnabled == c.isEnabled
    ensures c'.chestState == c.chestState
    ensures c'.hasHealthItem == (health || c.hasHealthItem)
    ensures c'.hasAmmoItem == (ammo || c.hasAmmoItem)
    ensures c'.hasWeaponItem == (weapon || c.hasWeaponItem)
  {
    var c1 := c.(hasHealthItem := health || c.hasHealthItem,
                 hasAmmoItem := ammo || c.hasAmmoItem,
                 hasWeaponItem := weapon || c.hasWeaponItem);
    if shouldMaterialize then c1 else EnableChest(c1)
  }

  /** End of the materialization: the chest becomes usable, nothing else changes. */
  function EnableChest(c: Chest): (c': Chest)
    ensures c'.isEnabled
    ensures c'.chestState == c.chestState
    ensures c'.hasHealthItem == c.hasHealthItem && c'.hasAmmoItem == c.hasAmmoItem && c'.hasWeaponItem == c.hasWeaponItem
  {
    c.(isEnabled := true)
  }

  /** The state that offers the first item still present, in the order health,
      ammo, weapon; empty when none is left. */
  function UpdateChestState(c: Chest): (c': Chest)
    ensures c'.chestState == Empty <==> !c.hasHealthItem && !c.hasAmmoItem && !c.hasWeaponItem
    ensures c'.chestState == HealthItem <==> c.hasHealthItem
    ensures c'.chestState == AmmoItem <==> !c.hasHealthItem && c.hasAmmoItem
    ensures c'.chestState == WeaponItem <==> !c.hasHealthItem && !c.hasAmmoItem && c.hasWeaponItem
    ensures c' == c.(chestState := c'.chestState)
  {
    if c.hasHealthItem then c.(chestState := HealthItem)
    else if c.hasAmmoItem then c.(chestState := AmmoItem)
    else if c.hasWeaponItem then c.(chestState := WeaponItem)
    else c.(chestState := Empty)
  }

  /** Whether the item slot that state `s` offers still holds its item. */
  function Offered(c: Chest, s: ChestState): bool
  {
    match s
    case HealthItem => c.hasHealthItem
    case AmmoItem => c.hasAmmoItem
    case WeaponItem => c.hasWeaponItem
    case _ => false
  }

  function WithoutOffered(c: Chest, s: ChestState): Chest
  {
    match s
    case HealthItem => c.(hasHealthItem := false)
    case AmmoItem => c.(hasAmmoItem := false)
    case WeaponItem => c.(hasWeaponItem := false)
    case _ => c
  }

  /** `CollectHealthItem`, `CollectAmmoItem`, `CollectWeaponItem`: if the item
      is there its pickup action runs, and `consumed` says whether the item is
      gone afterwards; once the item is gone the state is derived afresh. */
  function Collect(c: Chest, consumed: bool): (c': Chest)
    requires c.chestState in {HealthItem, AmmoItem, WeaponItem}
    ensures c'.isEnabled == c.isEnabled
    ensures Offered(c, c.chestState) && !consumed ==> c' == c
    ensures consumed || !Offered(c, c.chestState) ==>
              !Offered(c', c.chestState) && c' == UpdateChestState(WithoutOffered(c, c.chestState))
  {
    var c1 := if Offered(c, c.chestState) && consumed then WithoutOffered(c, c.chestState) else c;
    if !Offered(c1, c.chestState) then UpdateChestState(c1) else c1
  }

  /** `PickUpItem`: nothing while disabled; opening a closed chest, collecting
      the offered item, or nothing once empty. */
  function PickUpItem(c: Chest, consumed: bool): (c': Chest)
    ensures !c.isEnabled ==> c' == c
    ensures c.chestState == Empty ==> c' == c
    ensures c.isEnabled && c.chestState == Closed ==> c' == UpdateChestState(c)
    ensures c.isEnabled && c.chestState in {HealthItem, AmmoItem, WeaponItem} && Offered(c, c.chestState) && !consumed ==>
              c' == c
    ensures c.isEnabled && c.chestState in {HealthItem, AmmoItem, WeaponItem} && (consumed || !Offered(c, c.chestState)) ==>
              c' == UpdateChestState(WithoutOffered(c, c.chestState))
  {
    if !c.isEnabled then c
    else
      match c.chestState
      case Closed => UpdateChestState(c)
      case Empty => c
      case _ => Collect(c, consumed)
  }

  /** An item that leaves the chest between two uses (its object destroyed). */
  function ItemDestroyed(c: Chest, s: ChestState): Chest
  {
    WithoutOffered(c, s)
  }

  /** Position of a state in the order closed, health, ammo, weapon, empty. */
  function Rank(s: ChestState): nat
  {
    match s
    case Closed => 0
    case HealthItem => 1
    case AmmoItem => 2
    case WeaponItem => 3
    case Empty => 4
  }

  /** No state offers an item that comes after one still present: in the ammo
      state the health item is gone, in the weapon state the health and ammo
      items are gone, and the empty state holds nothing. */
  predicate Consistent(c: Chest)
  {
    && (c.chestState == AmmoItem ==> !c.hasHealthItem)
    && (c.chestState == WeaponItem ==> !c.hasHealthItem && !c.hasAmmoItem)
    && (c.chestState == Empty ==> !c.hasHealthItem && !c.hasAmmoItem && !c.hasWeaponItem)
  }

  /** A use of the chest keeps it consistent and never moves it backwards in
      the order; in particular a chest that has been opened is never closed again. */
  lemma PickUpMovesForward(c: Chest, consumed: bool)
    requires Consistent(c)
    ensures Consistent(PickUpItem(c, consumed))
    ensures Rank(PickUpItem(c, consumed).chestState) >= Rank(c.chestState)
    ensures c.chestState != Closed ==> PickUpItem(c, consumed).chestState != Closed
  {
  }

  /** Opening an enabled closed chest offers the first item present, in the
      order health, ammo, weapon, and is empty if there is none. */
  lemma OpenOffersFirstPresent(c: Chest)
    requires c.isEnabled && c.chestState == Closed
    ensures
      var s := PickUpItem(c, false).chestState;
      && s != Closed
      && (c.hasHealthItem ==> s == HealthItem)
      && (!c.hasHealthItem && c.hasAmmoItem ==> s == AmmoItem)
      && (!c.hasHealthItem && !c.hasAmmoItem && c.hasWeaponItem ==> s == WeaponItem)
      && (!c.hasHealthItem && !c.hasAmmoItem && !c.hasWeaponItem ==> s == Empty)
  {
  }

  /** Collecting an item that is consumed moves the chest strictly forward. */
  lemma ConsumedItemAdvances(c: Chest)
    requires Consistent(c) && c.isEnabled
    requires c.chestState in {HealthItem, AmmoItem, WeaponItem}
    ensures Rank(PickUpItem(c, true).chestState) > Rank(c.chestState)
  {
  }

  /** Something that can happen to a chest after it is initialized. */
  datatype Event = Use(consumed: bool) | Destroy(which: ChestState) | Enable

  function Step(c: Chest, e: Event): Chest
  {
    match e
    case Use(consumed) => PickUpItem(c, consumed)
    case Destroy(s) => ItemDestroyed(c, s)
    case Enable => EnableChest(c)
  }

  function Run(c: Chest, events: seq<Event>): Chest
    decreases |events|
  {
    if events == [] then c else Run(Step(c, events[0]), events[1..])
  }

  /** Over any run of events a consistent chest stays consistent and never
      moves backwards in the order; once open, it never closes again, and once
      empty, it stays empty. */
  lemma {:induction false} RunMovesForward(c: Chest, events: seq<Event>)
    requires Consistent(c)
    ensures Consistent(Run(c, events))
    ensures Rank(Run(c, events).chestState) >= Rank(c.chestState)
    ensures c.chestState != Closed ==> Run(c, events).chestState != Closed
    ensures c.chestState == Empty ==> Run(c, events).chestState == Empty
    decreases |events|
  {
    if events != [] {
      var c1 := Step(c, events[0]);
      match events[0] {
        case Use(consumed) => PickUpMovesForward(c, consumed);
        case Destroy(s) =>
        case Enable =>
      }
      RunMovesForward(c1, events[1..]);
    }
  }

  /** A chest made by `Initialize` from a new chest is consistent and closed,
      and is enabled exactly when it was not to materialize. */
  lemma InitializedChestIsClosed(shouldMaterialize: bool, health: bool, weapon: bool, ammo: bool)
    ensures
      var c := Initialize(NewChest, shouldMaterialize, health, weapon, ammo);
      && Consistent(c) && c.chestState == Closed
      && c.isEnabled == !shouldMaterialize
      && EnableChest(c).isEnabled
  {
  }
}
