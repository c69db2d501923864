/** The integer rules a weapon reload applies once its reload timer has run
    out (`ReloadWeapon.ReloadWeaponRoutine`). */
module Reload {

  /** A weapon's configuration. */
  datatype WeaponDetails = WeaponDetails(clipAmmoCapacity: int, ammoCapacity: int, hasInfiniteAmmo: bool)

  /** A weapon's live ammunition state. */
  datatype Weapon = Weapon(
    details: WeaponDetails,
    clipRemainingAmmo: int,
    remainingAmmo: int,
    isWeaponReloading: bool)

  /** How the routine ends: it stops at once because the reserve is empty, or
      it completes with the weapon and the remaining ammo it reports in the
      weapon-reloaded event. */
  datatype ReloadResult = NoAmmo | Reloaded(weapon: Weapon, reportedAmmo: int)

  /** The smaller of two integers; kept local so that the reload rules do
      not depend on the inventory modules. */
  function Min(a: int, b: int): int
  {
    if a <= b then a else b
  }

  /** `Mathf.RoundToInt(n / 100f)`: the integer nearest to n/100, ties going
      to the even neighbour. */
  function RoundHundredths(n: int): (k: int)
    ensures -50 <= 100 * k - n <= 50
    ensures 100 * k - n == 50 || 100 * k - n == -50 ==> k % 2 == 0
  {
    var q := n / 100;
    var r := n % 100;
    if r < 50 then q
    else if r > 50 then q + 1
    else if q % 2 == 0 then q
    else q + 1
  }

  /** The ammo a top-up adds: the given percent of the ammo capacity, rounded. */
  function AmmoIncrease(ammoCapacity: int, topUpAmmoPercent: int): (k: int)
    ensures -50 <= 100 * k - ammoCapacity * topUpAmmoPercent <= 50
    ensures 100 * k - ammoCapacity * topUpAmmoPercent in {50, -50} ==> k % 2 == 0
  {
    RoundHundredths(ammoCapacity * topUpAmmoPercent)
  }

  /** The top-up step: a non-zero percent raises the remaining ammo by the
      rounded increase, clamped at the weapon's ammo capacity. */
  function TopUpAmmo(w: Weapon, topUpAmmoPercent: int): (w': Weapon)
    ensures w'.details == w.details && w'.clipRemainingAmmo == w.clipRemainingAmmo
    ensures w'.isWeaponReloading == w.isWeaponReloading
    ensures topUpAmmoPercent == 0 ==> w'.remainingAmmo == w.remainingAmmo
    ensures topUpAmmoPercent != 0 ==>
      w'.remainingAmmo == Min(w.remainingAmmo + AmmoIncrease(w.details.ammoCapacity, topUpAmmoPercent), w.details.ammoCapacity)
  {
    if topUpAmmoPercent != 0 then
      var ammoIncrease := AmmoIncrease(w.details.ammoCapacity, topUpAmmoPercent);
      var totalAmmo := w.remainingAmmo + ammoIncrease;
      if totalAmmo > w.details.ammoCapacity then w.(remainingAmmo := w.details.ammoCapacity)
      else w.(remainingAmmo := totalAmmo)
    else w
  }

  /** The clip step: an infinite-ammo weapon simply gets a full clip; otherwise
      ammo moves from the reserve into the clip, a full refill when the reserve
      covers what the clip lacks and everything the reserve has when it does not.
      Returns the weapon and the reserve left. */
  function RefillClip(w: Weapon, reserve: int): (res: (Weapon, int))
    ensures res.0.details == w.details && res.0.remainingAmmo == w.remainingAmmo
    ensures res.0.isWeaponReloading == w.isWeaponReloading
  {
    if w.details.hasInfiniteAmmo then
      (w.(clipRemainingAmmo := w.details.clipAmmoCapacity), reserve)
    else
      var neededAmmo := w.details.clipAmmoCapacity - w.clipRemainingAmmo;
      if reserve >= neededAmmo then
        (w.(clipRemainingAmmo := w.details.clipAmmoCapacity), reserve - neededAmmo)
      else
        (w.(clipRemainingAmmo := w.clipRemainingAmmo + reserve), 0)
  }

  /** The routine after its timer: no ammo ends it with the weapon untouched;
      otherwise top up, refill the clip, clear the reloading flag and report
      the reserve left. */
  function ReloadWeaponRoutine(w: Weapon, totalRemainingAmmo: int, topUpAmmoPercent: int): (res: ReloadResult)
    ensures res.NoAmmo? <==> totalRemainingAmmo == 0
    ensures res.Reloaded? ==>
      var w' := res.weapon;
      var deficit := w.details.clipAmmoCapacity - w.clipRemainingAmmo;
      && w'.details == w.details
      && !w'.isWeaponReloading
      && (topUpAmmoPercent == 0 ==> w'.remainingAmmo == w.remainingAmmo)
      && (topUpAmmoPercent != 0 ==> w'.remainingAmmo == Min(w.remainingAmmo + AmmoIncrease(w.details.ammoCapacity, topUpAmmoPercent), w.details.ammoCapacity))
      && (w.details.hasInfiniteAmmo ==>
            w'.clipRemainingAmmo == w.details.clipAmmoCapacity && res.reportedAmmo == totalRemainingAmmo)
      && (!w.details.hasInfiniteAmmo && totalRemainingAmmo >= deficit ==>
            w'.clipRemainingAmmo == w.details.clipAmmoCapacity && res.reportedAmmo == totalRemainingAmmo - deficit)
      && (!w.details.hasInfiniteAmmo && totalRemainingAmmo < deficit ==>
            w'.clipRemainingAmmo == w.clipRemainingAmmo + totalRemainingAmmo && res.reportedAmmo == 0)
  {
    if totalRemainingAmmo == 0 then NoAmmo
    else
      var reloading := w.(isWeaponReloading := true);
      var toppedUp := TopUpAmmo(reloading, topUpAmmoPercent);
      var (refilled, reserve) := RefillClip(toppedUp, totalRemainingAmmo);
      Reloaded(refilled.(isWeaponReloading := false), reserve)
  }

  /** With finite ammo, a reload moves ammo between reserve and clip without
      creating or losing any. */
  lemma FiniteReloadConserves(w: Weapon, reserve: int, topUpAmmoPercent: int)
    requires !w.details.hasInfiniteAmmo
    requires reserve != 0
    ensures
      var res := ReloadWeaponRoutine(w, reserve, topUpAmmoPercent);
      res.weapon.clipRemainingAmmo + res.reportedAmmo == w.clipRemainingAmmo + reserve
  {
  }

  /** Starting from a clip within its capacity and a reserve that is not
      negative, a reload never overfills the clip, never empties it, and never
      reports a negative reserve; with a reserve that covers the deficit, or
      with infinite ammo, the clip ends full. */
  lemma ReloadKeepsClipInRange(w: Weapon, reserve: int, topUpAmmoPercent: int)
    requires 0 <= w.clipRemainingAmmo <= w.details.clipAmmoCapacity
    requires reserve > 0
    ensures
      var res := ReloadWeaponRoutine(w, reserve, topUpAmmoPercent);
      && w.clipRemainingAmmo <= res.weapon.clipRemainingAmmo <= w.details.clipAmmoCapacity
      && 0 <= res.reportedAmmo <= reserve
      && (w.details.hasInfiniteAmmo || reserve >= w.details.clipAmmoCapacity - w.clipRemainingAmmo ==>
            res.weapon.clipRemainingAmmo == w.details.clipAmmoCapacity)
  {
  }

  /** Reloading a full clip moves no ammo: the clip stays full and the whole
      reserve is reported back. */
  lemma ReloadFullClipMovesNothing(w: Weapon, reserve: int, topUpAmmoPercent: int)
    requires w.clipRemainingAmmo == w.details.clipAmmoCapacity
    requires reserve > 0
    ensures
      var res := ReloadWeaponRoutine(w, reserve, topUpAmmoPercent);
      res.weapon.clipRemainingAmmo == w.clipRemainingAmmo && res.reportedAmmo == reserve
  {
  }

  /** The top-up never takes the remaining ammo past the capacity once it was
      within it, and never lowers it for a capacity and percent that are not
      negative. */
  lemma TopUpStaysWithinCapacity(w: Weapon, topUpAmmoPercent: int)
    requires w.remainingAmmo <= w.details.ammoCapacity
    requires w.details.ammoCapacity >= 0 && topUpAmmoPercent >= 0
    ensures
      var w' := TopUpAmmo(w, topUpAmmoPercent);
      w.remainingAmmo <= w'.remainingAmmo <= w.details.ammoCapacity
  {
    if topUpAmmoPercent != 0 {
      IncreaseWithinCapacity(w.details.ammoCapacity, topUpAmmoPercent);
    }
  }

  /** A full top-up (100 percent) adds exactly the ammo capacity, and the
      increase never exceeds the capacity for a percent of at most 100. */
  lemma IncreaseWithinCapacity(ammoCapacity: int, topUpAmmoPercent: int)
    requires ammoCapacity >= 0 && 0 <= topUpAmmoPercent
    ensures AmmoIncrease(ammoCapacity, topUpAmmoPercent) >= 0
    ensures topUpAmmoPercent <= 100 ==> AmmoIncrease(ammoCapacity, topUpAmmoPercent) <= ammoCapacity
    ensures topUpAmmoPercent == 100 ==> AmmoIncrease(ammoCapacity, topUpAmmoPercent) == ammoCapacity
  {
    var n := ammoCapacity * topUpAmmoPercent;
    assert n >= 0;
    if topUpAmmoPercent <= 100 {
      assert n <= 100 * ammoCapacity;
    }
    if topUpAmmoPercent == 100 {
      assert n == 100 * ammoCapacity;
    }
  }
}
