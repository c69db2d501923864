/** Sums over storage lists, and the placement helpers shared by every add path. */
module Tally {
  import opened Items

  /** What a slot contributes to a sum: the quantity of item `id` it holds,
      the room left in its stack of item `id`, or one if it is free. */
  datatype Measure = QuantityOf(id: int) | HeadroomOf(id: int) | Vacancy

  function Weight(m: Measure, x: InventoryItem): int
  {
    match m
    case QuantityOf(id) => if x.Holds(id) then x.contents.quantity else 0
    case HeadroomOf(id) => if x.Holds(id) then x.contents.item.maxStackSize - x.contents.quantity else 0
    case Vacancy => if x.IsEmpty() then 1 else 0
  }

  function Sum(l: seq<InventoryItem>, m: Measure): int
    decreases |l|
  {
    if l == [] then 0 else Weight(m, l[0]) + Sum(l[1..], m)
  }

  /** Quantity of item `id` held across the list. */
  function Total(l: seq<InventoryItem>, id: int): int
  {
    Sum(l, QuantityOf(id))
  }

  /** Number of free slots in the list. */
  function Vacancies(l: seq<InventoryItem>): int
  {
    Sum(l, Vacancy)
  }

  /** Room left in the existing stacks of item `id`. */
  function Headroom(l: seq<InventoryItem>, id: int): int
  {
    Sum(l, HeadroomOf(id))
  }

  /** Replacing one slot changes a sum by exactly the difference of that slot's weights. */
  lemma {:induction false} SumUpdate(l: seq<InventoryItem>, i: int, x: InventoryItem, m: Measure)
    requires 0 <= i < |l|
    ensures Sum(l[i := x], m) == Sum(l, m) - Weight(m, l[i]) + Weight(m, x)
    decreases |l|
  {
    if i > 0 {
      assert l[i := x][1..] == l[1..][i - 1 := x];
      SumUpdate(l[1..], i - 1, x, m);
    } else {
      assert l[i := x][1..] == l[1..];
    }
  }

  /** The free-slot count is between zero and the length, and is zero exactly
      when no slot is free. */
  lemma {:induction false} VacanciesRange(l: seq<InventoryItem>)
    ensures 0 <= Vacancies(l) <= |l|
    ensures Vacancies(l) == 0 <==> forall i | 0 <= i < |l| :: !l[i].IsEmpty()
    decreases |l|
  {
    if l != [] {
      VacanciesRange(l[1..]);
      if forall i | 0 <= i < |l[1..]| :: !l[1..][i].IsEmpty() {
        if !l[0].IsEmpty() {
          forall i | 0 <= i < |l| ensures !l[i].IsEmpty() {
            if i > 0 {
              assert l[i] == l[1..][i - 1];
            }
          }
        }
      } else {
        var i :| 0 <= i < |l[1..]| && l[1..][i].IsEmpty();
        assert l[i + 1].IsEmpty();
      }
    }
  }

  /** The headroom of a list whose stacks are all within their limits is not negative. */
  lemma {:induction false} HeadroomNonNegative(l: seq<InventoryItem>, id: int)
    requires forall i | 0 <= i < |l| :: l[i].contents.Stack? ==> l[i].contents.quantity <= l[i].contents.item.maxStackSize
    ensures Headroom(l, id) >= 0
    decreases |l|
  {
    if l != [] {
      HeadroomNonNegative(l[1..], id);
    }
  }

  /** Two lists whose slots weigh the same pointwise have the same sum. */
  lemma {:induction false} SumPointwise(l: seq<InventoryItem>, l': seq<InventoryItem>, m: Measure)
    requires |l| == |l'|
    requires forall i | 0 <= i < |l| :: Weight(m, l[i]) == Weight(m, l'[i])
    ensures Sum(l, m) == Sum(l', m)
    decreases |l|
  {
    if l != [] {
      SumPointwise(l[1..], l'[1..], m);
    }
  }

  /** A sum over a suffix peels off its first slot. */
  lemma SumSuffix(l: seq<InventoryItem>, i: int, m: Measure)
    requires 0 <= i < |l|
    ensures Sum(l[i..], m) == Weight(m, l[i]) + Sum(l[i + 1..], m)
  {
    assert l[i..][1..] == l[i + 1..];
  }

  function Min(a: int, b: int): int
  {
    if a <= b then a else b
  }

  function Max(a: int, b: int): int
  {
    if a >= b then a else b
  }

  /** The lowest free slot of a list, if any. */
  function FirstFree(l: seq<InventoryItem>): (k: int)
    ensures -1 <= k < |l|
    ensures k == -1 <==> forall i | 0 <= i < |l| :: !l[i].IsEmpty()
    ensures k >= 0 ==> l[k].IsEmpty() && forall i | 0 <= i < k :: !l[i].IsEmpty()
    decreases |l|
  {
    if l == [] then -1
    else if l[0].IsEmpty() then 0
    else
      var k := FirstFree(l[1..]);
      if k == -1 then -1 else k + 1
  }
}
