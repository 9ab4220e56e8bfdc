/**
 * The C++ port's player inventory: 40 item stacks (hotbar 0-8, main 9-35,
 * armour 36-39), the stack arithmetic of `ItemStack`, and the operations
 * that move counts between stacks without creating or losing items.
 */
module Inventory {
  /** An item stack; id 0 is no item. */
  datatype ItemStack = ItemStack(id: int, count: int, damage: int)

  const HotbarSize := 9
  const MainSize := 27
  const ArmorSize := 4
  const TotalSize := HotbarSize + MainSize + ArmorSize
  /** The slots `add` and `findSlotWithItem` search: hotbar and main. */
  const StorageSize := HotbarSize + MainSize
  /** `getMaxStackSize`, the same for every item. */
  const MaxStackSize := 64

  /** The default-constructed stack. */
  const Empty := ItemStack(0, 0, 0)

  function Min(a: int, b: int): int
  {
    if a <= b then a else b
  }

  // ---------------------------------------------------------------------
  // ItemStack
  // ---------------------------------------------------------------------

  /** `isEmpty`: no item id or no items. */
  predicate IsEmpty(s: ItemStack)
  {
    s.id <= 0 || s.count <= 0
  }

  /** A stack as the inventory keeps it: 0 to 64 items, and none when the
      id is no item. */
  predicate Good(s: ItemStack)
  {
    0 <= s.count <= MaxStackSize && (s.id <= 0 ==> s.count == 0)
  }

  /** `add(amount)`: fills up to the maximum stack size and returns what
      did not fit. */
  function StackAdd(s: ItemStack, amount: int): (r: (ItemStack, int))
    ensures r.0.id == s.id && r.0.damage == s.damage
    ensures r.0.count + r.1 == s.count + amount
    ensures s.count <= MaxStackSize ==> r.0.count <= MaxStackSize
    ensures s.count <= MaxStackSize && amount >= 0 ==> s.count <= r.0.count && 0 <= r.1 <= amount
    ensures r.1 == 0 <==> amount <= MaxStackSize - s.count
    ensures r.1 > 0 ==> r.0.count == MaxStackSize
  {
    var space := MaxStackSize - s.count;
    var toAdd := Min(amount, space);
    (s.(count := s.count + toAdd), amount - toAdd)
  }

  /** `remove(amount)`: takes at most what is there; a stack left with no
      items is reset to the empty stack. */
  function StackRemove(s: ItemStack, amount: int): (r: (ItemStack, int))
    ensures r.1 == Min(amount, s.count)
    ensures s.count - r.1 <= 0 ==> r.0 == Empty
    ensures s.count - r.1 > 0 ==> r.0 == s.(count := s.count - r.1)
    ensures 0 <= amount && 0 <= s.count ==> r.0.count + r.1 == s.count
  {
    var toRemove := Min(amount, s.count);
    var left := s.(count := s.count - toRemove);
    (if left.count <= 0 then Empty else left, toRemove)
  }

  // ---------------------------------------------------------------------
  // Whole-inventory specifications
  // ---------------------------------------------------------------------

  /** Every slot holds a well-kept stack. */
  predicate AllGood(s: seq<ItemStack>)
  {
    forall j :: 0 <= j < |s| ==> Good(s[j])
  }

  /** The number of items in slots `lo` to `hi - 1`. */
  function Sum(s: seq<ItemStack>, lo: nat, hi: nat): int
    requires lo <= hi <= |s|
    decreases hi - lo
  {
    if lo == hi then 0 else s[lo].count + Sum(s, lo + 1, hi)
  }

  lemma {:induction false} SumUpdate(s: seq<ItemStack>, lo: nat, hi: nat, i: nat, x: ItemStack)
    requires lo <= hi <= |s| && i < |s|
    ensures lo <= i < hi ==> Sum(s[i := x], lo, hi) == Sum(s, lo, hi) - s[i].count + x.count
    ensures !(lo <= i < hi) ==> Sum(s[i := x], lo, hi) == Sum(s, lo, hi)
    decreases hi - lo
  {
    if lo < hi {
      SumUpdate(s, lo + 1, hi, i, x);
    }
  }

  predicate SameKind(s: ItemStack, id: int, damage: int)
  {
    s.id == id && s.damage == damage
  }

  /** The first loop of `add` (and of `addToHotbar`) from slot `i` below
      `hi`: every stack of the same id and damage takes what fits; the
      loop returns as soon as nothing is left. The result is the slots,
      the count still to place, and whether it returned. */
  function StackPass(s: seq<ItemStack>, i: nat, hi: nat, id: int, damage: int, count: int): (r: (seq<ItemStack>, int, bool))
    requires i <= hi <= |s|
    ensures |r.0| == |s|
    ensures forall j :: 0 <= j < |s| && !(i <= j < hi) ==> r.0[j] == s[j]
    ensures forall j :: 0 <= j < |s| ==> r.0[j].id == s[j].id && r.0[j].damage == s[j].damage
    ensures r.2 ==> r.1 == 0
    decreases hi - i
  {
    if i == hi then (s, count, false)
    else if SameKind(s[i], id, damage) then
      var (st, left) := StackAdd(s[i], count);
      if left == 0 then (s[i := st], 0, true)
      else StackPass(s[i := st], i + 1, hi, id, damage, left)
    else StackPass(s, i + 1, hi, id, damage, count)
  }

  /** The second loop of `add`: every empty slot from `i` below `hi` gets
      up to a full stack; the loop returns once the count is used up. */
  function FillPass(s: seq<ItemStack>, i: nat, hi: nat, id: int, damage: int, count: int): (r: (seq<ItemStack>, int))
    requires i <= hi <= |s|
    ensures |r.0| == |s|
    ensures forall j :: 0 <= j < |s| && !(i <= j < hi) ==> r.0[j] == s[j]
    ensures forall j :: 0 <= j < |s| ==> r.0[j] == s[j] || (IsEmpty(s[j]) && SameKind(r.0[j], id, damage))
    decreases hi - i
  {
    if i == hi then (s, count)
    else if IsEmpty(s[i]) then
      var toAdd := Min(count, MaxStackSize);
      var s' := s[i := ItemStack(id, toAdd, damage)];
      if count - toAdd <= 0 then (s', count - toAdd)
      else FillPass(s', i + 1, hi, id, damage, count - toAdd)
    else FillPass(s, i + 1, hi, id, damage, count)
  }

  /** `add(itemId, count, damage)`: the new slots, and whether everything
      was placed. */
  function AddSpec(s: seq<ItemStack>, id: int, count: int, damage: int): (r: (seq<ItemStack>, bool))
    requires |s| == TotalSize
  {
    var (s1, c1, done) := StackPass(s, 0, StorageSize, id, damage, count);
    if done then (s1, true)
    else
      var (s2, c2) := FillPass(s1, 0, StorageSize, id, damage, c1);
      (s2, c2 <= 0)
  }

  /** The items `add` could not place. */
  function AddLeftover(s: seq<ItemStack>, id: int, count: int, damage: int): int
    requires |s| == TotalSize
  {
    var (s1, c1, done) := StackPass(s, 0, StorageSize, id, damage, count);
    if done then 0 else FillPass(s1, 0, StorageSize, id, damage, c1).1
  }

  // ---------------------------------------------------------------------
  // What `add` keeps
  // ---------------------------------------------------------------------

  /** The stacking pass conserves items, keeps every stack well kept, and
      when it runs to the end every stack of the kind it passed is full. */
  lemma {:induction false} StackPassConserves(s: seq<ItemStack>, i: nat, hi: nat, id: int, damage: int, count: int)
    requires i <= hi <= |s| && AllGood(s) && count >= 0 && id > 0
    ensures var r := StackPass(s, i, hi, id, damage, count);
      AllGood(r.0) && 0 <= r.1 <= count && Sum(r.0, 0, hi) + r.1 == Sum(s, 0, hi) + count
      && (!r.2 ==> forall j :: i <= j < hi && SameKind(r.0[j], id, damage) ==> r.0[j].count == MaxStackSize)
    decreases hi - i
  {
    if i < hi {
      if SameKind(s[i], id, damage) {
        var (st, left) := StackAdd(s[i], count);
        SumUpdate(s, 0, hi, i, st);
        if left != 0 {
          StackPassConserves(s[i := st], i + 1, hi, id, damage, left);
        }
      } else {
        StackPassConserves(s, i + 1, hi, id, damage, count);
      }
    }
  }

  /** The filling pass conserves items and keeps every stack well kept
      (for a real item id). */
  lemma {:induction false} FillPassConserves(s: seq<ItemStack>, i: nat, hi: nat, id: int, damage: int, count: int)
    requires i <= hi <= |s| && AllGood(s) && count >= 0 && id > 0
    ensures var r := FillPass(s, i, hi, id, damage, count);
      AllGood(r.0) && 0 <= r.1 <= count && Sum(r.0, 0, hi) + r.1 == Sum(s, 0, hi) + count
    decreases hi - i
  {
    if i < hi {
      if IsEmpty(s[i]) {
        var toAdd := Min(count, MaxStackSize);
        SumUpdate(s, 0, hi, i, ItemStack(id, toAdd, damage));
        if count - toAdd > 0 {
          FillPassConserves(s[i := ItemStack(id, toAdd, damage)], i + 1, hi, id, damage, count - toAdd);
        }
      } else {
        FillPassConserves(s, i + 1, hi, id, damage, count);
      }
    }
  }

  /** `add` places `count - leftover` items in slots 0..35, never more than
      were given; it reports success exactly when nothing is left; every
      stack stays within 0..64; the armour slots are untouched. */
  lemma AddConserves(s: seq<ItemStack>, id: int, count: int, damage: int)
    requires |s| == TotalSize && AllGood(s) && count >= 0 && id > 0
    ensures var (s2, ok) := AddSpec(s, id, count, damage);
      var left := AddLeftover(s, id, count, damage);
      AllGood(s2) && 0 <= left <= count && (ok <==> left == 0)
      && Sum(s2, 0, StorageSize) + left == Sum(s, 0, StorageSize) + count
      && s2[StorageSize..] == s[StorageSize..]
  {
    var (s1, c1, done) := StackPass(s, 0, StorageSize, id, damage, count);
    StackPassConserves(s, 0, StorageSize, id, damage, count);
    if !done {
      FillPassConserves(s1, 0, StorageSize, id, damage, c1);
    }
  }

  /** `add` fills the stacks already holding the item before it starts a
      new one: when an empty slot received the item, every stack of that
      kind in slots 0..35 was already full. */
  lemma AddStacksFirst(s: seq<ItemStack>, id: int, count: int, damage: int)
    requires |s| == TotalSize && AllGood(s) && count >= 0 && id > 0
    ensures var (s1, c1, done) := StackPass(s, 0, StorageSize, id, damage, count);
      !done ==> forall j :: 0 <= j < StorageSize && SameKind(s1[j], id, damage) ==> s1[j].count == MaxStackSize
  {
    StackPassConserves(s, 0, StorageSize, id, damage, count);
  }

  // ---------------------------------------------------------------------
  // addToHotbar
  // ---------------------------------------------------------------------

  /** The first empty hotbar slot at or after `i`, or -1. */
  function FirstEmptyHotbar(s: seq<ItemStack>, i: nat): (k: int)
    requires i <= HotbarSize <= |s|
    ensures k == -1 || (i <= k < HotbarSize && IsEmpty(s[k]))
    ensures k == -1 ==> forall j :: i <= j < HotbarSize ==> !IsEmpty(s[j])
    ensures k != -1 ==> forall j :: i <= j < k ==> !IsEmpty(s[j])
    decreases HotbarSize - i
  {
    if i == HotbarSize then -1
    else if IsEmpty(s[i]) then i
    else FirstEmptyHotbar(s, i + 1)
  }

  /** `addToHotbar` as written: stack onto hotbar stacks of the same kind,
      then put ALL that is left into the first empty hotbar slot, else fall
      back to `add`. */
  function AddToHotbarAsWritten(s: seq<ItemStack>, id: int, count: int, damage: int): (r: (seq<ItemStack>, bool))
    requires |s| == TotalSize
  {
    var (s1, c1, done) := StackPass(s, 0, HotbarSize, id, damage, count);
    if done then (s1, true)
    else
      var k := FirstEmptyHotbar(s1, 0);
      if k >= 0 then (s1[k := ItemStack(id, c1, damage)], true)
      else AddSpec(s1, id, c1, damage)
  }

  /** An empty inventory. */
  function EmptySlots(): (s: seq<ItemStack>)
    ensures |s| == TotalSize && AllGood(s)
  {
    seq(TotalSize, j => Empty)
  }

  /** As written, adding 100 items to an empty hotbar leaves 100 items in
      slot 0, over the maximum stack size of 64. */
  lemma HotbarOverfills()
    ensures var r := AddToHotbarAsWritten(EmptySlots(), 1, 100, 0);
      r.1 && r.0[0] == ItemStack(1, 100, 0) && !AllGood(r.0)
  {
    var s := EmptySlots();
    assert StackPass(s, 0, HotbarSize, 1, 0, 100) == (s, 100, false) by {
      NoKindNoChange(s, 0, HotbarSize, 1, 0, 100);
    }
    assert FirstEmptyHotbar(s, 0) == 0;
  }

  lemma {:induction false} NoKindNoChange(s: seq<ItemStack>, i: nat, hi: nat, id: int, damage: int, count: int)
    requires i <= hi <= |s|
    requires forall j :: i <= j < hi ==> !SameKind(s[j], id, damage)
    ensures StackPass(s, i, hi, id, damage, count) == (s, count, false)
    decreases hi - i
  {
    if i < hi {
      NoKindNoChange(s, i + 1, hi, id, damage, count);
    }
  }

  /** `addToHotbar` as evidently intended: the hotbar's empty slots take at
      most a full stack each, like the main loop of `add`, and what is left
      goes through `add`. */
  function AddToHotbarSpec(s: seq<ItemStack>, id: int, count: int, damage: int): (r: (seq<ItemStack>, bool))
    requires |s| == TotalSize
  {
    var (s1, c1, done) := StackPass(s, 0, HotbarSize, id, damage, count);
    if done then (s1, true)
    else
      var (s2, c2) := FillPass(s1, 0, HotbarSize, id, damage, c1);
      if c2 <= 0 then (s2, true) else AddSpec(s2, id, c2, damage)
  }

  /** The corrected `addToHotbar` keeps every stack within 0..64, never
      places more items than given, and touches no armour slot. */
  lemma AddToHotbarKeepsStacks(s: seq<ItemStack>, id: int, count: int, damage: int)
    requires |s| == TotalSize && AllGood(s) && count >= 0 && id > 0
    ensures var r := AddToHotbarSpec(s, id, count, damage);
      AllGood(r.0) && Sum(r.0, 0, StorageSize) <= Sum(s, 0, StorageSize) + count
      && r.0[StorageSize..] == s[StorageSize..]
  {
    var (s1, c1, done) := StackPass(s, 0, HotbarSize, id, damage, count);
    HotbarStackStep(s, id, damage, count);
    if !done {
      var (s2, c2) := FillPass(s1, 0, HotbarSize, id, damage, c1);
      HotbarFillStep(s1, id, damage, c1);
      if c2 > 0 {
        AddConserves(s2, id, c2, damage);
      }
    }
  }

  lemma HotbarStackStep(s: seq<ItemStack>, id: int, damage: int, count: int)
    requires |s| == TotalSize && AllGood(s) && count >= 0 && id > 0
    ensures var r := StackPass(s, 0, HotbarSize, id, damage, count);
      AllGood(r.0) && 0 <= r.1 <= count && Sum(r.0, 0, StorageSize) + r.1 == Sum(s, 0, StorageSize) + count
      && r.0[StorageSize..] == s[StorageSize..]
  {
    StackPassConserves(s, 0, HotbarSize, id, damage, count);
    StackSumTail(s, id, damage, count);
  }

  lemma HotbarFillStep(s: seq<ItemStack>, id: int, damage: int, count: int)
    requires |s| == TotalSize && AllGood(s) && count >= 0 && id > 0
    ensures var r := FillPass(s, 0, HotbarSize, id, damage, count);
      AllGood(r.0) && 0 <= r.1 <= count && Sum(r.0, 0, StorageSize) + r.1 == Sum(s, 0, StorageSize) + count
      && r.0[StorageSize..] == s[StorageSize..]
  {
    FillPassConserves(s, 0, HotbarSize, id, damage, count);
    FillSumTail(s, id, damage, count);
  }

  /** Sums over 0..35 split at the hotbar, for the hotbar passes. */
  lemma {:induction false} SumSplit(s: seq<ItemStack>, lo: nat, mid: nat, hi: nat)
    requires lo <= mid <= hi <= |s|
    ensures Sum(s, lo, hi) == Sum(s, lo, mid) + Sum(s, mid, hi)
    decreases mid - lo
  {
    if lo < mid {
      SumSplit(s, lo + 1, mid, hi);
    }
  }

  lemma {:induction false} SumSame(s: seq<ItemStack>, t: seq<ItemStack>, lo: nat, hi: nat)
    requires lo <= hi <= |s| == |t|
    requires forall j :: lo <= j < hi ==> s[j] == t[j]
    ensures Sum(s, lo, hi) == Sum(t, lo, hi)
    decreases hi - lo
  {
    if lo < hi {
      SumSame(s, t, lo + 1, hi);
    }
  }

  lemma StackSumTail(s: seq<ItemStack>, id: int, damage: int, count: int)
    requires |s| == TotalSize
    ensures var r := StackPass(s, 0, HotbarSize, id, damage, count);
      Sum(r.0, 0, StorageSize) - Sum(r.0, 0, HotbarSize) == Sum(s, 0, StorageSize) - Sum(s, 0, HotbarSize)
  {
    var r := StackPass(s, 0, HotbarSize, id, damage, count);
    SumSplit(s, 0, HotbarSize, StorageSize);
    SumSplit(r.0, 0, HotbarSize, StorageSize);
    SumSame(s, r.0, HotbarSize, StorageSize);
  }

  lemma FillSumTail(s: seq<ItemStack>, id: int, damage: int, count: int)
    requires |s| == TotalSize
    ensures var r := FillPass(s, 0, HotbarSize, id, damage, count);
      Sum(r.0, 0, StorageSize) - Sum(r.0, 0, HotbarSize) == Sum(s, 0, StorageSize) - Sum(s, 0, HotbarSize)
  {
    var r := FillPass(s, 0, HotbarSize, id, damage, count);
    SumSplit(s, 0, HotbarSize, StorageSize);
    SumSplit(r.0, 0, HotbarSize, StorageSize);
    SumSame(s, r.0, HotbarSize, StorageSize);
  }

  // ---------------------------------------------------------------------
  // Other slot operations, as specifications
  // ---------------------------------------------------------------------

  /** The first slot in 0..35 holding the item id, or -1. */
  function FindSlot(s: seq<ItemStack>, id: int, i: nat): (k: int)
    requires i <= StorageSize <= |s|
    ensures k == -1 || (i <= k < StorageSize && s[k].id == id)
    ensures k == -1 ==> forall j :: i <= j < StorageSize ==> s[j].id != id
    ensures k != -1 ==> forall j :: i <= j < k ==> s[j].id != id
    decreases StorageSize - i
  {
    if i == StorageSize then -1
    else if s[i].id == id then i
    else FindSlot(s, id, i + 1)
  }

  /** `swapSlots` on a sequence: two valid slots trade stacks, anything
      else changes nothing. */
  function Swap(s: seq<ItemStack>, a: int, b: int): (r: seq<ItemStack>)
    requires |s| == TotalSize
    ensures |r| == TotalSize
    ensures 0 <= a < TotalSize && 0 <= b < TotalSize ==> r[a] == s[b] && r[b] == s[a]
    ensures forall j :: 0 <= j < TotalSize && j != a && j != b ==> r[j] == s[j]
    ensures !(0 <= a < TotalSize && 0 <= b < TotalSize) ==> r == s
  {
    if 0 <= a < TotalSize && 0 <= b < TotalSize then s[a := s[b]][b := s[a]] else s
  }

  /** Swapping twice restores the inventory. */
  lemma SwapInvolution(s: seq<ItemStack>, a: int, b: int)
    requires |s| == TotalSize
    ensures Swap(Swap(s, a, b), a, b) == s
  {
  }

  /** Swapping keeps the multiset of stacks. */
  lemma SwapPermutes(s: seq<ItemStack>, a: int, b: int)
    requires |s| == TotalSize
    ensures multiset(Swap(s, a, b)) == multiset(s)
  {
    if 0 <= a < TotalSize && 0 <= b < TotalSize && a != b {
      var t := s[a := s[b]];
      assert multiset(t) == multiset(s) - multiset{s[a]} + multiset{s[b]};
      assert multiset(t[b := s[a]]) == multiset(t) - multiset{t[b]} + multiset{s[a]};
    }
  }

  /** The stack `removeItem(slot, count)` returns and the slot it leaves:
      a whole stack when `count` is negative or covers it, otherwise that
      many items split off. */
  function RemoveSpec(st: ItemStack, count: int): (r: (ItemStack, ItemStack))
    requires !IsEmpty(st)
    ensures r.0.id == st.id && r.0.damage == st.damage
    ensures r.0.count + r.1.count == st.count || r.1 == Empty
    ensures count < 0 || count >= st.count ==> r.0 == st && r.1 == Empty
    ensures 0 <= count < st.count ==> r.0.count == count && r.1 == st.(count := st.count - count)
  {
    if count < 0 || count >= st.count then (st, Empty)
    else
      (ItemStack(st.id, count, st.damage), st.(count := st.count - count))
  }

  /** The stack `removeItem` returns and the remaining slot hold exactly
      what the slot held. */
  lemma RemoveConserves(st: ItemStack, count: int)
    requires !IsEmpty(st)
    ensures RemoveSpec(st, count).0.count + RemoveSpec(st, count).1.count == st.count
  {
  }

  // ---------------------------------------------------------------------
  // The inventory object
  // ---------------------------------------------------------------------

  class Inventory {
    const items: array<ItemStack>
    var selected: int

    ghost predicate Valid()
      reads this
    {
      items.Length == TotalSize
    }

    /** The starting hotbar: nine full stacks of building blocks. */
    constructor ()
      ensures Valid() && fresh(items) && selected == 0
      ensures items[..HotbarSize] == [ItemStack(1, 64, 0), ItemStack(4, 64, 0), ItemStack(3, 64, 0),
                                      ItemStack(2, 64, 0), ItemStack(5, 64, 0), ItemStack(17, 64, 0),
                                      ItemStack(24, 64, 0), ItemStack(45, 64, 0), ItemStack(49, 64, 0)]
      ensures forall j :: HotbarSize <= j < TotalSize ==> items[j] == Empty
      ensures AllGood(items[..])
    {
      var a := new ItemStack[TotalSize](j => Empty);
      a[0], a[1], a[2] := ItemStack(1, 64, 0), ItemStack(4, 64, 0), ItemStack(3, 64, 0);
      a[3], a[4], a[5] := ItemStack(2, 64, 0), ItemStack(5, 64, 0), ItemStack(17, 64, 0);
      a[6], a[7], a[8] := ItemStack(24, 64, 0), ItemStack(45, 64, 0), ItemStack(49, 64, 0);
      items := a;
      selected := 0;
    }

    /** `getItem`: the slot's stack, or an empty stack out of range. */
    method GetItem(slot: int) returns (st: ItemStack)
      requires Valid()
      ensures 0 <= slot < TotalSize ==> st == items[slot]
      ensures !(0 <= slot < TotalSize) ==> st == Empty && IsEmpty(st)
    {
      if slot < 0 || slot >= TotalSize {
        return Empty;
      }
      return items[slot];
    }

    /** `getSelected`: the stack in the selected hotbar slot. */
    method GetSelected() returns (st: ItemStack)
      requires Valid() && 0 <= selected < TotalSize
      ensures st == items[selected]
    {
      return items[selected];
    }

    /** `getArmor(i)`: slot 36 + i. */
    method GetArmor(slot: int) returns (st: ItemStack)
      requires Valid() && 0 <= slot < ArmorSize
      ensures st == items[StorageSize + slot]
    {
      return items[HotbarSize + MainSize + slot];
    }

    /** `setItem`: stores the stack in a valid slot, ignores others. */
    method SetItem(slot: int, st: ItemStack)
      requires Valid()
      modifies items
      ensures 0 <= slot < TotalSize ==> items[..] == old(items[..])[slot := st]
      ensures !(0 <= slot < TotalSize) ==> items[..] == old(items[..])
    {
      if slot >= 0 && slot < TotalSize {
        items[slot] := st;
      }
    }

    /** `findSlotWithItem`: the first slot in 0..35 with the id, or -1. */
    method FindSlotWithItem(itemId: int) returns (k: int)
      requires Valid()
      ensures k == FindSlot(items[..], itemId, 0)
    {
      var i := 0;
      while i < StorageSize
        invariant 0 <= i <= StorageSize
        invariant FindSlot(items[..], itemId, i) == FindSlot(items[..], itemId, 0)
      {
        if items[i].id == itemId {
          return i;
        }
        i := i + 1;
      }
      return -1;
    }

    /** `hasItem`: some slot in 0..35 holds the id. */
    method HasItem(itemId: int) returns (b: bool)
      requires Valid()
      ensures b <==> exists j :: 0 <= j < StorageSize && items[j].id == itemId
    {
      var k := FindSlotWithItem(itemId);
      b := k >= 0;
    }

    /** `swapSlots`. */
    method SwapSlots(slot1: int, slot2: int)
      requires Valid()
      modifies items
      ensures items[..] == Swap(old(items[..]), slot1, slot2)
    {
      if slot1 >= 0 && slot1 < TotalSize && slot2 >= 0 && slot2 < TotalSize {
        items[slot1], items[slot2] := items[slot2], items[slot1];
      }
    }

    /** `removeItem(slot, count)`: nothing from an invalid or empty slot;
        otherwise the whole stack or `count` items split off. */
    method RemoveItem(slot: int, count: int) returns (removed: ItemStack)
      requires Valid()
      modifies items
      ensures !(0 <= slot < TotalSize) || IsEmpty(old(items[slot])) ==>
                removed == Empty && items[..] == old(items[..])
      ensures 0 <= slot < TotalSize && !IsEmpty(old(items[slot])) ==>
                var r := RemoveSpec(old(items[slot]), count);
                removed == r.0 && items[..] == old(items[..])[slot := r.1]
    {
      if slot < 0 || slot >= TotalSize || IsEmpty(items[slot]) {
        return Empty;
      }
      if count < 0 || count >= items[slot].count {
        removed := items[slot];
        items[slot] := Empty;
        return;
      }
      removed := ItemStack(items[slot].id, count, items[slot].damage);
      items[slot] := items[slot].(count := items[slot].count - count);
    }

    /** The stacking loop shared by `add` and `addToHotbar`, over slots
        below `hi`. */
    method StackLoop(hi: nat, itemId: int, count: int, damage: int) returns (n: int, done: bool)
      requires Valid() && hi <= TotalSize
      modifies items
      ensures (items[..], n, done) == StackPass(old(items[..]), 0, hi, itemId, damage, count)
    {
      n := count;
      ghost var s0 := items[..];
      var i := 0;
      while i < hi
        invariant 0 <= i <= hi
        invariant StackPass(items[..], i, hi, itemId, damage, n) == StackPass(s0, 0, hi, itemId, damage, count)
      {
        if items[i].id == itemId && items[i].damage == damage {
          var (st, leftover) := StackAdd(items[i], n);
          items[i] := st;
          if leftover == 0 {
            return 0, true;
          }
          n := leftover;
        }
        i := i + 1;
      }
      done := false;
    }

    /** The loop over empty slots below `hi`: each takes at most a full
        stack, and the loop returns once the count is used up. */
    method FillLoop(hi: nat, itemId: int, count: int, damage: int) returns (n: int)
      requires Valid() && hi <= TotalSize
      modifies items
      ensures (items[..], n) == FillPass(old(items[..]), 0, hi, itemId, damage, count)
    {
      n := count;
      ghost var s0 := items[..];
      var i := 0;
      while i < hi
        invariant 0 <= i <= hi
        invariant FillPass(items[..], i, hi, itemId, damage, n) == FillPass(s0, 0, hi, itemId, damage, count)
      {
        if IsEmpty(items[i]) {
          var toAdd := Min(n, MaxStackSize);
          items[i] := ItemStack(itemId, toAdd, damage);
          n := n - toAdd;
          if n <= 0 {
            return;
          }
        }
        i := i + 1;
      }
    }

    /** `add(itemId, count, damage)`: stack onto slots of the same kind in
        0..35, then start new stacks in empty slots. */
    method Add(itemId: int, count: int, damage: int) returns (ok: bool)
      requires Valid()
      modifies items
      ensures (items[..], ok) == AddSpec(old(items[..]), itemId, count, damage)
    {
      var n, done := StackLoop(StorageSize, itemId, count, damage);
      if done {
        return true;
      }
      n := FillLoop(StorageSize, itemId, n, damage);
      return n <= 0;
    }

    /** `addToHotbar`, with the empty hotbar slots capped at a full stack
        each (see `AddToHotbarAsWritten` for the code as written). */
    method AddToHotbar(itemId: int, count: int, damage: int) returns (ok: bool)
      requires Valid()
      modifies items
      ensures (items[..], ok) == AddToHotbarSpec(old(items[..]), itemId, count, damage)
    {
      var n, done := StackLoop(HotbarSize, itemId, count, damage);
      if done {
        return true;
      }
      n := FillLoop(HotbarSize, itemId, n, damage);
      if n <= 0 {
        return true;
      }
      ok := Add(itemId, n, damage);
    }
  }
}
