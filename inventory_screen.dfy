/**
 * The C++ port's inventory screen: which slot the mouse is over, and the
 * click state machine that moves stacks between the slots and the item
 * held on the cursor.
 */
module InventoryScreen {
  import opened Inventory

  const SlotSize := 18
  /** GLFW's mouse button numbers. */
  const LeftButton := 0
  const RightButton := 1

  // ---------------------------------------------------------------------
  // Hit testing
  // ---------------------------------------------------------------------

  /** `isHovering`: the 16-pixel slot at (slotX, slotY) widened by one pixel
      on every side. */
  predicate IsHovering(slotX: int, slotY: int, mx: int, my: int)
  {
    mx >= slotX - 1 && mx < slotX + 16 + 1 && my >= slotY - 1 && my < slotY + 16 + 1
  }

  /** Where slot `s` is drawn, relative to the top-left of the screen
      (hotbar row at the bottom, three main rows above it, the armour
      column on the left with the helmet, slot 39, on top). */
  function SlotX(s: int, guiLeft: int): int
    requires 0 <= s < TotalSize
  {
    if s < HotbarSize then guiLeft + 8 + s * SlotSize
    else if s < StorageSize then guiLeft + 8 + ((s - HotbarSize) % 9) * SlotSize
    else guiLeft + 8
  }

  function SlotY(s: int, guiTop: int): int
    requires 0 <= s < TotalSize
  {
    if s < HotbarSize then guiTop + 142
    else if s < StorageSize then guiTop + 84 + ((s - HotbarSize) / 9) * SlotSize
    else guiTop + 8 + (39 - s) * SlotSize
  }

  predicate Hovered(s: int, guiLeft: int, guiTop: int, mx: int, my: int)
    requires 0 <= s < TotalSize
  {
    IsHovering(SlotX(s, guiLeft), SlotY(s, guiTop), mx, my)
  }

  /** The widened hit areas do not overlap, so the mouse is over at most
      one slot and the order of the search does not matter. */
  lemma HitAreasDisjoint(a: int, b: int, guiLeft: int, guiTop: int, mx: int, my: int)
    requires 0 <= a < TotalSize && 0 <= b < TotalSize
    requires Hovered(a, guiLeft, guiTop, mx, my) && Hovered(b, guiLeft, guiTop, mx, my)
    ensures a == b
  {
    var ra, rb := Row(a), Row(b);
    var ca, cb := Column(a), Column(b);
    assert ra == rb;
    assert ca == cb;
  }

  /** The row of a slot from the top of the screen, in steps of 18 pixels:
      armour 0..3, main 4..6 (with 2 pixels to spare), hotbar 7. */
  function Row(s: int): int
    requires 0 <= s < TotalSize
  {
    if s < HotbarSize then 7 else if s < StorageSize then 4 + (s - HotbarSize) / 9 else 39 - s
  }

  function Column(s: int): int
    requires 0 <= s < TotalSize
  {
    if s < HotbarSize then s else if s < StorageSize then (s - HotbarSize) % 9 else 0
  }

  // ---------------------------------------------------------------------
  // Clicks
  // ---------------------------------------------------------------------

  /** The slot's stack, the cursor's stack and the slot the cursor stack
      came from, after one click. */
  datatype ClickState = ClickState(slotItem: ItemStack, dragged: ItemStack, fromSlot: int)

  /** Whether a cursor stack may be merged into a slot's non-empty stack.
      The source compares ids only; `checkDamage` also compares damage
      values, as `Inventory.add` does when it stacks. */
  predicate CanMerge(st: ItemStack, dragged: ItemStack, checkDamage: bool)
  {
    st.id == dragged.id && (checkDamage ==> st.damage == dragged.damage) && st.count < MaxStackSize
  }

  /** `handleSlotClick` on one valid slot. */
  function ClickWith(st: ItemStack, dragged: ItemStack, fromSlot: int, slot: int, button: int,
                     checkDamage: bool): ClickState
  {
    if button == LeftButton then
      if IsEmpty(dragged) then
        if !IsEmpty(st) then ClickState(Empty, st, slot) else ClickState(st, dragged, fromSlot)
      else if IsEmpty(st) then ClickState(dragged, Empty, -1)
      else if CanMerge(st, dragged, checkDamage) then
        var transfer := Min(dragged.count, MaxStackSize - st.count);
        var d := dragged.(count := dragged.count - transfer);
        if d.count <= 0 then ClickState(st.(count := st.count + transfer), Empty, -1)
        else ClickState(st.(count := st.count + transfer), d, fromSlot)
      else ClickState(dragged, st, slot)
    else if button == RightButton then
      if IsEmpty(dragged) then
        if !IsEmpty(st) then
          var half := (st.count + 1) / 2;
          var left := st.count - half;
          ClickState(if left <= 0 then Empty else st.(count := left), ItemStack(st.id, half, st.damage), slot)
        else ClickState(st, dragged, fromSlot)
      else
        var d := dragged.(count := dragged.count - 1);
        var d' := if d.count <= 0 then Empty else d;
        var from' := if d.count <= 0 then -1 else fromSlot;
        if IsEmpty(st) then ClickState(ItemStack(dragged.id, 1, dragged.damage), d', from')
        else if CanMerge(st, dragged, checkDamage) then ClickState(st.(count := st.count + 1), d', from')
        else ClickState(st, dragged, fromSlot)
    else ClickState(st, dragged, fromSlot)
  }

  /** The click as the source writes it: merging looks at ids only. */
  function ClickAsWritten(st: ItemStack, dragged: ItemStack, fromSlot: int, slot: int, button: int): ClickState
  {
    ClickWith(st, dragged, fromSlot, slot, button, false)
  }

  /** The click with merging restricted to stacks of the same id and
      damage; this is the click the screen below performs. */
  function Click(st: ItemStack, dragged: ItemStack, fromSlot: int, slot: int, button: int): ClickState
  {
    ClickWith(st, dragged, fromSlot, slot, button, true)
  }

  /** How many items of kind (id, damage) a stack holds. */
  function CountOf(s: ItemStack, id: int, damage: int): int
  {
    if !IsEmpty(s) && SameKind(s, id, damage) then s.count else 0
  }

  /** Merging by id alone turns items of one damage value into another:
      one black wool (35:15) clicked onto one white wool (35:0) becomes two
      white wool, and the black wool is gone. */
  lemma MergeChangesDamage()
    ensures ClickAsWritten(ItemStack(35, 1, 0), ItemStack(35, 1, 15), 5, 0, LeftButton)
            == ClickState(ItemStack(35, 2, 0), Empty, -1)
    ensures CountOf(ItemStack(35, 1, 0), 35, 15) + CountOf(ItemStack(35, 1, 15), 35, 15) == 1
    ensures CountOf(ItemStack(35, 2, 0), 35, 15) + CountOf(Empty, 35, 15) == 0
  {
  }

  /** With the damage check, a click keeps the number of items of every
      kind held by the slot and the cursor together. */
  lemma ClickKeepsKinds(st: ItemStack, dragged: ItemStack, fromSlot: int, slot: int, button: int,
                        id: int, damage: int)
    requires Good(st) && Good(dragged)
    ensures var r := Click(st, dragged, fromSlot, slot, button);
      CountOf(r.slotItem, id, damage) + CountOf(r.dragged, id, damage)
      == CountOf(st, id, damage) + CountOf(dragged, id, damage)
  {
  }

  /** A click neither creates nor destroys items: the slot and the cursor
      hold as many together as before, and both stay well kept. */
  lemma ClickConserves(st: ItemStack, dragged: ItemStack, fromSlot: int, slot: int, button: int,
                       checkDamage: bool)
    requires Good(st) && Good(dragged)
    ensures var r := ClickWith(st, dragged, fromSlot, slot, button, checkDamage);
      r.slotItem.count + r.dragged.count == st.count + dragged.count
      && Good(r.slotItem) && Good(r.dragged)
  {
  }

  /** A left click with an empty cursor picks up the whole stack; with a
      stack on the cursor it puts it down, merges it or swaps. */
  lemma LeftClick(st: ItemStack, dragged: ItemStack, fromSlot: int, slot: int)
    requires Good(st) && Good(dragged)
    ensures var r := Click(st, dragged, fromSlot, slot, LeftButton);
      (IsEmpty(dragged) && !IsEmpty(st) ==> r.slotItem == Empty && r.dragged == st && r.fromSlot == slot)
      && (!IsEmpty(dragged) && IsEmpty(st) ==> r.slotItem == dragged && r.dragged == Empty)
      && (!IsEmpty(dragged) && !IsEmpty(st) && CanMerge(st, dragged, true) ==>
            r.slotItem.count - st.count == Min(dragged.count, MaxStackSize - st.count)
            && r.slotItem.count <= MaxStackSize && r.slotItem.id == st.id)
      && (!IsEmpty(dragged) && !IsEmpty(st) && !CanMerge(st, dragged, true) ==>
            r.slotItem == dragged && r.dragged == st && r.fromSlot == slot)
  {
  }

  /** A right click with an empty cursor takes the larger half of the
      stack; with a stack on the cursor it puts exactly one item into an
      empty or matching, non-full slot and otherwise does nothing. */
  lemma RightClick(st: ItemStack, dragged: ItemStack, fromSlot: int, slot: int)
    requires Good(st) && Good(dragged)
    ensures var r := Click(st, dragged, fromSlot, slot, RightButton);
      (IsEmpty(dragged) && !IsEmpty(st) ==>
         r.dragged.count == (st.count + 1) / 2 && r.dragged.id == st.id && r.slotItem.count == st.count / 2)
      && (!IsEmpty(dragged) && (IsEmpty(st) || CanMerge(st, dragged, true)) ==>
            r.slotItem.count == st.count + 1 && r.slotItem.id == dragged.id && r.dragged.count == dragged.count - 1)
      && (!IsEmpty(dragged) && !IsEmpty(st) && !CanMerge(st, dragged, true) ==>
            r == ClickState(st, dragged, fromSlot))
  {
  }

  class InventoryScreen {
    var guiLeft: int
    var guiTop: int
    var draggedItem: ItemStack
    var draggedFromSlot: int
    /** The player's inventory, absent when there is no player. */
    const inv: Inventory?

    constructor (inv: Inventory?)
      ensures this.inv == inv && guiLeft == 0 && guiTop == 0
      ensures draggedItem == Empty && draggedFromSlot == -1
    {
      this.inv := inv;
      guiLeft, guiTop := 0, 0;
      draggedItem, draggedFromSlot := Empty, -1;
    }

    /** `getSlotAtPosition`: hotbar, then main rows, then armour from the
        top; the first slot whose hit area holds the point, or -1. */
    method GetSlotAtPosition(mx: int, my: int) returns (k: int)
      ensures k == -1 || (0 <= k < TotalSize && Hovered(k, guiLeft, guiTop, mx, my))
      ensures k == -1 ==> forall s :: 0 <= s < TotalSize ==> !Hovered(s, guiLeft, guiTop, mx, my)
    {
      var i := 0;
      while i < 9
        invariant 0 <= i <= 9
        invariant forall s :: 0 <= s < i ==> !Hovered(s, guiLeft, guiTop, mx, my)
      {
        var slotX := guiLeft + 8 + i * SlotSize;
        var slotY := guiTop + 142;
        if IsHovering(slotX, slotY, mx, my) {
          return i;
        }
        i := i + 1;
      }
      var row := 0;
      while row < 3
        invariant 0 <= row <= 3
        invariant forall s :: 0 <= s < 9 + row * 9 ==> !Hovered(s, guiLeft, guiTop, mx, my)
      {
        var col := 0;
        while col < 9
          invariant 0 <= col <= 9
          invariant forall s :: 0 <= s < 9 + row * 9 + col ==> !Hovered(s, guiLeft, guiTop, mx, my)
        {
          var slot := 9 + row * 9 + col;
          var slotX := guiLeft + 8 + col * SlotSize;
          var slotY := guiTop + 84 + row * SlotSize;
          assert SlotX(slot, guiLeft) == slotX && SlotY(slot, guiTop) == slotY;
          if IsHovering(slotX, slotY, mx, my) {
            return slot;
          }
          col := col + 1;
        }
        row := row + 1;
      }
      i := 0;
      while i < 4
        invariant 0 <= i <= 4
        invariant forall s :: 0 <= s < StorageSize ==> !Hovered(s, guiLeft, guiTop, mx, my)
        invariant forall s :: 39 - i < s < TotalSize ==> !Hovered(s, guiLeft, guiTop, mx, my)
      {
        var slot := 36 + (3 - i);
        var slotX := guiLeft + 8;
        var slotY := guiTop + 8 + i * SlotSize;
        if IsHovering(slotX, slotY, mx, my) {
          return slot;
        }
        i := i + 1;
      }
      return -1;
    }

    /** `handleSlotClick(slot, button)`: a negative slot or a missing player
        changes nothing; otherwise the slot and the cursor change as
        `Click` says and no other slot changes. */
    method HandleSlotClick(slot: int, button: int)
      requires slot < TotalSize
      requires inv != null ==> inv.Valid()
      modifies this, if inv == null then {} else {inv.items}
      ensures slot < 0 || inv == null ==>
                draggedItem == old(draggedItem) && draggedFromSlot == old(draggedFromSlot)
      ensures slot < 0 && inv != null ==> inv.items[..] == old(inv.items[..])
      ensures 0 <= slot && inv != null ==>
                var r := Click(old(inv.items[slot]), old(draggedItem), old(draggedFromSlot), slot, button);
                inv.items[..] == old(inv.items[..])[slot := r.slotItem]
                && draggedItem == r.dragged && draggedFromSlot == r.fromSlot
      ensures guiLeft == old(guiLeft) && guiTop == old(guiTop)
    {
      if slot < 0 {
        return;
      }
      if inv == null {
        return;
      }
      if button == LeftButton {
        if IsEmpty(draggedItem) {
          var slotItem := inv.GetItem(slot);
          if !IsEmpty(slotItem) {
            draggedItem := slotItem;
            draggedFromSlot := slot;
            inv.SetItem(slot, Empty);
          }
        } else {
          var slotItem := inv.items[slot];
          if IsEmpty(slotItem) {
            inv.SetItem(slot, draggedItem);
            draggedItem := Empty;
            draggedFromSlot := -1;
          } else if slotItem.id == draggedItem.id && slotItem.damage == draggedItem.damage && slotItem.count < 64 {
            var space := 64 - slotItem.count;
            var transfer := Min(draggedItem.count, space);
            inv.items[slot] := slotItem.(count := slotItem.count + transfer);
            draggedItem := draggedItem.(count := draggedItem.count - transfer);
            if draggedItem.count <= 0 {
              draggedItem := Empty;
              draggedFromSlot := -1;
            }
          } else {
            var temp := slotItem;
            inv.SetItem(slot, draggedItem);
            draggedItem := temp;
            draggedFromSlot := slot;
          }
        }
      } else if button == RightButton {
        if IsEmpty(draggedItem) {
          var slotItem := inv.items[slot];
          if !IsEmpty(slotItem) {
            var half := (slotItem.count + 1) / 2;
            draggedItem := ItemStack(slotItem.id, half, slotItem.damage);
            inv.items[slot] := slotItem.(count := slotItem.count - half);
            if inv.items[slot].count <= 0 {
              inv.items[slot] := Empty;
            }
            draggedFromSlot := slot;
          }
        } else {
          var slotItem := inv.items[slot];
          if IsEmpty(slotItem) {
            inv.SetItem(slot, ItemStack(draggedItem.id, 1, draggedItem.damage));
            draggedItem := draggedItem.(count := draggedItem.count - 1);
            if draggedItem.count <= 0 {
              draggedItem := Empty;
              draggedFromSlot := -1;
            }
          } else if slotItem.id == draggedItem.id && slotItem.damage == draggedItem.damage && slotItem.count < 64 {
            inv.items[slot] := slotItem.(count := slotItem.count + 1);
            draggedItem := draggedItem.(count := draggedItem.count - 1);
            if draggedItem.count <= 0 {
              draggedItem := Empty;
              draggedFromSlot := -1;
            }
          }
        }
      }
    }

    /** `removed()`: closing the screen puts a held cursor stack back into
        the inventory (what does not fit is lost) and empties the cursor. */
    method Removed()
      requires inv != null ==> inv.Valid()
      modifies this, if inv == null then {} else {inv.items}
      ensures inv != null && !IsEmpty(old(draggedItem)) ==>
                draggedItem == Empty && draggedFromSlot == -1
      ensures inv == null || IsEmpty(old(draggedItem)) ==>
                draggedItem == old(draggedItem) && draggedFromSlot == old(draggedFromSlot)
      ensures inv != null && !IsEmpty(old(draggedItem)) ==>
                inv.items[..] == AddSpec(old(inv.items[..]), old(draggedItem.id), old(draggedItem.count), old(draggedItem.damage)).0
      ensures inv != null && IsEmpty(old(draggedItem)) ==> inv.items[..] == old(inv.items[..])
      ensures guiLeft == old(guiLeft) && guiTop == old(guiTop)
    {
      if !IsEmpty(draggedItem) && inv != null {
        var _ := inv.Add(draggedItem.id, draggedItem.count, draggedItem.damage);
        draggedItem := Empty;
        draggedFromSlot := -1;
      }
    }
  }
}
