/**
 * A crafting recipe whose ingredients may sit anywhere in the 3x3 grid.
 * `matches` walks the grid row by row and lets every item take the first
 * still-unused ingredient that accepts it; the recipe matches when every
 * item found one and no ingredient is left over.
 */
module ShapelessRecipe {
  import opened Wrappers

  /** An item instance: id, stack size and aux (damage) value. */
  datatype ItemInstance = ItemInstance(id: int, count: int, aux: int)

  /** The aux value -1 in an ingredient accepts any aux value. */
  const AnyAux := -1

  /** An ingredient accepts an item of its id whose aux value is its own,
      or any aux value when its own is -1. */
  predicate Accepts(ingredient: ItemInstance, item: ItemInstance)
  {
    item.id == ingredient.id && (ingredient.aux == AnyAux || item.aux == ingredient.aux)
  }

  /** A wildcard ingredient accepts exactly the items of its id. */
  lemma WildcardAcceptsId(ingredient: ItemInstance, item: ItemInstance)
    requires ingredient.aux == AnyAux
    ensures Accepts(ingredient, item) <==> item.id == ingredient.id
  {
  }

  /** The index of the first ingredient in `list` that accepts `item`. */
  function FirstAccepting(list: seq<ItemInstance>, item: ItemInstance): (r: Option<nat>)
    ensures r.Some? ==> r.value < |list| && Accepts(list[r.value], item)
    ensures r.Some? ==> forall j :: 0 <= j < r.value ==> !Accepts(list[j], item)
    ensures r.None? ==> forall j :: 0 <= j < |list| ==> !Accepts(list[j], item)
  {
    if |list| == 0 then None
    else if Accepts(list[0], item) then Some(0)
    else match FirstAccepting(list[1..], item)
      case None => None
      case Some(k) => Some(k + 1)
  }

  /** `list` without its element at `k`. */
  function RemoveAt(list: seq<ItemInstance>, k: nat): (r: seq<ItemInstance>)
    requires k < |list|
    ensures |r| == |list| - 1
    ensures multiset(r) + multiset{list[k]} == multiset(list)
  {
    assert list == list[..k] + [list[k]] + list[k + 1..];
    list[..k] + list[k + 1..]
  }

  /** The greedy walk of `matches` over the cells in visiting order:
      `None` when some item finds no ingredient, otherwise the unused
      ingredients and, in order, the ingredient each item took. */
  function Consume(remaining: seq<ItemInstance>, cells: seq<Option<ItemInstance>>): (r: Option<(seq<ItemInstance>, seq<ItemInstance>)>)
    ensures r.Some? ==> |r.value.1| == |NonEmpty(cells)|
    ensures r.Some? ==> multiset(r.value.0) + multiset(r.value.1) == multiset(remaining)
    ensures r.Some? ==> forall k :: 0 <= k < |r.value.1| ==> Accepts(r.value.1[k], NonEmpty(cells)[k])
    decreases |cells|
  {
    if |cells| == 0 then Some((remaining, []))
    else if cells[0].None? then Consume(remaining, cells[1..])
    else match FirstAccepting(remaining, cells[0].value)
      case None => None
      case Some(k) =>
        match Consume(RemoveAt(remaining, k), cells[1..])
        case None => None
        case Some(res) => Some((res.0, [remaining[k]] + res.1))
  }

  /** The items in the cells, in visiting order. */
  function NonEmpty(cells: seq<Option<ItemInstance>>): seq<ItemInstance>
  {
    if |cells| == 0 then []
    else if cells[0].None? then NonEmpty(cells[1..])
    else [cells[0].value] + NonEmpty(cells[1..])
  }

  /** The 3x3 grid as `getItem(x, y)` sees it, cell (x, y) at index
      x + 3 * y; rows are walked top to bottom, each left to right. */
  predicate IsGrid(grid: seq<Option<ItemInstance>>)
  {
    |grid| == 9
  }

  /** What `matches` decides. */
  predicate MatchesSpec(ingredients: seq<ItemInstance>, grid: seq<Option<ItemInstance>>)
  {
    var r := Consume(ingredients, grid);
    r.Some? && r.value.0 == []
  }

  /** A match pairs every item in the grid with its own ingredient that
      accepts it, and uses every ingredient exactly once. */
  lemma MatchPairsItems(ingredients: seq<ItemInstance>, grid: seq<Option<ItemInstance>>)
    requires MatchesSpec(ingredients, grid)
    ensures var taken := Consume(ingredients, grid).value.1;
      multiset(taken) == multiset(ingredients)
      && |NonEmpty(grid)| == |ingredients|
      && forall k :: 0 <= k < |taken| ==> Accepts(taken[k], NonEmpty(grid)[k])
  {
    var taken := Consume(ingredients, grid).value.1;
    assert multiset(taken) == multiset(ingredients);
    assert |multiset(taken)| == |taken|;
  }

  /** What an exact (non-wildcard) ingredient compares: id and aux value,
      not the stack size. */
  function Kind(item: ItemInstance): (int, int)
  {
    (item.id, item.aux)
  }

  function Kinds(s: seq<ItemInstance>): (r: seq<(int, int)>)
    ensures |r| == |s| && forall i :: 0 <= i < |s| ==> r[i] == Kind(s[i])
  {
    seq(|s|, i requires 0 <= i < |s| => Kind(s[i]))
  }

  lemma KindsRemoveAt(list: seq<ItemInstance>, k: nat)
    requires k < |list|
    ensures multiset(Kinds(RemoveAt(list, k))) + multiset{Kind(list[k])} == multiset(Kinds(list))
  {
    var ks := Kinds(list);
    assert ks == ks[..k] + [ks[k]] + ks[k + 1..];
    assert Kinds(RemoveAt(list, k)) == ks[..k] + ks[k + 1..];
  }

  /** Without wildcard ingredients the greedy walk is exact: the recipe
      matches just when the grid holds the ingredients' kinds, each as
      often as the recipe lists it, in any arrangement. */
  lemma {:induction false} NoWildcardExact(remaining: seq<ItemInstance>, cells: seq<Option<ItemInstance>>)
    requires forall i :: 0 <= i < |remaining| ==> remaining[i].aux != AnyAux
    ensures (Consume(remaining, cells).Some? && Consume(remaining, cells).value.0 == [])
      <==> multiset(Kinds(NonEmpty(cells))) == multiset(Kinds(remaining))
    decreases |cells|
  {
    if |cells| == 0 {
      if |remaining| > 0 {
        assert Kinds(remaining)[0] in multiset(Kinds(remaining));
      }
    } else if cells[0].None? {
      NoWildcardExact(remaining, cells[1..]);
    } else {
      var x := cells[0].value;
      match FirstAccepting(remaining, x)
      case None =>
        KindsFirst(cells);
        NotAccepted(remaining, x);
      case Some(k) =>
        var rest := RemoveAt(remaining, k);
        forall i | 0 <= i < |rest|
          ensures rest[i].aux != AnyAux
        {
          assert rest[i] in multiset(rest);
          assert rest[i] in multiset(remaining);
        }
        NoWildcardExact(rest, cells[1..]);
        TakeExact(remaining, cells, k);
    }
  }

  /** Taking an exact ingredient for the first item: the walk ends with
      nothing left, and the kinds agree, just when the same holds for the
      rest of the walk. */
  lemma TakeExact(remaining: seq<ItemInstance>, cells: seq<Option<ItemInstance>>, k: nat)
    requires |cells| > 0 && cells[0].Some? && FirstAccepting(remaining, cells[0].value) == Some(k)
    requires remaining[k].aux != AnyAux
    ensures var rest := RemoveAt(remaining, k);
      ((Consume(remaining, cells).Some? && Consume(remaining, cells).value.0 == [])
        <==> (Consume(rest, cells[1..]).Some? && Consume(rest, cells[1..]).value.0 == []))
      && (multiset(Kinds(NonEmpty(cells))) == multiset(Kinds(remaining))
        <==> multiset(Kinds(NonEmpty(cells[1..]))) == multiset(Kinds(rest)))
  {
    var x := cells[0].value;
    assert Kind(remaining[k]) == Kind(x);
    KindsTake(remaining, cells, k);
  }

  lemma KindsTake(remaining: seq<ItemInstance>, cells: seq<Option<ItemInstance>>, k: nat)
    requires |cells| > 0 && cells[0].Some? && k < |remaining| && Kind(remaining[k]) == Kind(cells[0].value)
    ensures multiset(Kinds(NonEmpty(cells))) == multiset(Kinds(remaining))
      <==> multiset(Kinds(NonEmpty(cells[1..]))) == multiset(Kinds(RemoveAt(remaining, k)))
  {
    KindsFirst(cells);
    KindsRemoveAt(remaining, k);
    Cancel(multiset(Kinds(NonEmpty(cells[1..]))), multiset(Kinds(RemoveAt(remaining, k))), Kind(cells[0].value));
  }

  lemma KindsFirst(cells: seq<Option<ItemInstance>>)
    requires |cells| > 0 && cells[0].Some?
    ensures multiset(Kinds(NonEmpty(cells))) == multiset{Kind(cells[0].value)} + multiset(Kinds(NonEmpty(cells[1..])))
  {
    var x, rest := cells[0].value, NonEmpty(cells[1..]);
    assert NonEmpty(cells) == [x] + rest;
    KindsCons(x, rest);
  }

  lemma KindsCons(x: ItemInstance, rest: seq<ItemInstance>)
    ensures Kinds([x] + rest) == [Kind(x)] + Kinds(rest)
  {
    var ks, kr := Kinds([x] + rest), Kinds(rest);
    forall i | 0 <= i < |ks|
      ensures ks[i] == ([Kind(x)] + kr)[i]
    {
      if i > 0 { assert ([x] + rest)[i] == rest[i - 1]; }
    }
  }

  /** An item no exact ingredient accepts has a kind the list lacks. */
  lemma NotAccepted(remaining: seq<ItemInstance>, x: ItemInstance)
    requires forall i :: 0 <= i < |remaining| ==> remaining[i].aux != AnyAux
    requires forall j :: 0 <= j < |remaining| ==> !Accepts(remaining[j], x)
    ensures Kind(x) !in multiset(Kinds(remaining))
  {
    assert Kind(x) !in Kinds(remaining);
  }

  lemma Cancel<T>(a: multiset<T>, b: multiset<T>, x: T)
    ensures multiset{x} + a == b + multiset{x} <==> a == b
  {
    if multiset{x} + a == b + multiset{x} {
      assert a == (multiset{x} + a) - multiset{x};
    }
  }

  class ShapelessRecipy {
    const result: ItemInstance
    const ingredients: seq<ItemInstance>

    constructor (result: ItemInstance, ingredients: seq<ItemInstance>)
      ensures this.result == result && this.ingredients == ingredients
    {
      this.result := result;
      this.ingredients := ingredients;
    }

    /** `matches`: the grid walk over a copy of the ingredient list. */
    method Matches(grid: seq<Option<ItemInstance>>) returns (b: bool)
      requires IsGrid(grid)
      ensures b == MatchesSpec(ingredients, grid)
    {
      var remaining := ingredients;
      ghost var taken: seq<ItemInstance> := [];
      assert grid[0..] == grid;
      PrefixThenEmpty(Consume(ingredients, grid));
      var y := 0;
      while y < 3
        invariant 0 <= y <= 3
        invariant Walked(grid, taken, remaining, 3 * y)
      {
        var x := 0;
        while x < 3
          invariant 0 <= x <= 3
          invariant Walked(grid, taken, remaining, x + 3 * y)
        {
          var ok;
          ok, taken, remaining := TakeCell(grid, taken, remaining, x + 3 * y);
          if !ok {
            return false;
          }
          x := x + 1;
        }
        y := y + 1;
      }
      WalkedAll(grid, taken, remaining);
      return remaining == [];
    }

    /** One cell of the walk: an empty cell is skipped, an item takes the
        first ingredient that accepts it out of the list, and an item no
        ingredient accepts means the grid does not match. */
    method TakeCell(grid: seq<Option<ItemInstance>>, ghost taken: seq<ItemInstance>, remaining: seq<ItemInstance>, i: nat)
      returns (ok: bool, ghost taken': seq<ItemInstance>, remaining': seq<ItemInstance>)
      requires i < |grid| && Walked(grid, taken, remaining, i)
      ensures ok ==> Walked(grid, taken', remaining', i + 1)
      ensures !ok ==> !MatchesSpec(ingredients, grid)
    {
      var item := grid[i];
      assert grid[i..][1..] == grid[i + 1..];
      ConsumeStep(taken, remaining, grid[i..]);
      taken', remaining' := taken, remaining;
      if item.Some? {
        var k := FindIngredient(remaining, item.value);
        if k < 0 {
          return false, taken', remaining';
        }
        taken' := taken + [remaining[k]];
        remaining' := RemoveAt(remaining, k);
      }
      ok := true;
    }

    /** Once every cell is walked, the grid matches just when no
        ingredient is left. */
    lemma WalkedAll(grid: seq<Option<ItemInstance>>, taken: seq<ItemInstance>, remaining: seq<ItemInstance>)
      requires Walked(grid, taken, remaining, |grid|)
      ensures MatchesSpec(ingredients, grid) <==> remaining == []
    {
      assert grid[|grid|..] == [];
    }

    /** The walk over the whole grid is the ingredients taken so far
        followed by the walk of what remains over the cells from `i` on. */
    ghost predicate Walked(grid: seq<Option<ItemInstance>>, taken: seq<ItemInstance>, remaining: seq<ItemInstance>, i: nat)
      requires i <= |grid|
    {
      Consume(ingredients, grid) == PrefixThen(taken, Consume(remaining, grid[i..]))
    }

    /** `assemble`: a copy of the result, whatever the grid holds. */
    function Assemble(grid: seq<Option<ItemInstance>>): (r: ItemInstance)
      ensures r.id == result.id && r.count == result.count && r.aux == result.aux
    {
      ItemInstance(result.id, result.count, result.aux)
    }

    /** `size`: the number of ingredients, which is also the number of
        items in any grid the recipe matches. */
    function Size(): (n: nat)
      ensures n == |ingredients|
      ensures forall grid :: MatchesSpec(ingredients, grid) ==> n == |NonEmpty(grid)|
    {
      SizeIsItemCount(ingredients);
      |ingredients|
    }
  }

  lemma SizeIsItemCount(ingredients: seq<ItemInstance>)
    ensures forall grid :: MatchesSpec(ingredients, grid) ==> |ingredients| == |NonEmpty(grid)|
  {
    forall grid | MatchesSpec(ingredients, grid)
      ensures |ingredients| == |NonEmpty(grid)|
    {
      MatchPairsItems(ingredients, grid);
    }
  }

  /** A prefix of taken ingredients put in front of the rest of the walk. */
  function PrefixThen(taken: seq<ItemInstance>, r: Option<(seq<ItemInstance>, seq<ItemInstance>)>): Option<(seq<ItemInstance>, seq<ItemInstance>)>
  {
    match r
    case None => None
    case Some(res) => Some((res.0, taken + res.1))
  }

  lemma PrefixThenEmpty(r: Option<(seq<ItemInstance>, seq<ItemInstance>)>)
    ensures PrefixThen([], r) == r
  {
    match r
    case None =>
    case Some(res) => assert [] + res.1 == res.1;
  }

  /** One cell of the walk, seen from the loop: an empty cell changes
      nothing, an item no ingredient accepts ends it, and otherwise the
      accepting ingredient moves from the list to the taken prefix. */
  lemma ConsumeStep(taken: seq<ItemInstance>, remaining: seq<ItemInstance>, cells: seq<Option<ItemInstance>>)
    requires |cells| > 0
    ensures cells[0].None? ==>
              PrefixThen(taken, Consume(remaining, cells)) == PrefixThen(taken, Consume(remaining, cells[1..]))
    ensures cells[0].Some? && FirstAccepting(remaining, cells[0].value).None? ==>
              PrefixThen(taken, Consume(remaining, cells)) == None
    ensures cells[0].Some? && FirstAccepting(remaining, cells[0].value).Some? ==>
              var k := FirstAccepting(remaining, cells[0].value).value;
              PrefixThen(taken, Consume(remaining, cells))
                == PrefixThen(taken + [remaining[k]], Consume(RemoveAt(remaining, k), cells[1..]))
  {
    if cells[0].Some? && FirstAccepting(remaining, cells[0].value).Some? {
      var k := FirstAccepting(remaining, cells[0].value).value;
      match Consume(RemoveAt(remaining, k), cells[1..])
      case None =>
      case Some(res) =>
        assert taken + ([remaining[k]] + res.1) == (taken + [remaining[k]]) + res.1;
    }
  }

  /** The inner loop of `matches`: the first ingredient that accepts the
      item, or -1. */
  method FindIngredient(list: seq<ItemInstance>, item: ItemInstance) returns (k: int)
    ensures k == -1 <==> FirstAccepting(list, item).None?
    ensures k != -1 ==> 0 <= k < |list| && FirstAccepting(list, item) == Some(k as nat)
  {
    k := 0;
    while k < |list|
      invariant 0 <= k <= |list|
      invariant forall j :: 0 <= j < k ==> !Accepts(list[j], item)
    {
      if Accepts(list[k], item) {
        FirstAcceptingIs(list, item, k);
        return;
      }
      k := k + 1;
    }
    k := -1;
  }

  lemma FirstAcceptingIs(list: seq<ItemInstance>, item: ItemInstance, k: nat)
    requires k < |list| && Accepts(list[k], item)
    requires forall j :: 0 <= j < k ==> !Accepts(list[j], item)
    ensures FirstAccepting(list, item) == Some(k)
  {
    var r := FirstAccepting(list, item);
    assert r.Some?;
  }
}
