/**
  The relational store the repositories work on: the item, recipe and
  pantry tables, with the lookups and writes the core issues against them.

  Rows are kept in primary-key order, so "the first row that matches" (what
  a `First` query returns) is the first match in the sequence. Serial keys
  are handed out from `nextItemId` and `nextRecipeId`. A write can fail; the
  failure is a parameter.
 */
module Catalog {
  import opened Wrappers
  import opened Models
  import Text

  // ---------------------------------------------------------------------
  // First match

  /** The first element satisfying `p`, if any. */
  function First<T>(xs: seq<T>, p: T -> bool): (r: Option<T>)
    ensures r.Some? ==> r.value in xs && p(r.value)
    ensures r.None? <==> forall i :: 0 <= i < |xs| ==> !p(xs[i])
  {
    if xs == [] then None else if p(xs[0]) then Some(xs[0]) else First(xs[1..], p)
  }

  /** Appending a row changes the first match only when there was none. */
  lemma {:induction false} FirstAppend<T>(xs: seq<T>, x: T, p: T -> bool)
    ensures First(xs + [x], p) == if First(xs, p).Some? then First(xs, p) else if p(x) then Some(x) else None
  {
    if xs != [] {
      assert (xs + [x])[1..] == xs[1..] + [x];
      FirstAppend(xs[1..], x, p);
    }
  }

  /** Appending rows never changes a first match that already exists. */
  lemma {:induction false} FirstStable<T>(xs: seq<T>, more: seq<T>, p: T -> bool)
    requires First(xs, p).Some?
    ensures First(xs + more, p) == First(xs, p)
  {
    if !p(xs[0]) {
      assert (xs + more)[1..] == xs[1..] + more;
      FirstStable(xs[1..], more, p);
    }
  }

  /** The first match comes before every other match. */
  lemma {:induction false} FirstIsEarliest<T>(xs: seq<T>, p: T -> bool, i: nat)
    requires i < |xs| && p(xs[i])
    ensures First(xs, p).Some?
    ensures exists j :: 0 <= j <= i && xs[j] == First(xs, p).value && forall k :: 0 <= k < j ==> !p(xs[k])
  {
    if !p(xs[0]) {
      FirstIsEarliest(xs[1..], p, i - 1);
      var j :| 0 <= j <= i - 1 && xs[1..][j] == First(xs[1..], p).value && forall k :: 0 <= k < j ==> !p(xs[1..][k]);
      assert xs[j + 1] == First(xs, p).value;
      assert forall k :: 0 <= k < j + 1 ==> !p(xs[k]) by {
        forall k | 0 <= k < j + 1 ensures !p(xs[k]) {
          if k > 0 { assert xs[k] == xs[1..][k - 1]; }
        }
      }
    }
  }

  // ---------------------------------------------------------------------
  // Queries

  /** `First(&item, id)`: lookup by primary key. */
  function ItemById(items: seq<Item>, id: nat): Option<Item>
  {
    First(items, (it: Item) => it.id == id)
  }

  /** `Where("spoonacular_id = ?", sid).First(&item)`; the provider's id is a signed integer. */
  function ItemBySpoonacularId(items: seq<Item>, sid: int): Option<Item>
  {
    First(items, (it: Item) => it.spoonacularId == sid)
  }

  /** `Where("name = ?", name).First(&item)`. */
  function ItemByName(items: seq<Item>, name: string): Option<Item>
  {
    First(items, (it: Item) => it.name == name)
  }

  /** `Where("name LIKE ?", pattern).First(&item)`. */
  function ItemLike(items: seq<Item>, pattern: string): Option<Item>
  {
    First(items, (it: Item) => Text.Like(it.name, pattern))
  }

  /** `Where("spoonacular_id = ?", sid).First(&recipe)`. */
  function RecipeBySpoonacularId(recipes: seq<Recipe>, sid: int): Option<Recipe>
  {
    First(recipes, (rc: Recipe) => rc.spoonacularId == sid)
  }

  /** `Where("user_id = ? AND item_id = ?", ...).First(&row)`. */
  function UserItemRow(rows: seq<UserItem>, userId: nat, itemId: nat): Option<UserItem>
  {
    First(rows, (u: UserItem) => u.userId == userId && u.itemId == itemId)
  }

  // ---------------------------------------------------------------------
  // Pantry writes as functions on the rows

  /** Replaces the amount and unit of the row keyed (userId, itemId); every other row is kept. */
  function SetAmount(rows: seq<UserItem>, userId: nat, itemId: nat, amount: real, unit: string): (r: seq<UserItem>)
    ensures |r| == |rows|
    ensures forall i :: 0 <= i < |rows| ==>
      r[i] == if rows[i].userId == userId && rows[i].itemId == itemId then rows[i].(amount := amount, unit := unit) else rows[i]
  {
    if rows == [] then []
    else
      var head := if rows[0].userId == userId && rows[0].itemId == itemId then rows[0].(amount := amount, unit := unit) else rows[0];
      [head] + SetAmount(rows[1..], userId, itemId, amount, unit)
  }

  /** Keys of the pantry rows are pairwise distinct. */
  ghost predicate UniqueKeys(rows: seq<UserItem>)
  {
    forall i, j :: 0 <= i < j < |rows| ==> rows[i].userId != rows[j].userId || rows[i].itemId != rows[j].itemId
  }

  /** Changing amounts keeps the keys, so it keeps them distinct. */
  lemma SetAmountKeepsKeys(rows: seq<UserItem>, userId: nat, itemId: nat, amount: real, unit: string)
    requires UniqueKeys(rows)
    ensures UniqueKeys(SetAmount(rows, userId, itemId, amount, unit))
  {
    var r := SetAmount(rows, userId, itemId, amount, unit);
    forall i, j | 0 <= i < j < |r| ensures r[i].userId != r[j].userId || r[i].itemId != r[j].itemId {
      assert r[i].userId == rows[i].userId && r[i].itemId == rows[i].itemId;
      assert r[j].userId == rows[j].userId && r[j].itemId == rows[j].itemId;
    }
  }

  /** After SetAmount on a present key, that row reads back the new amount and unit. */
  lemma SetAmountReadBack(rows: seq<UserItem>, userId: nat, itemId: nat, amount: real, unit: string)
    requires UserItemRow(rows, userId, itemId).Some?
    ensures UserItemRow(SetAmount(rows, userId, itemId, amount, unit), userId, itemId)
      == Some(UserItem(userId, itemId, amount, unit))
  {
    var r := SetAmount(rows, userId, itemId, amount, unit);
    var i :| 0 <= i < |rows| && rows[i] == UserItemRow(rows, userId, itemId).value;
    assert r[i].userId == userId && r[i].itemId == itemId;
    var found := UserItemRow(r, userId, itemId);
    assert found.Some?;
    var j :| 0 <= j < |r| && r[j] == found.value;
    assert r[j].userId == rows[j].userId && r[j].itemId == rows[j].itemId;
  }

  /** Serial keys ascending along the sequence and below the next key to hand out. */
  ghost predicate Ascending(ids: seq<nat>, next: nat)
  {
    (forall i :: 0 <= i < |ids| ==> ids[i] < next) && (forall i, j :: 0 <= i < j < |ids| ==> ids[i] < ids[j])
  }

  function ItemIds(items: seq<Item>): (r: seq<nat>)
    ensures |r| == |items| && forall i :: 0 <= i < |items| ==> r[i] == items[i].id
  {
    if items == [] then [] else [items[0].id] + ItemIds(items[1..])
  }

  function RecipeIds(recipes: seq<Recipe>): (r: seq<nat>)
    ensures |r| == |recipes| && forall i :: 0 <= i < |recipes| ==> r[i] == recipes[i].id
  {
    if recipes == [] then [] else [recipes[0].id] + RecipeIds(recipes[1..])
  }

  /** No two ingredient rows of a recipe name the same item: (recipe_id, item_id) is their primary key. */
  predicate DistinctItemLinks(links: seq<RecipeItem>)
  {
    forall a, b :: 0 <= a < b < |links| ==> links[a].itemId != links[b].itemId
  }

  /** Rows appended after position n of a table that has since grown: the old ones, then the new. */
  lemma AppendedSince<T>(before: seq<T>, after: seq<T>, n: nat)
    requires n <= |before| && before <= after
    ensures after[n..] == before[n..] + after[|before|..]
  {
  }

  /** Handing out the next serial key keeps the keys ascending. */
  lemma AscendingAppend(ids: seq<nat>, next: nat)
    requires Ascending(ids, next)
    ensures Ascending(ids + [next], next + 1)
  {
  }

  lemma ItemIdsAppend(items: seq<Item>, item: Item)
    ensures ItemIds(items + [item]) == ItemIds(items) + [item.id]
  {
    assert forall i :: 0 <= i < |items| ==> (items + [item])[i] == items[i];
  }

  lemma RecipeIdsAppend(recipes: seq<Recipe>, recipe: Recipe)
    ensures RecipeIds(recipes + [recipe]) == RecipeIds(recipes) + [recipe.id]
  {
    assert forall i :: 0 <= i < |recipes| ==> (recipes + [recipe])[i] == recipes[i];
  }

  class Store {
    var items: seq<Item>
    var nextItemId: nat
    var recipes: seq<Recipe>
    var nextRecipeId: nat
    var userItems: seq<UserItem>

    /** Rows in primary-key order, serial keys below the next one, one pantry row per (user, item). */
    ghost predicate Valid()
      reads this
    {
      Ascending(ItemIds(items), nextItemId) && Ascending(RecipeIds(recipes), nextRecipeId) && UniqueKeys(userItems)
    }

    constructor()
      ensures Valid()
      ensures items == [] && recipes == [] && userItems == [] && nextItemId == 1 && nextRecipeId == 1
    {
      items, recipes, userItems := [], [], [];
      nextItemId, nextRecipeId := 1, 1;
    }

    /** `db.Create(&item)`: the new row gets the next serial key. */
    method CreateItem(name: string, image: string, spoonacularId: nat, fails: bool) returns (r: Result<Item>)
      requires Valid()
      modifies this
      ensures Valid()
      ensures recipes == old(recipes) && nextRecipeId == old(nextRecipeId) && userItems == old(userItems)
      ensures fails ==> r.Err? && items == old(items) && nextItemId == old(nextItemId)
      ensures !fails ==> && r == Ok(Item(old(nextItemId), name, image, spoonacularId))
                         && items == old(items) + [r.value] && nextItemId == old(nextItemId) + 1
    {
      if fails {
        return Err("insert into items failed");
      }
      var item := Item(nextItemId, name, image, spoonacularId);
      ItemIdsAppend(items, item);
      AscendingAppend(ItemIds(items), nextItemId);
      items := items + [item];
      nextItemId := nextItemId + 1;
      r := Ok(item);
    }

    /**
      `db.Create(&recipe)`, with its nutrient, instruction and ingredient rows,
      in one transaction. Two ingredient rows naming the same item share the
      (recipe_id, item_id) key; this model takes the insert to fail then and
      roll back, which is the object-relational mapper's choice.
     */
    method CreateRecipe(recipe: Recipe, fails: bool) returns (r: Result<Recipe>)
      requires Valid()
      modifies this
      ensures Valid()
      ensures items == old(items) && nextItemId == old(nextItemId) && userItems == old(userItems)
      ensures fails || !DistinctItemLinks(recipe.ingredients) ==>
        r.Err? && recipes == old(recipes) && nextRecipeId == old(nextRecipeId)
      ensures !fails && DistinctItemLinks(recipe.ingredients) ==>
        && r == Ok(recipe.(id := old(nextRecipeId)))
        && recipes == old(recipes) + [r.value] && nextRecipeId == old(nextRecipeId) + 1
    {
      if fails {
        return Err("insert into recipes failed");
      }
      if !DistinctItemLinks(recipe.ingredients) {
        return Err("ingredient rows share a key");
      }
      var created := recipe.(id := nextRecipeId);
      RecipeIdsAppend(recipes, created);
      AscendingAppend(RecipeIds(recipes), nextRecipeId);
      recipes := recipes + [created];
      nextRecipeId := nextRecipeId + 1;
      r := Ok(created);
    }

    /** `db.Create(&userItem)`: a row whose key is taken violates the primary key. */
    method CreateUserItem(row: UserItem, fails: bool) returns (r: Outcome)
      requires Valid()
      modifies this
      ensures Valid()
      ensures items == old(items) && nextItemId == old(nextItemId) && recipes == old(recipes) && nextRecipeId == old(nextRecipeId)
      ensures r == Pass <==> !fails && UserItemRow(old(userItems), row.userId, row.itemId).None?
      ensures r == Pass ==> userItems == old(userItems) + [row]
      ensures r != Pass ==> userItems == old(userItems)
    {
      if fails {
        return Fail("insert into user_items failed");
      }
      if UserItemRow(userItems, row.userId, row.itemId).Some? {
        return Fail("duplicate key value violates unique constraint");
      }
      userItems := userItems + [row];
      r := Pass;
    }

    /** `db.Save(&row)` of a row read before: its amount and unit are written back. */
    method SaveUserItem(row: UserItem, fails: bool) returns (r: Outcome)
      requires Valid()
      modifies this
      ensures Valid()
      ensures items == old(items) && nextItemId == old(nextItemId) && recipes == old(recipes) && nextRecipeId == old(nextRecipeId)
      ensures fails ==> r.Fail? && userItems == old(userItems)
      ensures !fails ==> r == Pass && userItems == SetAmount(old(userItems), row.userId, row.itemId, row.amount, row.unit)
    {
      if fails {
        return Fail("update of user_items failed");
      }
      SetAmountKeepsKeys(userItems, row.userId, row.itemId, row.amount, row.unit);
      userItems := SetAmount(userItems, row.userId, row.itemId, row.amount, row.unit);
      r := Pass;
    }
  }
}
