/**
  Recipe search (SearchRecipes of internal/repository/recipe_repository.go):
  the local query with its title, diet and ingredient filters, the grouped
  count, and, when nothing is found locally, the ingestion of the recipe
  provider's answer into the catalog, items created on the way being put on
  the enrichment queue.

  The provider is the function parameter `provider`, from the request's
  query parameters to its reply; store faults are parameters too.
 */
module RecipeRepo {
  import opened Wrappers
  import opened Models
  import opened KeyValue
  import Text
  import opened Catalog
  import opened ItemQueueRepo

  /** Go's `int` on a 64-bit platform, what the provider's numbers decode into. */
  type Int64 = x: int | -0x8000_0000_0000_0000 <= x < 0x8000_0000_0000_0000

  /** Go's conversion `int16(x)`: keeps the low 16 bits, read as a signed number. */
  function Int16(x: int): (r: int)
    ensures -0x8000 <= r < 0x8000
    ensures (x - r) % 0x1_0000 == 0
    ensures -0x8000 <= x < 0x8000 ==> r == x
  {
    (x + 0x8000) % 0x1_0000 - 0x8000
  }

  /** The conversion is the only value in range congruent to x modulo 2^16. */
  lemma Int16Unique(x: int, r: int)
    requires -0x8000 <= r < 0x8000 && (x - r) % 0x1_0000 == 0
    ensures r == Int16(x)
  {
    var d := Int16(x);
    assert (r - d) % 0x1_0000 == 0 by {
      assert (x - r) - (x - d) == d - r;
    }
  }

  // ---------------------------------------------------------------------
  // The query

  /** `dtos.RecipeQuery`. */
  datatype RecipeQuery = RecipeQuery(title: string, ingredients: seq<string>, diet: string)

  /** One group of the count query. */
  datatype DietCount = DietCount(vegan: bool, vegetarian: bool, count: int)

  /** `dtos.RecipesResponse`, with the recipes as the catalog holds them. */
  datatype SearchResponse = SearchResponse(recipes: seq<Recipe>, count: int, dietCounts: seq<DietCount>)

  /** The requested ingredient ids that parse as unsigned 32-bit decimals, in request order. */
  function ParsedIds(xs: seq<string>): seq<nat>
    decreases |xs|
  {
    if xs == [] then []
    else
      var init := ParsedIds(xs[..|xs| - 1]);
      match Text.ParseUint32(xs[|xs| - 1])
      case Some(n) => init + [n]
      case None => init
  }

  /** An id is requested exactly when one of the strings parses to it. */
  lemma {:induction false} ParsedIdsMembers(xs: seq<string>, n: nat)
    ensures n in ParsedIds(xs) <==> exists i :: 0 <= i < |xs| && Text.ParseUint32(xs[i]) == Some(n)
    decreases |xs|
  {
    if xs != [] {
      var init := xs[..|xs| - 1];
      ParsedIdsMembers(init, n);
      assert forall i :: 0 <= i < |init| ==> init[i] == xs[i];
      if exists i :: 0 <= i < |xs| && Text.ParseUint32(xs[i]) == Some(n) {
        var i :| 0 <= i < |xs| && Text.ParseUint32(xs[i]) == Some(n);
        if i < |init| {
          assert Text.ParseUint32(init[i]) == Some(n);
        }
      }
    }
  }

  /** Dropping unparsable strings keeps the order of the others: parsing distributes over concatenation. */
  lemma {:induction false} ParsedIdsAppend(a: seq<string>, b: seq<string>)
    ensures ParsedIds(a + b) == ParsedIds(a) + ParsedIds(b)
    decreases |b|
  {
    if b == [] {
      assert a + b == a;
    } else {
      var init := b[..|b| - 1];
      ParsedIdsAppend(a, init);
      assert (a + b)[..|a + b| - 1] == a + init;
    }
  }

  /** The decimal spellings of a sequence of numbers. */
  function Decimals(ns: seq<nat>): (r: seq<string>)
    ensures |r| == |ns| && forall i :: 0 <= i < |ns| ==> r[i] == Text.Decimal(ns[i])
  {
    if ns == [] then [] else Decimals(ns[..|ns| - 1]) + [Text.Decimal(ns[|ns| - 1])]
  }

  /** Round trip: ids in the 32-bit range, written in decimal, are parsed back in full and in order. */
  lemma {:induction false} ParsedIdsOfDecimals(ns: seq<nat>)
    requires forall i :: 0 <= i < |ns| ==> ns[i] <= Text.MaxUint32
    ensures ParsedIds(Decimals(ns)) == ns
    decreases |ns|
  {
    if ns != [] {
      var init := ns[..|ns| - 1];
      assert Decimals(ns)[..|ns| - 1] == Decimals(init);
      ParsedIdsOfDecimals(init);
      Text.ParseDecimalRoundTrip(ns[|ns| - 1]);
      assert init + [ns[|ns| - 1]] == ns;
    }
  }

  /** The diet column the local query filters on. */
  datatype DietField = VeganField | VegetarianField

  /** Only the two whitelisted diets, compared after lower-casing, filter locally. */
  function DietFilter(diet: string): (f: Option<DietField>)
  {
    var d := Text.Lower(diet);
    if d == "vegan" then Some(VeganField) else if d == "vegetarian" then Some(VegetarianField) else None
  }

  /** The diet whitelist ignores case but nothing else: a blank or another diet turns the filter off. */
  lemma DietFilterCases()
    ensures DietFilter("Vegan") == Some(VeganField)
    ensures DietFilter("vegan ") == None && DietFilter("ketogenic") == None && DietFilter("") == None
  {
    LowerVegan();
    var blank := Text.Lower("vegan ");
    assert |blank| == 6;
    var keto := Text.Lower("ketogenic");
    assert |keto| == 9;
  }

  lemma LowerVegan()
    ensures Text.Lower("Vegan") == "vegan"
  {
    var l := Text.Lower("Vegan");
    assert l[0] == 'v' && l[1] == 'e' && l[2] == 'g' && l[3] == 'a' && l[4] == 'n';
  }

  /** Case is all the whitelist ignores: a diet spelt in any case filters like its lower-case spelling. */
  lemma DietFilterIgnoresCase(diet: string)
    ensures DietFilter(diet) == DietFilter(Text.Lower(diet))
  {
    Text.LowerIdempotent(diet);
  }

  predicate TitleMatches(r: Recipe, title: string)
  {
    title == "" || Text.Like(Text.Lower(r.title), Text.ContainsPattern(Text.Lower(title)))
  }

  predicate DietMatches(r: Recipe, f: Option<DietField>)
  {
    match f
    case None => true
    case Some(VeganField) => r.vegan
    case Some(VegetarianField) => r.vegetarian
  }

  /** The recipe is linked to at least one of the requested items. */
  predicate UsesAny(r: Recipe, ids: seq<nat>)
  {
    exists i :: 0 <= i < |r.ingredients| && r.ingredients[i].itemId in ids
  }

  /** The conditions of the local query. */
  predicate Selected(r: Recipe, q: RecipeQuery, ids: seq<nat>)
  {
    TitleMatches(r, q.title) && DietMatches(r, DietFilter(q.diet)) && (ids == [] || UsesAny(r, ids))
  }

  /**
    The local result: the stored recipes, in store order and each once
    (the join is made distinct), that meet every condition.
   */
  function Local(recipes: seq<Recipe>, q: RecipeQuery, ids: seq<nat>): (r: seq<Recipe>)
    ensures |r| <= |recipes|
    ensures forall x :: x in r <==> x in recipes && Selected(x, q, ids)
    decreases |recipes|
  {
    if recipes == [] then []
    else
      var init := Local(recipes[..|recipes| - 1], q, ids);
      var last := recipes[|recipes| - 1];
      assert recipes == recipes[..|recipes| - 1] + [last];
      if Selected(last, q, ids) then init + [last] else init
  }

  // ---------------------------------------------------------------------
  // The count

  /** The recipe-item rows of a recipe that link one of the requested items. */
  function LinksTo(ris: seq<RecipeItem>, ids: seq<nat>): nat
    decreases |ris|
  {
    if ris == [] then 0
    else LinksTo(ris[..|ris| - 1], ids) + (if ris[|ris| - 1].itemId in ids then 1 else 0)
  }

  /** The rows a recipe contributes to the count query: itself, or one per linked requested item. */
  function Weight(r: Recipe, ids: seq<nat>): nat
  {
    if ids == [] then 1 else LinksTo(r.ingredients, ids)
  }

  /** The rows of the count query: recipes joined to the requested items, or all recipes when none is requested. */
  function JoinRows(recipes: seq<Recipe>, ids: seq<nat>): nat
    decreases |recipes|
  {
    if recipes == [] then 0
    else JoinRows(recipes[..|recipes| - 1], ids) + Weight(recipes[|recipes| - 1], ids)
  }

  /** Those rows of the recipes with the given diet flags. */
  function GroupRows(recipes: seq<Recipe>, ids: seq<nat>, vegan: bool, vegetarian: bool): nat
    decreases |recipes|
  {
    if recipes == [] then 0
    else
      var last := recipes[|recipes| - 1];
      GroupRows(recipes[..|recipes| - 1], ids, vegan, vegetarian)
        + (if last.vegan == vegan && last.vegetarian == vegetarian then Weight(last, ids) else 0)
  }

  /** The four diet groups partition the rows. */
  lemma {:induction false} JoinRowsByGroup(recipes: seq<Recipe>, ids: seq<nat>)
    ensures JoinRows(recipes, ids) == GroupRows(recipes, ids, false, false) + GroupRows(recipes, ids, false, true)
                                      + GroupRows(recipes, ids, true, false) + GroupRows(recipes, ids, true, true)
    decreases |recipes|
  {
    if recipes != [] {
      JoinRowsByGroup(recipes[..|recipes| - 1], ids);
    }
  }

  /** One group of the GROUP BY: present only when it has rows. */
  function Group(recipes: seq<Recipe>, ids: seq<nat>, vegan: bool, vegetarian: bool): seq<DietCount>
  {
    var n := GroupRows(recipes, ids, vegan, vegetarian);
    if n > 0 then [DietCount(vegan, vegetarian, n)] else []
  }

  /**
    The grouped count: one entry per (vegan, vegetarian) pair that has rows,
    each with its number of rows. The store gives no order to the groups;
    this one lists them in a fixed order.
   */
  function DietCounts(recipes: seq<Recipe>, ids: seq<nat>): (r: seq<DietCount>)
    ensures forall i :: 0 <= i < |r| ==> r[i].count > 0 && r[i].count == GroupRows(recipes, ids, r[i].vegan, r[i].vegetarian)
    ensures forall i, j :: 0 <= i < j < |r| ==> r[i].vegan != r[j].vegan || r[i].vegetarian != r[j].vegetarian
  {
    Group(recipes, ids, false, false) + Group(recipes, ids, false, true)
      + Group(recipes, ids, true, false) + Group(recipes, ids, true, true)
  }

  /** Every diet pair that has rows is reported. */
  lemma DietCountsComplete(recipes: seq<Recipe>, ids: seq<nat>, v: bool, t: bool)
    requires GroupRows(recipes, ids, v, t) > 0
    ensures exists i :: 0 <= i < |DietCounts(recipes, ids)| && DietCounts(recipes, ids)[i] == DietCount(v, t, GroupRows(recipes, ids, v, t))
  {
    var ff, ft := Group(recipes, ids, false, false), Group(recipes, ids, false, true);
    var tf, tt := Group(recipes, ids, true, false), Group(recipes, ids, true, true);
    var r := DietCounts(recipes, ids);
    var g := DietCount(v, t, GroupRows(recipes, ids, v, t));
    if !v && !t {
      assert r[0] == g;
    } else if !v && t {
      assert r[|ff|] == g;
    } else if v && !t {
      assert r[|ff| + |ft|] == g;
    } else {
      assert r[|ff| + |ft| + |tf|] == g;
    }
  }

  /** The sum of the group counts. */
  function Total(dcs: seq<DietCount>): int
    decreases |dcs|
  {
    if dcs == [] then 0 else Total(dcs[..|dcs| - 1]) + dcs[|dcs| - 1].count
  }

  lemma {:induction false} TotalAppend(a: seq<DietCount>, b: seq<DietCount>)
    ensures Total(a + b) == Total(a) + Total(b)
    decreases |b|
  {
    if b == [] {
      assert a + b == a;
    } else {
      TotalAppend(a, b[..|b| - 1]);
      assert (a + b)[..|a + b| - 1] == a + b[..|b| - 1];
    }
  }

  /** The reported count is the number of joined rows, whatever the title and diet filters are. */
  lemma CountIsJoinRows(recipes: seq<Recipe>, ids: seq<nat>)
    ensures Total(DietCounts(recipes, ids)) == JoinRows(recipes, ids)
  {
    var ff, ft := Group(recipes, ids, false, false), Group(recipes, ids, false, true);
    var tf, tt := Group(recipes, ids, true, false), Group(recipes, ids, true, true);
    TotalAppend(ff, ft);
    TotalAppend(ff + ft, tf);
    TotalAppend(ff + ft + tf, tt);
    assert Total(ff) == GroupRows(recipes, ids, false, false);
    assert Total(ft) == GroupRows(recipes, ids, false, true);
    assert Total(tf) == GroupRows(recipes, ids, true, false);
    assert Total(tt) == GroupRows(recipes, ids, true, true);
    JoinRowsByGroup(recipes, ids);
  }

  /** A recipe linked to a requested item adds at least one row. */
  lemma {:induction false} LinksToPositive(ris: seq<RecipeItem>, ids: seq<nat>, i: nat)
    requires i < |ris| && ris[i].itemId in ids
    ensures LinksTo(ris, ids) >= 1
    decreases |ris|
  {
    if i < |ris| - 1 {
      LinksToPositive(ris[..|ris| - 1], ids, i);
    }
  }

  /** The count never falls below the number of recipes found locally. */
  lemma {:induction false} LocalWithinCount(recipes: seq<Recipe>, q: RecipeQuery, ids: seq<nat>)
    ensures |Local(recipes, q, ids)| <= JoinRows(recipes, ids)
    decreases |recipes|
  {
    if recipes != [] {
      var last := recipes[|recipes| - 1];
      LocalWithinCount(recipes[..|recipes| - 1], q, ids);
      if Selected(last, q, ids) && ids != [] {
        var i :| 0 <= i < |last.ingredients| && last.ingredients[i].itemId in ids;
        LinksToPositive(last.ingredients, ids, i);
      }
    }
  }

  // ---------------------------------------------------------------------
  // The provider request

  /** The names of the requested items that exist, in request order. */
  function Names(items: seq<Item>, ids: seq<nat>): seq<string>
    decreases |ids|
  {
    if ids == [] then []
    else
      var init := Names(items, ids[..|ids| - 1]);
      match ItemById(items, ids[|ids| - 1])
      case Some(it) => init + [it.name]
      case None => init
  }

  /** No names at all exactly when none of the requested ids resolves to an item. */
  lemma {:induction false} NamesEmpty(items: seq<Item>, ids: seq<nat>)
    ensures Names(items, ids) == [] <==> forall i :: 0 <= i < |ids| ==> ItemById(items, ids[i]).None?
    decreases |ids|
  {
    if ids != [] {
      var init := ids[..|ids| - 1];
      NamesEmpty(items, init);
      assert forall i :: 0 <= i < |init| ==> init[i] == ids[i];
    }
  }

  /**
    The query parameters sent to the provider: the key, instructions and
    nutrition, two results, and the optional ingredient, diet and title
    parameters. The diet is sent as given, not lower-cased or whitelisted.
   */
  function Request(apiKey: string, names: seq<string>, diet: string, title: string): (r: map<string, string>)
    ensures "apiKey" in r && r["apiKey"] == apiKey
    ensures "addRecipeInstructions" in r && r["addRecipeInstructions"] == "true"
    ensures "addRecipeNutrition" in r && r["addRecipeNutrition"] == "true"
    ensures "number" in r && r["number"] == "2"
    ensures ("includeIngredients" in r <==> names != []) && (names != [] ==> r["includeIngredients"] == Text.Join(names, ','))
    ensures ("diet" in r <==> diet != "") && (diet != "" ==> r["diet"] == diet)
    ensures ("titleMatch" in r <==> title != "") && (title != "" ==> r["titleMatch"] == title)
    ensures forall k :: k in r ==> k in {"apiKey", "addRecipeInstructions", "addRecipeNutrition", "number", "includeIngredients", "diet", "titleMatch"}
  {
    var base := map["apiKey" := apiKey, "addRecipeInstructions" := "true", "addRecipeNutrition" := "true", "number" := "2"];
    var withNames := if names != [] then base["includeIngredients" := Text.Join(names, ',')] else base;
    var withDiet := if diet != "" then withNames["diet" := diet] else withNames;
    if title != "" then withDiet["titleMatch" := title] else withDiet
  }

  /** Names without a comma reach the provider intact: the ingredient parameter splits back into them. */
  lemma IncludeIngredientsRoundTrip(apiKey: string, names: seq<string>, diet: string, title: string)
    requires names != [] && forall k :: 0 <= k < |names| ==> ',' !in names[k]
    ensures Text.Split(Request(apiKey, names, diet, title)["includeIngredients"], ',') == names
  {
    Text.SplitJoin(names, ',');
  }

  // ---------------------------------------------------------------------
  // The provider reply

  datatype ApiNutrient = ApiNutrient(name: string, amount: real, unit: string, percentOfDailyNeeds: real)

  datatype ApiIngredient = ApiIngredient(id: Int64, name: string, amount: real, unit: string)

  datatype ApiStep = ApiStep(number: Int64, step: string)

  /** One result of the provider's search, as it decodes. */
  datatype ApiRecipe = ApiRecipe(
    id: Int64,
    title: string,
    image: string,
    readyInMinutes: Int64,
    preparationMinutes: Int64,
    cookingMinutes: Int64,
    servings: real,
    summary: string,
    vegan: bool,
    vegetarian: bool,
    nutrients: seq<ApiNutrient>,
    ingredients: seq<ApiIngredient>,
    instructions: seq<seq<ApiStep>>)

  /** The provider's reply: no response at all, or a status and a body that decodes (Some) or not (None). */
  datatype ProviderReply = TransportError | Reply(status: nat, body: Option<seq<ApiRecipe>>)

  const StatusOK: nat := 200

  /** The amount of the last nutrient named exactly "Calories", or 0 when there is none. */
  function LastCalories(ns: seq<ApiNutrient>): (k: real)
    ensures (forall i :: 0 <= i < |ns| ==> ns[i].name != "Calories") ==> k == 0.0
    ensures (exists i :: 0 <= i < |ns| && ns[i].name == "Calories") ==>
      exists i :: 0 <= i < |ns| && ns[i].name == "Calories" && k == ns[i].amount
        && forall j :: i < j < |ns| ==> ns[j].name != "Calories"
    decreases |ns|
  {
    if ns == [] then 0.0
    else if ns[|ns| - 1].name == "Calories" then ns[|ns| - 1].amount
    else
      var init := ns[..|ns| - 1];
      assert forall i :: 0 <= i < |init| ==> init[i] == ns[i];
      LastCalories(init)
  }

  function NutrientOf(n: ApiNutrient): Nutrient
  {
    Nutrient(n.name, n.amount, n.unit, n.percentOfDailyNeeds)
  }

  function NutrientsOf(ns: seq<ApiNutrient>): (r: seq<Nutrient>)
    ensures |r| == |ns| && forall i :: 0 <= i < |ns| ==> r[i] == NutrientOf(ns[i])
  {
    if ns == [] then [] else NutrientsOf(ns[..|ns| - 1]) + [NutrientOf(ns[|ns| - 1])]
  }

  function StepsOf(steps: seq<ApiStep>): (r: seq<Instruction>)
    ensures |r| == |steps| && forall i :: 0 <= i < |steps| ==> r[i] == Instruction(UintOf(steps[i].number), steps[i].step)
  {
    if steps == [] then [] else StepsOf(steps[..|steps| - 1]) + [Instruction(UintOf(steps[|steps| - 1].number), steps[|steps| - 1].step)]
  }

  /** The steps of a new recipe: those of the first instruction group, none if there is no group. */
  function InstructionsOf(groups: seq<seq<ApiStep>>): seq<Instruction>
  {
    if groups == [] then [] else StepsOf(groups[0])
  }

  /** Only the first group counts: groups after it change nothing, and its steps are kept one for one. */
  lemma FirstGroupOnly(groups: seq<seq<ApiStep>>, more: seq<seq<ApiStep>>)
    requires groups != []
    ensures InstructionsOf(groups + more) == InstructionsOf(groups)
    ensures |InstructionsOf(groups)| == |groups[0]|
    ensures forall i :: 0 <= i < |groups[0]| ==> InstructionsOf(groups)[i].step == groups[0][i].step
  {
    assert (groups + more)[0] == groups[0];
  }

  /** The catalog recipe built from a provider result and its resolved ingredient rows; the store assigns the id. */
  function Converted(api: ApiRecipe, ingredients: seq<RecipeItem>): Recipe
  {
    Recipe(0, UintOf(api.id), api.title, api.summary, api.image, api.servings,
           Int16(api.readyInMinutes), Int16(api.cookingMinutes), Int16(api.preparationMinutes),
           LastCalories(api.nutrients), api.vegan, api.vegetarian,
           NutrientsOf(api.nutrients), InstructionsOf(api.instructions), ingredients)
  }

  /**
    A converted recipe keeps the provider's id (as an unsigned number), its
    texts, flags and nutrients; its times are cut to 16 bits; its energy is
    the last "Calories" nutrient.
   */
  lemma ConvertedFields(api: ApiRecipe, ingredients: seq<RecipeItem>)
    ensures var r := Converted(api, ingredients);
      && (api.id >= 0 ==> r.spoonacularId == api.id)
      && r.title == api.title && r.summary == api.summary && r.image == api.image
      && r.vegan == api.vegan && r.vegetarian == api.vegetarian
      && -0x8000 <= r.readyTime < 0x8000 && (api.readyInMinutes - r.readyTime) % 0x1_0000 == 0
      && (-0x8000 <= api.readyInMinutes < 0x8000 ==> r.readyTime == api.readyInMinutes)
      && |r.nutrients| == |api.nutrients|
      && (forall i :: 0 <= i < |api.nutrients| ==> r.nutrients[i].name == api.nutrients[i].name && r.nutrients[i].amount == api.nutrients[i].amount)
      && ((forall i :: 0 <= i < |api.nutrients| ==> api.nutrients[i].name != "Calories") ==> r.kcal == 0.0)
      && r.ingredients == ingredients
  {
  }

  /** A recipe as a query without preloading returns it: the row without its nutrients, steps and ingredients. */
  function Bare(r: Recipe): Recipe
  {
    r.(nutrients := [], instructions := [], ingredients := [])
  }

  // ---------------------------------------------------------------------
  // What ingestion leaves in the catalog

  /**
    Items from position n on were created by the ingestion: no image, and a
    provider id that the lookup made just before found no item for.
   */
  ghost predicate ItemsFresh(items: seq<Item>, n: nat)
  {
    forall k :: n <= k < |items| ==>
      items[k].image == "" && exists id: Int64 :: items[k].spoonacularId == UintOf(id) && ItemBySpoonacularId(items[..k], id).None?
  }

  /** Recipes from position n on were created by the ingestion, for a provider id no earlier recipe had. */
  ghost predicate RecipesFresh(recipes: seq<Recipe>, n: nat)
  {
    forall k :: n <= k < |recipes| ==> FreshRecipeAt(recipes, k)
  }

  ghost predicate FreshRecipeAt(recipes: seq<Recipe>, k: nat)
    requires k < |recipes|
  {
    exists id: Int64 :: recipes[k].spoonacularId == UintOf(id) && RecipeBySpoonacularId(recipes[..k], id).None?
  }

  lemma ItemsFreshExtends(items0: seq<Item>, items: seq<Item>, n: nat)
    requires items0 <= items && n <= |items0|
    requires ItemsFresh(items0, n) && ItemsFresh(items, |items0|)
    ensures ItemsFresh(items, n)
  {
    forall k | n <= k < |items|
      ensures items[k].image == "" && exists id: Int64 :: items[k].spoonacularId == UintOf(id) && ItemBySpoonacularId(items[..k], id).None?
    {
      if k < |items0| {
        assert items[..k] == items0[..k] && items[k] == items0[k];
        assert items0[k].image == "" && exists id: Int64 :: items0[k].spoonacularId == UintOf(id) && ItemBySpoonacularId(items0[..k], id).None?;
        var id: Int64 :| items0[k].spoonacularId == UintOf(id) && ItemBySpoonacularId(items0[..k], id).None?;
        assert items[k].spoonacularId == UintOf(id) && ItemBySpoonacularId(items[..k], id).None?;
      }
    }
  }

  lemma RecipesFreshExtends(recipes0: seq<Recipe>, recipes: seq<Recipe>, n: nat)
    requires recipes0 <= recipes && n <= |recipes0|
    requires RecipesFresh(recipes0, n) && RecipesFresh(recipes, |recipes0|)
    ensures RecipesFresh(recipes, n)
  {
    forall k | n <= k < |recipes| ensures FreshRecipeAt(recipes, k) {
      if k < |recipes0| {
        assert recipes[..k] == recipes0[..k] && recipes[k] == recipes0[k];
        assert FreshRecipeAt(recipes0, k);
        var id: Int64 :| recipes0[k].spoonacularId == UintOf(id) && RecipeBySpoonacularId(recipes0[..k], id).None?;
        assert recipes[k].spoonacularId == UintOf(id) && RecipeBySpoonacularId(recipes[..k], id).None?;
      }
    }
  }

  /** A new item for a provider id the lookup did not find is fresh. */
  lemma ItemsFreshAppend(items: seq<Item>, item: Item, id: Int64)
    requires ItemBySpoonacularId(items, id).None? && item.image == "" && item.spoonacularId == UintOf(id)
    ensures ItemsFresh(items + [item], |items|)
  {
    assert (items + [item])[..|items|] == items;
  }

  /** The item was created for one of the lines: named after it and carrying its provider id. */
  ghost predicate ForSomeLine(item: Item, ings: seq<ApiIngredient>)
  {
    exists k :: 0 <= k < |ings| && item.name == ings[k].name && item.spoonacularId == UintOf(ings[k].id)
  }

  /** The items appended after `items0` number at most one per line, and each was created for one of the lines. */
  ghost predicate CreatedFor(items0: seq<Item>, items: seq<Item>, ings: seq<ApiIngredient>)
  {
    && |items| <= |items0| + |ings|
    && forall i :: |items0| <= i < |items| ==> ForSomeLine(items[i], ings)
  }

  /** Items created for the lines `a`, then for the lines `b`, were created for `a + b`. */
  lemma CreatedForJoin(items0: seq<Item>, items1: seq<Item>, items: seq<Item>, a: seq<ApiIngredient>, b: seq<ApiIngredient>)
    requires |items0| <= |items1| && items1 <= items
    requires CreatedFor(items0, items1, a) && CreatedFor(items1, items, b)
    ensures CreatedFor(items0, items, a + b)
  {
    forall i | |items0| <= i < |items| ensures ForSomeLine(items[i], a + b) {
      if i < |items1| {
        assert items[i] == items1[i] && ForSomeLine(items1[i], a);
        var k :| 0 <= k < |a| && items[i].name == a[k].name && items[i].spoonacularId == UintOf(a[k].id);
        assert (a + b)[k] == a[k];
      } else {
        assert ForSomeLine(items[i], b);
        var k :| 0 <= k < |b| && items[i].name == b[k].name && items[i].spoonacularId == UintOf(b[k].id);
        assert (a + b)[|a| + k] == b[k];
      }
    }
  }

  /** Items created for some of the lines were created for all of them. */
  lemma CreatedForWiden(items0: seq<Item>, items: seq<Item>, a: seq<ApiIngredient>, b: seq<ApiIngredient>)
    requires a <= b && CreatedFor(items0, items, a)
    ensures CreatedFor(items0, items, b)
  {
    forall i | |items0| <= i < |items| ensures ForSomeLine(items[i], b) {
      assert ForSomeLine(items[i], a);
      var k :| 0 <= k < |a| && items[i].name == a[k].name && items[i].spoonacularId == UintOf(a[k].id);
      assert b[k] == a[k];
    }
  }

  /** The ingredient lines of the results, result after result. */
  function Lines(results: seq<ApiRecipe>): seq<ApiIngredient>
  {
    if results == [] then [] else Lines(results[..|results| - 1]) + results[|results| - 1].ingredients
  }

  /** The lines of the first m results come first among the lines of all of them. */
  lemma {:induction false} LinesPrefix(results: seq<ApiRecipe>, m: nat)
    requires m <= |results|
    ensures Lines(results[..m]) <= Lines(results)
  {
    if m < |results| {
      var init := results[..|results| - 1];
      assert init[..m] == results[..m];
      LinesPrefix(init, m);
    } else {
      assert results[..m] == results;
    }
  }

  /** A new recipe for a provider id the lookup did not find is fresh. */
  lemma RecipesFreshAppend(recipes: seq<Recipe>, recipe: Recipe, id: Int64)
    requires RecipeBySpoonacularId(recipes, id).None? && recipe.spoonacularId == UintOf(id)
    ensures RecipesFresh(recipes + [recipe], |recipes|)
  {
    assert (recipes + [recipe])[..|recipes|] == recipes;
  }

  /**
    Within one ingestion an item is created at most once per provider id:
    two created items never share a provider id in the non-negative range,
    so a repeated ingredient reuses the item made for its first line.
   */
  lemma FreshItemsDistinct(items: seq<Item>, n: nat, k1: nat, k2: nat)
    requires ItemsFresh(items, n) && n <= k1 < k2 < |items|
    requires items[k2].spoonacularId < 0x8000_0000_0000_0000
    ensures items[k1].spoonacularId != items[k2].spoonacularId
  {
    var id: Int64 :| items[k2].spoonacularId == UintOf(id) && ItemBySpoonacularId(items[..k2], id).None?;
    assert id >= 0;
    assert items[..k2][k1] == items[k1];
  }

  /** The same for recipes: a provider result repeated within one search reuses the recipe stored for its first occurrence. */
  lemma FreshRecipesDistinct(recipes: seq<Recipe>, n: nat, k1: nat, k2: nat)
    requires RecipesFresh(recipes, n) && n <= k1 < k2 < |recipes|
    requires recipes[k2].spoonacularId < 0x8000_0000_0000_0000
    ensures recipes[k1].spoonacularId != recipes[k2].spoonacularId
  {
    assert FreshRecipeAt(recipes, k2);
    var id: Int64 :| recipes[k2].spoonacularId == UintOf(id) && RecipeBySpoonacularId(recipes[..k2], id).None?;
    assert id >= 0;
    assert recipes[..k2][k1] == recipes[k1];
  }

  /** A negative provider id is never found, since stored ids are unsigned: every line carrying it creates a new item. */
  lemma NegativeIdNeverFound(items: seq<Item>, id: Int64)
    requires id < 0
    ensures ItemBySpoonacularId(items, id).None?
  {
  }

  /** None of the items from position n on had its enqueue fail. */
  ghost predicate AllEnqueued(items: seq<Item>, n: nat, enqueueFails: nat -> bool)
  {
    forall k :: n <= k < |items| ==> !enqueueFails(items[k].id)
  }

  /**
    The ingredient rows `links` answer the provider's lines `ings`: same
    amount and unit, the item found by the provider id when the catalog
    had one before the search, and in any case a stored item carrying
    that provider id.
   */
  ghost predicate Linked(items0: seq<Item>, items: seq<Item>, ings: seq<ApiIngredient>, links: seq<RecipeItem>)
  {
    |links| == |ings| &&
    forall i :: 0 <= i < |ings| ==>
      && links[i].amount == ings[i].amount && links[i].unit == ings[i].unit
      && (ItemBySpoonacularId(items0, ings[i].id).Some? ==> links[i].itemId == ItemBySpoonacularId(items0, ings[i].id).value.id)
      && exists k :: 0 <= k < |items| && items[k].id == links[i].itemId && items[k].spoonacularId == UintOf(ings[i].id)
  }

  /** The links stay valid when items are appended. */
  lemma LinkedStable(items0: seq<Item>, items1: seq<Item>, items: seq<Item>, ings: seq<ApiIngredient>, links: seq<RecipeItem>)
    requires items1 <= items && Linked(items0, items1, ings, links)
    ensures Linked(items0, items, ings, links)
  {
    forall i | 0 <= i < |ings|
      ensures && links[i].amount == ings[i].amount && links[i].unit == ings[i].unit
              && (ItemBySpoonacularId(items0, ings[i].id).Some? ==> links[i].itemId == ItemBySpoonacularId(items0, ings[i].id).value.id)
              && exists k :: 0 <= k < |items| && items[k].id == links[i].itemId && items[k].spoonacularId == UintOf(ings[i].id)
    {
      var k :| 0 <= k < |items1| && items1[k].id == links[i].itemId && items1[k].spoonacularId == UintOf(ings[i].id);
      assert items[k] == items1[k];
    }
  }

  /** No two ingredient lines of a provider result carry the same provider id. */
  predicate DistinctProviderIds(ings: seq<ApiIngredient>)
  {
    forall a, b :: 0 <= a < b < |ings| ==> ings[a].id != ings[b].id
  }

  /** No non-negative provider id occurs on two ingredient lines of a provider result. */
  predicate NoStoredIdRepeats(ings: seq<ApiIngredient>)
  {
    forall a, b :: 0 <= a < b < |ings| && 0 <= ings[a].id ==> ings[a].id != ings[b].id
  }

  /** `uint(x)` is one-to-one on 64-bit signed values. */
  lemma UintOfInjective(x: Int64, y: Int64)
    ensures UintOf(x) == UintOf(y) <==> x == y
  {
    if x < 0 {
      assert UintOf(x) == x + 0x1_0000_0000_0000_0000;
    }
    if y < 0 {
      assert UintOf(y) == y + 0x1_0000_0000_0000_0000;
    }
  }

  /**
    Lines with distinct provider ids are linked to distinct items, since an
    item carries one provider id and item ids are keys: the recipe's
    ingredient rows then have distinct keys.
   */
  lemma DistinctIdsDistinctLinks(items0: seq<Item>, items: seq<Item>, next: nat, ings: seq<ApiIngredient>, links: seq<RecipeItem>)
    requires Ascending(ItemIds(items), next)
    requires Linked(items0, items, ings, links) && DistinctProviderIds(ings)
    ensures DistinctItemLinks(links)
  {
    forall a, b | 0 <= a < b < |links| ensures links[a].itemId != links[b].itemId {
      if links[a].itemId == links[b].itemId {
        var k1 :| 0 <= k1 < |items| && items[k1].id == links[a].itemId && items[k1].spoonacularId == UintOf(ings[a].id);
        var k2 :| 0 <= k2 < |items| && items[k2].id == links[b].itemId && items[k2].spoonacularId == UintOf(ings[b].id);
        assert ItemIds(items)[k1] == ItemIds(items)[k2];
        assert k1 == k2;
        UintOfInjective(ings[a].id, ings[b].id);
        assert false;
      }
    }
  }

  /**
    Two lines with the same non-negative provider id are linked to the same
    item: the one found before the search, or else the one the first line
    created, which the second line's lookup finds.
   */
  lemma RepeatedIdSharesItem(items0: seq<Item>, items: seq<Item>, ings: seq<ApiIngredient>, links: seq<RecipeItem>, a: nat, b: nat)
    requires items0 <= items && ItemsFresh(items, |items0|)
    requires Linked(items0, items, ings, links)
    requires a < b < |ings| && 0 <= ings[a].id && ings[a].id == ings[b].id
    ensures links[a].itemId == links[b].itemId
  {
    var id := ings[a].id;
    if ItemBySpoonacularId(items0, id).None? {
      var k1 := LinkedItem(items0, items, ings, links, a);
      var k2 := LinkedItem(items0, items, ings, links, b);
      NotFoundIsFresh(items0, items, id, k1);
      NotFoundIsFresh(items0, items, id, k2);
      SameFreshItem(items, |items0|, k1, k2);
    }
  }

  /** The stored item that Linked promises for line i. */
  lemma LinkedItem(items0: seq<Item>, items: seq<Item>, ings: seq<ApiIngredient>, links: seq<RecipeItem>, i: nat) returns (k: nat)
    requires Linked(items0, items, ings, links) && i < |ings|
    ensures k < |items| && items[k].id == links[i].itemId && items[k].spoonacularId == UintOf(ings[i].id)
  {
    var line := ings[i];
    assert ItemBySpoonacularId(items0, line.id).Some? ==> links[i].itemId == ItemBySpoonacularId(items0, line.id).value.id;
    k :| 0 <= k < |items| && items[k].id == links[i].itemId && items[k].spoonacularId == UintOf(ings[i].id);
  }

  /** An item carrying a provider id the earlier rows lacked was appended after them. */
  lemma NotFoundIsFresh(items0: seq<Item>, items: seq<Item>, id: Int64, k: nat)
    requires items0 <= items && ItemBySpoonacularId(items0, id).None?
    requires 0 <= id && k < |items| && items[k].spoonacularId == UintOf(id)
    ensures |items0| <= k
  {
  }

  /** Two created items with the same non-negative provider id are one item. */
  lemma SameFreshItem(items: seq<Item>, n: nat, k1: nat, k2: nat)
    requires ItemsFresh(items, n) && n <= k1 < |items| && n <= k2 < |items|
    requires items[k1].spoonacularId == items[k2].spoonacularId < 0x8000_0000_0000_0000
    ensures k1 == k2
  {
    if k1 < k2 {
      FreshItemsDistinct(items, n, k1, k2);
      assert false;
    } else if k2 < k1 {
      FreshItemsDistinct(items, n, k2, k1);
      assert false;
    }
  }

  /** A recipe whose ingredient rows have distinct keys came from lines that repeat no non-negative provider id. */
  lemma DistinctLinksNoRepeats(items0: seq<Item>, items: seq<Item>, ings: seq<ApiIngredient>, links: seq<RecipeItem>)
    requires items0 <= items && ItemsFresh(items, |items0|)
    requires Linked(items0, items, ings, links) && DistinctItemLinks(links)
    ensures NoStoredIdRepeats(ings)
  {
    forall a, b | 0 <= a < b < |ings| && 0 <= ings[a].id ensures ings[a].id != ings[b].id {
      if ings[a].id == ings[b].id {
        RepeatedIdSharesItem(items0, items, ings, links, a, b);
        assert false;
      }
    }
  }

  /**
    What a search answers for a provider result: the new recipe converted
    from it as it was stored, or the bare row of a stored recipe with that
    provider id.
   */
  ghost predicate Served(recipes: seq<Recipe>, api: ApiRecipe, out: Recipe)
  {
    || (out in recipes && out == Converted(api, out.ingredients).(id := out.id))
    || (exists m :: 0 <= m < |recipes| && out == Bare(recipes[m]) && recipes[m].spoonacularId == api.id)
  }

  lemma ServedStable(recipes0: seq<Recipe>, recipes: seq<Recipe>, api: ApiRecipe, out: Recipe)
    requires recipes0 <= recipes && Served(recipes0, api, out)
    ensures Served(recipes, api, out)
  {
    if out in recipes0 && out == Converted(api, out.ingredients).(id := out.id) {
      assert out in recipes;
    } else {
      var m :| 0 <= m < |recipes0| && out == Bare(recipes0[m]) && recipes0[m].spoonacularId == api.id;
      assert recipes[m] == recipes0[m];
    }
  }

  /** The answers `out` for the provider results `results`: a result whose id was stored before the search gets that row. */
  ghost predicate Answered(recipes0: seq<Recipe>, recipes: seq<Recipe>, results: seq<ApiRecipe>, out: seq<Recipe>)
  {
    |out| == |results| &&
    forall j :: 0 <= j < |results| ==>
      && (RecipeBySpoonacularId(recipes0, results[j].id).Some? ==> out[j] == Bare(RecipeBySpoonacularId(recipes0, results[j].id).value))
      && Served(recipes, results[j], out[j])
  }

  lemma AllEnqueuedExtends(items1: seq<Item>, items: seq<Item>, n: nat, enqueueFails: nat -> bool)
    requires items1 <= items && n <= |items1|
    requires AllEnqueued(items1, n, enqueueFails) && AllEnqueued(items, |items1|, enqueueFails)
    ensures AllEnqueued(items, n, enqueueFails)
  {
    forall k | n <= k < |items1| ensures items[k] == items1[k] {
    }
  }

  /** Two ingestion steps in a row leave fresh items and recipes, and the queue holding the records of both steps' items. */
  lemma StepsCompose(items0: seq<Item>, items1: seq<Item>, items: seq<Item>,
                     recipes0: seq<Recipe>, recipes1: seq<Recipe>, recipes: seq<Recipe>,
                     q0: map<Member, int>, q1: map<Member, int>, q: map<Member, int>, now: Instant, enqueueFails: nat -> bool)
    requires items0 <= items1 <= items && recipes0 <= recipes1 <= recipes
    requires ItemsFresh(items1, |items0|) && ItemsFresh(items, |items1|)
    requires RecipesFresh(recipes1, |recipes0|) && RecipesFresh(recipes, |recipes1|)
    requires q1 == EnqueuedAll(q0, items1[|items0|..], now, enqueueFails)
    requires q == EnqueuedAll(q1, items[|items1|..], now, enqueueFails)
    ensures ItemsFresh(items, |items0|) && RecipesFresh(recipes, |recipes0|)
    ensures q == EnqueuedAll(q0, items[|items0|..], now, enqueueFails)
  {
    ItemsFreshExtends(items1, items, |items0|);
    RecipesFreshExtends(recipes1, recipes, |recipes0|);
    AppendedSince(items1, items, |items0|);
    EnqueuedAllAppend(q0, items1[|items0|..], items[|items1|..], now, enqueueFails);
  }

  /** One more resolved line, against items that have only grown since the search began. */
  lemma LinkedExtends(items0: seq<Item>, items1: seq<Item>, items: seq<Item>, ings: seq<ApiIngredient>, links: seq<RecipeItem>,
                      ing: ApiIngredient, itemId: nat)
    requires items0 <= items1 <= items && Linked(items0, items1, ings, links)
    requires ItemBySpoonacularId(items1, ing.id).Some? ==> itemId == ItemBySpoonacularId(items1, ing.id).value.id
    requires exists k :: 0 <= k < |items| && items[k].id == itemId && items[k].spoonacularId == UintOf(ing.id)
    ensures Linked(items0, items, ings + [ing], links + [RecipeItem(itemId, ing.amount, ing.unit)])
  {
    LinkedStable(items0, items1, items, ings, links);
    if ItemBySpoonacularId(items0, ing.id).Some? {
      assert items0 + items1[|items0|..] == items1;
      FirstStable(items0, items1[|items0|..], (it: Item) => it.spoonacularId == ing.id);
    }
    var ings', links' := ings + [ing], links + [RecipeItem(itemId, ing.amount, ing.unit)];
    forall i | 0 <= i < |ings'|
      ensures && links'[i].amount == ings'[i].amount && links'[i].unit == ings'[i].unit
              && (ItemBySpoonacularId(items0, ings'[i].id).Some? ==> links'[i].itemId == ItemBySpoonacularId(items0, ings'[i].id).value.id)
              && exists k :: 0 <= k < |items| && items[k].id == links'[i].itemId && items[k].spoonacularId == UintOf(ings'[i].id)
    {
      if i < |ings| {
        assert ings'[i] == ings[i] && links'[i] == links[i];
      }
    }
  }

  /** One more answered result, against recipes that have only grown since the search began. */
  lemma AnsweredExtends(recipes0: seq<Recipe>, recipes1: seq<Recipe>, recipes: seq<Recipe>, results: seq<ApiRecipe>, out: seq<Recipe>,
                        api: ApiRecipe, o: Recipe)
    requires recipes0 <= recipes1 <= recipes && Answered(recipes0, recipes1, results, out)
    requires RecipeBySpoonacularId(recipes1, api.id).Some? ==> o == Bare(RecipeBySpoonacularId(recipes1, api.id).value)
    requires Served(recipes, api, o)
    ensures Answered(recipes0, recipes, results + [api], out + [o])
  {
    if RecipeBySpoonacularId(recipes0, api.id).Some? {
      assert recipes0 + recipes1[|recipes0|..] == recipes1;
      FirstStable(recipes0, recipes1[|recipes0|..], (rc: Recipe) => rc.spoonacularId == api.id);
    }
    var results', out' := results + [api], out + [o];
    forall j | 0 <= j < |results'|
      ensures && (RecipeBySpoonacularId(recipes0, results'[j].id).Some? ==> out'[j] == Bare(RecipeBySpoonacularId(recipes0, results'[j].id).value))
              && Served(recipes, results'[j], out'[j])
    {
      if j < |results| {
        assert results'[j] == results[j] && out'[j] == out[j];
        ServedStable(recipes1, recipes, results[j], out[j]);
      }
    }
  }

  /** The faults of the store calls of a search, indexed by result position and ingredient position, or by item id. */
  datatype SearchFaults = SearchFaults(
    countFails: bool,
    findFails: bool,
    itemCreateFails: (nat, nat) -> bool,
    enqueueFails: nat -> bool,
    recipeCreateFails: nat -> bool)

  /** No store call of the ingestion of result j fails. */
  ghost predicate IngestClean(f: SearchFaults, j: nat)
  {
    && !f.recipeCreateFails(j)
    && (forall i :: !f.itemCreateFails(j, i))
    && (forall id :: !f.enqueueFails(id))
  }

  /**
    Result j ingests without failure: no store call fails and its ingredient
    lines carry distinct provider ids, so its ingredient rows' keys differ.
   */
  ghost predicate CleanResult(f: SearchFaults, j: nat, api: ApiRecipe)
  {
    IngestClean(f, j) && DistinctProviderIds(api.ingredients)
  }

  /** The provider answered 200 with a body that decodes. */
  predicate ReplyOk(reply: ProviderReply)
  {
    reply.Reply? && reply.status == StatusOK && reply.body.Some?
  }

  class RecipeRepository {
    const db: Store
    const queue: ItemQueueRepository
    /** The provider's key, sent with every request. */
    const apiKey: string

    constructor (db: Store, queue: ItemQueueRepository, apiKey: string)
      ensures this.db == db && this.queue == queue && this.apiKey == apiKey
    {
      this.db := db;
      this.queue := queue;
      this.apiKey := apiKey;
    }

    /**
      What ingestion keeps against the state before it: the store valid,
      items and recipes only appended and fresh, pantry rows untouched, and
      the queue holding the records of the new items whose enqueue did not
      fail.
     */
    ghost predicate Progress(items0: seq<Item>, recipes0: seq<Recipe>, rows0: seq<UserItem>, q0: map<Member, int>,
                             credits0: Option<Counter>, now: Instant, enqueueFails: nat -> bool)
      reads this, db, queue
    {
      && db.Valid()
      && items0 <= db.items && ItemsFresh(db.items, |items0|)
      && recipes0 <= db.recipes && RecipesFresh(db.recipes, |recipes0|)
      && db.userItems == rows0
      && queue.credits == credits0
      && queue.queue == EnqueuedAll(q0, db.items[|items0|..], now, enqueueFails)
    }

    /** The requested ids, parsed one by one; unparsable ones are skipped. */
    method ParseIngredientIds(xs: seq<string>) returns (ids: seq<nat>)
      ensures ids == ParsedIds(xs)
    {
      ids := [];
      var i := 0;
      while i < |xs|
        invariant 0 <= i <= |xs|
        invariant ids == ParsedIds(xs[..i])
      {
        assert xs[..i + 1][..i] == xs[..i];
        var n := Text.ParseUint32(xs[i]);
        if n.Some? {
          ids := ids + [n.value];
        }
        i := i + 1;
      }
      assert xs[..i] == xs;
    }

    /** The count: the sum of the group counts. */
    method SumCounts(dcs: seq<DietCount>) returns (total: int)
      ensures total == Total(dcs)
    {
      total := 0;
      var i := 0;
      while i < |dcs|
        invariant 0 <= i <= |dcs|
        invariant total == Total(dcs[..i])
      {
        assert dcs[..i + 1][..i] == dcs[..i];
        total := total + dcs[i].count;
        i := i + 1;
      }
      assert dcs[..i] == dcs;
    }

    /** The names of the requested items, each looked up by id; ids without an item are skipped. */
    method IngredientNames(ids: seq<nat>) returns (names: seq<string>)
      ensures names == Names(db.items, ids)
    {
      names := [];
      var i := 0;
      while i < |ids|
        invariant 0 <= i <= |ids|
        invariant names == Names(db.items, ids[..i])
      {
        assert ids[..i + 1][..i] == ids[..i];
        var item := ItemById(db.items, ids[i]);
        if item.Some? {
          names := names + [item.value.name];
        }
        i := i + 1;
      }
      assert ids[..i] == ids;
    }

    /** The nutrients of a new recipe, and its energy: the amount of the last "Calories" nutrient, 0 if none. */
    method BuildNutrients(ns: seq<ApiNutrient>) returns (nutrients: seq<Nutrient>, kcal: real)
      ensures nutrients == NutrientsOf(ns) && kcal == LastCalories(ns)
    {
      nutrients, kcal := [], 0.0;
      var i := 0;
      while i < |ns|
        invariant 0 <= i <= |ns|
        invariant nutrients == NutrientsOf(ns[..i]) && kcal == LastCalories(ns[..i])
      {
        assert ns[..i + 1][..i] == ns[..i];
        var n := ns[i];
        if n.name == "Calories" {
          kcal := n.amount;
        }
        nutrients := nutrients + [NutrientOf(n)];
        i := i + 1;
      }
      assert ns[..i] == ns;
    }

    /** The steps of a new recipe, from the first instruction group only. */
    method BuildInstructions(groups: seq<seq<ApiStep>>) returns (instructions: seq<Instruction>)
      ensures instructions == InstructionsOf(groups)
    {
      instructions := [];
      if |groups| > 0 {
        var steps := groups[0];
        var i := 0;
        while i < |steps|
          invariant 0 <= i <= |steps|
          invariant instructions == StepsOf(steps[..i])
        {
          assert steps[..i + 1][..i] == steps[..i];
          instructions := instructions + [Instruction(UintOf(steps[i].number), steps[i].step)];
          i := i + 1;
        }
        assert steps[..i] == steps;
      }
    }

    /**
      One ingredient line: the first item with the line's provider id, or a
      new item named after the line, without image, carrying the id as an
      unsigned number, and put on the queue with the default priority. A
      failed create or enqueue is an error.
     */
    method ResolveIngredient(ing: ApiIngredient, now: Instant, createFails: bool, enqueueFails: nat -> bool) returns (r: Result<nat>)
      requires db.Valid()
      modifies db, queue
      ensures Progress(old(db.items), old(db.recipes), old(db.userItems), old(queue.queue), old(queue.credits), now, enqueueFails)
      ensures db.recipes == old(db.recipes) && db.nextRecipeId == old(db.nextRecipeId) && |db.items| <= |old(db.items)| + 1
      ensures r.Ok? ==> AllEnqueued(db.items, |old(db.items)|, enqueueFails)
      ensures ItemBySpoonacularId(old(db.items), ing.id).Some? ==>
        r == Ok(ItemBySpoonacularId(old(db.items), ing.id).value.id) && db.items == old(db.items)
      ensures ItemBySpoonacularId(old(db.items), ing.id).None? && !createFails ==>
        db.items == old(db.items) + [Item(old(db.nextItemId), ing.name, "", UintOf(ing.id))]
      ensures r.Err? <==> ItemBySpoonacularId(old(db.items), ing.id).None? && (createFails || enqueueFails(old(db.nextItemId)))
      ensures r.Ok? ==> exists k :: 0 <= k < |db.items| && db.items[k].id == r.value && db.items[k].spoonacularId == UintOf(ing.id)
      ensures CreatedFor(old(db.items), db.items, [ing])
    {
      var found := ItemBySpoonacularId(db.items, ing.id);
      if found.Some? {
        var k :| 0 <= k < |db.items| && db.items[k] == found.value;
        assert db.items[|db.items|..] == [];
        return Ok(found.value.id);
      }
      r := CreateIngredientItem(ing, now, createFails, enqueueFails);
    }

    /** The create branch of ResolveIngredient: a new item, then its enqueue. */
    method CreateIngredientItem(ing: ApiIngredient, now: Instant, createFails: bool, enqueueFails: nat -> bool) returns (r: Result<nat>)
      requires db.Valid() && ItemBySpoonacularId(db.items, ing.id).None?
      modifies db, queue
      ensures Progress(old(db.items), old(db.recipes), old(db.userItems), old(queue.queue), old(queue.credits), now, enqueueFails)
      ensures db.recipes == old(db.recipes) && db.nextRecipeId == old(db.nextRecipeId)
      ensures createFails ==> r.Err? && db.items == old(db.items)
      ensures !createFails ==> db.items == old(db.items) + [Item(old(db.nextItemId), ing.name, "", UintOf(ing.id))]
      ensures r.Err? <==> createFails || enqueueFails(old(db.nextItemId))
      ensures r.Ok? ==> AllEnqueued(db.items, |old(db.items)|, enqueueFails)
      ensures r.Ok? ==> r.value == old(db.nextItemId) && db.items[|old(db.items)|].id == r.value
      ensures CreatedFor(old(db.items), db.items, [ing])
    {
      ghost var n0 := |db.items|;
      var created := db.CreateItem(ing.name, "", UintOf(ing.id), createFails);
      if created.Err? {
        assert db.items[n0..] == [];
        return Err(created.error);
      }
      var item := created.value;
      assert ForSomeLine(item, [ing]) by {
        assert [ing][0] == ing;
      }
      ItemsFreshAppend(old(db.items), item, ing.id);
      assert db.items[n0..] == [item] && [item][..0] == [];
      var added := queue.AddItem(NewItemRecord(item, now), enqueueFails(item.id));
      if added.Fail? {
        return Err(added.error);
      }
      r := Ok(item.id);
    }

    /** ResolveIngredients' loop state: Progress, the recipes untouched, every new item enqueued, the lines so far linked. */
    ghost predicate Resolving(items0: seq<Item>, recipes0: seq<Recipe>, rows0: seq<UserItem>, q0: map<Member, int>,
                              credits0: Option<Counter>, now: Instant, enqueueFails: nat -> bool,
                              ings: seq<ApiIngredient>, links: seq<RecipeItem>, nextRecipeId0: nat)
      reads this, db, queue
    {
      && Progress(items0, recipes0, rows0, q0, credits0, now, enqueueFails)
      && db.recipes == recipes0 && db.nextRecipeId == nextRecipeId0
      && AllEnqueued(db.items, |items0|, enqueueFails)
      && Linked(items0, db.items, ings, links)
    }

    /** The i-th line of result j, keeping Resolving with one more link, or Progress on a fault. */
    method ResolveStep(j: nat, i: nat, ings: seq<ApiIngredient>, now: Instant, faults: SearchFaults, links: seq<RecipeItem>,
                       ghost items0: seq<Item>, ghost recipes0: seq<Recipe>, ghost rows0: seq<UserItem>,
                       ghost q0: map<Member, int>, ghost credits0: Option<Counter>, ghost nextRecipeId0: nat)
      returns (r: Result<seq<RecipeItem>>)
      requires i < |ings|
      requires Resolving(items0, recipes0, rows0, q0, credits0, now, faults.enqueueFails, ings[..i], links, nextRecipeId0)
      requires CreatedFor(items0, db.items, ings[..i])
      modifies db, queue
      ensures CreatedFor(items0, db.items, ings[..i + 1])
      ensures r.Ok? ==> Resolving(items0, recipes0, rows0, q0, credits0, now, faults.enqueueFails, ings[..i + 1], r.value, nextRecipeId0)
      ensures r.Err? ==> Progress(items0, recipes0, rows0, q0, credits0, now, faults.enqueueFails)
      ensures r.Err? ==> db.recipes == recipes0 && db.nextRecipeId == nextRecipeId0
      ensures r.Err? ==> faults.itemCreateFails(j, i) || exists id :: faults.enqueueFails(id)
    {
      assert ings[..i + 1] == ings[..i] + [ings[i]];
      ghost var n0 := |items0|;
      ghost var items1 := db.items;
      var x := ResolveIngredient(ings[i], now, faults.itemCreateFails(j, i), faults.enqueueFails);
      CreatedForJoin(items0, items1, db.items, ings[..i], [ings[i]]);
      ItemsFreshExtends(items1, db.items, n0);
      AppendedSince(items1, db.items, n0);
      EnqueuedAllAppend(q0, items1[n0..], db.items[|items1|..], now, faults.enqueueFails);
      if x.Err? {
        return Err(x.error);
      }
      AllEnqueuedExtends(items1, db.items, n0, faults.enqueueFails);
      LinkedExtends(items0, items1, db.items, ings[..i], links, ings[i], x.value);
      r := Ok(links + [RecipeItem(x.value, ings[i].amount, ings[i].unit)]);
    }

    /** The ingredient rows of result j, each line resolved in order; the first failure aborts. */
    method ResolveIngredients(j: nat, ings: seq<ApiIngredient>, now: Instant, faults: SearchFaults) returns (r: Result<seq<RecipeItem>>)
      requires db.Valid()
      modifies db, queue
      ensures Progress(old(db.items), old(db.recipes), old(db.userItems), old(queue.queue), old(queue.credits), now, faults.enqueueFails)
      ensures db.recipes == old(db.recipes) && db.nextRecipeId == old(db.nextRecipeId)
      ensures r.Ok? ==> AllEnqueued(db.items, |old(db.items)|, faults.enqueueFails) && Linked(old(db.items), db.items, ings, r.value)
      ensures (forall i :: !faults.itemCreateFails(j, i)) && (forall id :: !faults.enqueueFails(id)) ==> r.Ok?
      ensures CreatedFor(old(db.items), db.items, ings)
    {
      ghost var items0, recipes0, rows0 := db.items, db.recipes, db.userItems;
      ghost var q0, credits0 := queue.queue, queue.credits;
      assert db.items[|items0|..] == [];
      var links: seq<RecipeItem> := [];
      var i := 0;
      while i < |ings|
        invariant 0 <= i <= |ings|
        invariant Resolving(items0, recipes0, rows0, q0, credits0, now, faults.enqueueFails, ings[..i], links, old(db.nextRecipeId))
        invariant CreatedFor(items0, db.items, ings[..i])
      {
        var step := ResolveStep(j, i, ings, now, faults, links, items0, recipes0, rows0, q0, credits0, old(db.nextRecipeId));
        if step.Err? {
          CreatedForWiden(items0, db.items, ings[..i + 1], ings);
          return Err(step.error);
        }
        links := step.value;
        i := i + 1;
      }
      assert ings[..i] == ings;
      r := Ok(links);
    }

    /**
      One provider result: a stored recipe with its id is returned as it is
      stored, without its nutrients, steps and ingredients; otherwise a new
      recipe is built, its ingredient lines resolved, and the recipe stored.
     */
    method IngestOne(j: nat, api: ApiRecipe, now: Instant, faults: SearchFaults) returns (r: Result<Recipe>)
      requires db.Valid()
      modifies db, queue
      ensures Progress(old(db.items), old(db.recipes), old(db.userItems), old(queue.queue), old(queue.credits), now, faults.enqueueFails)
      ensures r.Ok? ==> AllEnqueued(db.items, |old(db.items)|, faults.enqueueFails) && Served(db.recipes, api, r.value)
      ensures RecipeBySpoonacularId(old(db.recipes), api.id).Some? ==>
        && r == Ok(Bare(RecipeBySpoonacularId(old(db.recipes), api.id).value))
        && db.items == old(db.items) && db.recipes == old(db.recipes) && queue.queue == old(queue.queue)
      ensures RecipeBySpoonacularId(old(db.recipes), api.id).None? && r.Ok? ==>
        && db.recipes == old(db.recipes) + [r.value]
        && r.value == Converted(api, r.value.ingredients).(id := old(db.nextRecipeId))
        && Linked(old(db.items), db.items, api.ingredients, r.value.ingredients)
        && DistinctItemLinks(r.value.ingredients) && NoStoredIdRepeats(api.ingredients)
      ensures RecipeBySpoonacularId(old(db.recipes), api.id).None? && r.Err? ==> db.recipes == old(db.recipes)
      ensures CleanResult(faults, j, api) ==> r.Ok?
      ensures CreatedFor(old(db.items), db.items, api.ingredients)
    {
      var existing := RecipeBySpoonacularId(db.recipes, api.id);
      if existing.Some? {
        var m :| 0 <= m < |db.recipes| && db.recipes[m] == existing.value;
        assert db.items[|db.items|..] == [];
        return Ok(Bare(existing.value));
      }
      r := IngestNew(j, api, now, faults);
    }

    /** The create branch of IngestOne. */
    method IngestNew(j: nat, api: ApiRecipe, now: Instant, faults: SearchFaults) returns (r: Result<Recipe>)
      requires db.Valid() && RecipeBySpoonacularId(db.recipes, api.id).None?
      modifies db, queue
      ensures Progress(old(db.items), old(db.recipes), old(db.userItems), old(queue.queue), old(queue.credits), now, faults.enqueueFails)
      ensures r.Ok? ==>
        && AllEnqueued(db.items, |old(db.items)|, faults.enqueueFails)
        && db.recipes == old(db.recipes) + [r.value]
        && r.value == Converted(api, r.value.ingredients).(id := old(db.nextRecipeId))
        && Linked(old(db.items), db.items, api.ingredients, r.value.ingredients)
        && DistinctItemLinks(r.value.ingredients) && NoStoredIdRepeats(api.ingredients)
      ensures r.Err? ==> db.recipes == old(db.recipes)
      ensures CleanResult(faults, j, api) ==> r.Ok?
      ensures CreatedFor(old(db.items), db.items, api.ingredients)
    {
      var nutrients, kcal := BuildNutrients(api.nutrients);
      var instructions := BuildInstructions(api.instructions);
      var links := ResolveIngredients(j, api.ingredients, now, faults);
      if links.Err? {
        return Err(links.error);
      }
      var recipe := Recipe(0, UintOf(api.id), api.title, api.summary, api.image, api.servings,
                           Int16(api.readyInMinutes), Int16(api.cookingMinutes), Int16(api.preparationMinutes),
                           kcal, api.vegan, api.vegetarian, nutrients, instructions, links.value);
      assert recipe == Converted(api, links.value);
      if DistinctProviderIds(api.ingredients) {
        DistinctIdsDistinctLinks(old(db.items), db.items, db.nextItemId, api.ingredients, links.value);
      }
      ghost var items1, recipes1 := db.items, db.recipes;
      var created := db.CreateRecipe(recipe, faults.recipeCreateFails(j));
      if created.Err? {
        return Err(created.error);
      }
      assert DistinctItemLinks(links.value);
      DistinctLinksNoRepeats(old(db.items), items1, api.ingredients, links.value);
      RecipesFreshAppend(recipes1, created.value, api.id);
      r := Ok(created.value);
    }

    /** IngestAll's loop state: Progress, every new item enqueued, the results so far answered. */
    ghost predicate Ingesting(items0: seq<Item>, recipes0: seq<Recipe>, rows0: seq<UserItem>, q0: map<Member, int>,
                              credits0: Option<Counter>, now: Instant, enqueueFails: nat -> bool,
                              results: seq<ApiRecipe>, out: seq<Recipe>)
      reads this, db, queue
    {
      && Progress(items0, recipes0, rows0, q0, credits0, now, enqueueFails)
      && AllEnqueued(db.items, |items0|, enqueueFails)
      && Answered(recipes0, db.recipes, results, out)
    }

    /** The j-th provider result, keeping Ingesting with one more answer, or Progress on a fault. */
    method IngestStep(j: nat, results: seq<ApiRecipe>, now: Instant, faults: SearchFaults, out: seq<Recipe>,
                      ghost items0: seq<Item>, ghost recipes0: seq<Recipe>, ghost rows0: seq<UserItem>,
                      ghost q0: map<Member, int>, ghost credits0: Option<Counter>)
      returns (r: Result<seq<Recipe>>)
      requires j < |results|
      requires Ingesting(items0, recipes0, rows0, q0, credits0, now, faults.enqueueFails, results[..j], out)
      requires CreatedFor(items0, db.items, Lines(results[..j]))
      modifies db, queue
      ensures CreatedFor(items0, db.items, Lines(results[..j + 1]))
      ensures r.Ok? ==> Ingesting(items0, recipes0, rows0, q0, credits0, now, faults.enqueueFails, results[..j + 1], r.value)
      ensures r.Err? ==> Progress(items0, recipes0, rows0, q0, credits0, now, faults.enqueueFails) && !CleanResult(faults, j, results[j])
    {
      assert results[..j + 1] == results[..j] + [results[j]];
      ghost var items1, recipes1, q1 := db.items, db.recipes, queue.queue;
      var x := IngestOne(j, results[j], now, faults);
      assert results[..j + 1][..j] == results[..j];
      CreatedForJoin(items0, items1, db.items, Lines(results[..j]), results[j].ingredients);
      StepsCompose(items0, items1, db.items, recipes0, recipes1, db.recipes, q0, q1, queue.queue, now, faults.enqueueFails);
      if x.Err? {
        return Err(x.error);
      }
      AllEnqueuedExtends(items1, db.items, |items0|, faults.enqueueFails);
      AnsweredExtends(recipes0, recipes1, db.recipes, results[..j], out, results[j], x.value);
      r := Ok(out + [x.value]);
    }

    /** The provider's results, ingested in order; the first failure aborts, keeping what was written. */
    method IngestAll(results: seq<ApiRecipe>, now: Instant, faults: SearchFaults) returns (r: Result<seq<Recipe>>)
      requires db.Valid()
      modifies db, queue
      ensures Progress(old(db.items), old(db.recipes), old(db.userItems), old(queue.queue), old(queue.credits), now, faults.enqueueFails)
      ensures r.Ok? ==> AllEnqueued(db.items, |old(db.items)|, faults.enqueueFails) && Answered(old(db.recipes), db.recipes, results, r.value)
      ensures (forall j :: 0 <= j < |results| ==> CleanResult(faults, j, results[j])) ==> r.Ok?
      ensures CreatedFor(old(db.items), db.items, Lines(results))
    {
      ghost var items0, recipes0, rows0 := db.items, db.recipes, db.userItems;
      ghost var q0, credits0 := queue.queue, queue.credits;
      assert db.items[|items0|..] == [];
      var out: seq<Recipe> := [];
      var j := 0;
      while j < |results|
        invariant 0 <= j <= |results|
        invariant Ingesting(items0, recipes0, rows0, q0, credits0, now, faults.enqueueFails, results[..j], out)
        invariant CreatedFor(items0, db.items, Lines(results[..j]))
      {
        var step := IngestStep(j, results, now, faults, out, items0, recipes0, rows0, q0, credits0);
        if step.Err? {
          LinesPrefix(results, j + 1);
          CreatedForWiden(items0, db.items, Lines(results[..j + 1]), Lines(results));
          return Err(step.error);
        }
        out := step.value;
        j := j + 1;
      }
      assert results[..j] == results;
      r := Ok(out);
    }

    /**
      The provider path of a search that found nothing locally: the request
      built from the names of the requested items, the reply checked, the
      count replaced by the number of results and each result ingested.
     */
    method AskProvider(ids: seq<nat>, query: RecipeQuery, dietCounts: seq<DietCount>, now: Instant,
                       provider: map<string, string> -> ProviderReply, faults: SearchFaults)
      returns (r: Result<SearchResponse>, sent: map<string, string>)
      requires db.Valid()
      modifies db, queue
      ensures sent == Request(apiKey, Names(old(db.items), ids), query.diet, query.title)
      ensures Progress(old(db.items), old(db.recipes), old(db.userItems), old(queue.queue), old(queue.credits), now, faults.enqueueFails)
      ensures !ReplyOk(provider(sent)) ==>
        r.Err? && db.items == old(db.items) && db.recipes == old(db.recipes) && queue.queue == old(queue.queue)
      ensures provider(sent).Reply? && provider(sent).status != StatusOK ==>
        r == Err("unexpected status code: " + Text.Decimal(provider(sent).status))
      ensures r.Ok? ==>
        && ReplyOk(provider(sent))
        && r.value.count == |provider(sent).body.value| && r.value.dietCounts == dietCounts
        && Answered(old(db.recipes), db.recipes, provider(sent).body.value, r.value.recipes)
        && AllEnqueued(db.items, |old(db.items)|, faults.enqueueFails)
      ensures ReplyOk(provider(sent))
              && (forall j :: 0 <= j < |provider(sent).body.value| ==> CleanResult(faults, j, provider(sent).body.value[j]))
              ==> r.Ok?
      ensures ReplyOk(provider(sent)) ==> CreatedFor(old(db.items), db.items, Lines(provider(sent).body.value))
    {
      var names := IngredientNames(ids);
      sent := Request(apiKey, names, query.diet, query.title);
      var reply := provider(sent);
      assert db.items[|db.items|..] == [];
      if reply.TransportError? {
        return Err("provider request failed"), sent;
      }
      if reply.status != StatusOK {
        return Err("unexpected status code: " + Text.Decimal(reply.status)), sent;
      }
      if reply.body.None? {
        return Err("provider reply could not be decoded"), sent;
      }
      var results := reply.body.value;
      var total := |results|;
      var recipes := IngestAll(results, now, faults);
      if recipes.Err? {
        return Err(recipes.error), sent;
      }
      r := Ok(SearchResponse(recipes.value, total, dietCounts));
    }

    /**
      SearchRecipes. The count query and the local query each can fail.
      Recipes found locally are the answer, with the grouped count; the
      provider is asked only when there are none, and then its results are
      the answer. `sent` is the request sent to the provider, if any.
     */
    method SearchRecipes(query: RecipeQuery, now: Instant, provider: map<string, string> -> ProviderReply, faults: SearchFaults)
      returns (r: Result<SearchResponse>, sent: Option<map<string, string>>)
      requires db.Valid()
      modifies db, queue
      ensures Progress(old(db.items), old(db.recipes), old(db.userItems), old(queue.queue), old(queue.credits), now, faults.enqueueFails)
      ensures faults.countFails || faults.findFails ==>
        r.Err? && sent.None? && db.items == old(db.items) && db.recipes == old(db.recipes) && queue.queue == old(queue.queue)
      ensures !faults.countFails && !faults.findFails ==>
        (sent.None? <==> Local(old(db.recipes), query, ParsedIds(query.ingredients)) != [])
      ensures !faults.countFails && !faults.findFails && sent.None? ==>
        && r == Ok(SearchResponse(Local(old(db.recipes), query, ParsedIds(query.ingredients)),
                                  JoinRows(old(db.recipes), ParsedIds(query.ingredients)),
                                  DietCounts(old(db.recipes), ParsedIds(query.ingredients))))
        && db.items == old(db.items) && db.recipes == old(db.recipes) && queue.queue == old(queue.queue)
      ensures sent.Some? ==> sent.value == Request(apiKey, Names(old(db.items), ParsedIds(query.ingredients)), query.diet, query.title)
      ensures sent.Some? && !ReplyOk(provider(sent.value)) ==>
        r.Err? && db.items == old(db.items) && db.recipes == old(db.recipes) && queue.queue == old(queue.queue)
      ensures sent.Some? && provider(sent.value).Reply? && provider(sent.value).status != StatusOK ==>
        r == Err("unexpected status code: " + Text.Decimal(provider(sent.value).status))
      ensures sent.Some? && r.Ok? ==>
        && ReplyOk(provider(sent.value))
        && r.value.count == |provider(sent.value).body.value|
        && r.value.dietCounts == DietCounts(old(db.recipes), ParsedIds(query.ingredients))
        && Answered(old(db.recipes), db.recipes, provider(sent.value).body.value, r.value.recipes)
        && AllEnqueued(db.items, |old(db.items)|, faults.enqueueFails)
      ensures (sent.Some? && ReplyOk(provider(sent.value))
               && forall j :: 0 <= j < |provider(sent.value).body.value| ==>
                    CleanResult(faults, j, provider(sent.value).body.value[j])) ==> r.Ok?
      ensures sent.Some? && ReplyOk(provider(sent.value)) ==>
        CreatedFor(old(db.items), db.items, Lines(provider(sent.value).body.value))
    {
      assert db.items[|db.items|..] == [];
      var ids := ParseIngredientIds(query.ingredients);
      if faults.countFails {
        return Err("count query failed"), None;
      }
      var dietCounts := DietCounts(db.recipes, ids);
      var total := SumCounts(dietCounts);
      CountIsJoinRows(db.recipes, ids);
      if faults.findFails {
        return Err("recipe query failed"), None;
      }
      var local := Local(db.recipes, query, ids);
      if |local| > 0 {
        return Ok(SearchResponse(local, total, dietCounts)), None;
      }
      var request;
      r, request := AskProvider(ids, query, dietCounts, now, provider, faults);
      sent := Some(request);
    }
  }
}
