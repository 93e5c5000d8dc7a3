/**
  Records of the catalog and of the enrichment queue, and the difficulty
  validator of the recipe model.
 */
module Models {
  import opened Wrappers

  // ---------------------------------------------------------------------
  // Queue records (internal/models/queue_item.go)

  /** `type Priority int`: any integer can be stored, three are named. */
  type Priority = int

  const DefaultPriority: Priority := 0
  const HighPriority: Priority := 1
  const LowPriority: Priority := -1

  /** A `time.Time`: whole Unix seconds plus the sub-second part. */
  datatype Instant = Instant(unixSeconds: int, nanos: nat)

  /** One unit of enrichment work. */
  datatype QueueItem = QueueItem(itemId: nat, name: string, createdAt: Instant, priority: Priority)

  /** Go's conversion `uint(x)` of an `int` on a 64-bit platform: wraps modulo 2^64. */
  function UintOf(x: int): (r: nat)
    ensures r < 0x1_0000_0000_0000_0000
    ensures 0 <= x < 0x1_0000_0000_0000_0000 ==> r == x
    ensures (x - r) % 0x1_0000_0000_0000_0000 == 0
  {
    x % 0x1_0000_0000_0000_0000
  }

  // ---------------------------------------------------------------------
  // Catalog records (internal/models/*.go, as the repositories use them)

  datatype Item = Item(id: nat, name: string, image: string, spoonacularId: nat)

  datatype Nutrient = Nutrient(name: string, amount: real, unit: string, percentOfDailyNeeds: real)

  datatype Instruction = Instruction(number: nat, step: string)

  /** An ingredient link of a recipe: the item and the amount it needs. */
  datatype RecipeItem = RecipeItem(itemId: nat, amount: real, unit: string)

  datatype Recipe = Recipe(
    id: nat,
    spoonacularId: nat,
    title: string,
    summary: string,
    image: string,
    servings: real,
    readyTime: int,
    cookingTime: int,
    prepTime: int,
    kcal: real,
    vegan: bool,
    vegetarian: bool,
    nutrients: seq<Nutrient>,
    instructions: seq<Instruction>,
    ingredients: seq<RecipeItem>)

  /** A row of the user's pantry, keyed by (user, item). */
  datatype UserItem = UserItem(userId: nat, itemId: nat, amount: real, unit: string)

  // ---------------------------------------------------------------------
  // Difficulty (internal/models/recipe.go)

  /** `type Difficulty string`. */
  type Difficulty = string

  const Easy: Difficulty := "easy"
  const Medium: Difficulty := "medium"
  const Hard: Difficulty := "hard"

  /**
    The `(Difficulty, error)` pair of ParseDifficulty: exactly the three
    lower-case spellings are accepted, any other input gives the empty
    difficulty together with an error.
   */
  function ParseDifficulty(value: string): (r: (Difficulty, Option<string>))
    ensures r.1.None? <==> value in {Easy, Medium, Hard}
    ensures r.1.None? ==> r.0 == value
    ensures r.1.Some? ==> r.0 == ""
  {
    match value
    case "easy" => (Easy, None)
    case "medium" => (Medium, None)
    case "hard" => (Hard, None)
    case _ => ("", Some("invalid difficulty level"))
  }

  /** Round trip: each named difficulty parses back to itself without error. */
  lemma ParseDifficultyRoundTrip(d: Difficulty)
    requires d in {Easy, Medium, Hard}
    ensures ParseDifficulty(d) == (d, None)
  {
  }

  /** Matching is case-sensitive. */
  lemma ParseDifficultyCaseSensitive()
    ensures ParseDifficulty("Easy").1.Some? && ParseDifficulty("HARD").1.Some?
  {
  }
}
