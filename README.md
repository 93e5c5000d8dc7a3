# GroceryTrak service core in Dafny

This project models the core of the GroceryTrak backend. Food items move
through the **enrichment pipeline**:

- **Producers** create catalog items and put them on a Redis sorted set
  that serves as the queue:
  - recipe search, when it ingests the recipe provider's results;
  - pantry detection from a photo.
- **The worker** takes a bounded batch from that queue on every tick. For
  each record it fetches nutrition data from the provider, updates the
  catalog, dequeues the record and spends one API credit.

The model also covers the small rules around the pipeline:

- user registration and login over the key-value store;
- the HTTP request gates: body size, production origin, per-client rate
  limit, security headers and the bearer-token check;
- the recipe difficulty validator.

Every external call is a parameter of the operation that makes it. That
covers the relational store's and Redis's faults, the nutrition and recipe
provider, the vision model's answer, the password hash, the token verifier
and the clock reading.

Modules, one per core source file, plus shared helpers:

| module | file | what it holds |
|---|---|---|
| `Wrappers` | wrappers.dfy | `Option`, `Result`, `Outcome` |
| `Text` | text.dfy | `strconv.ParseUint(s, 10, 32)`, ASCII lower-casing, SQL `LIKE`, `strings.Split`/`Join` |
| `Models` | models.dfy | the records, the queue priorities, `ParseDifficulty` |
| `KeyValue` | key_value.dfy | a Redis integer with its lifetime |
| `Catalog` | catalog.dfy | the relational store: item, recipe and pantry tables as a class with first-match queries |
| `ItemQueueRepo` | item_queue_repository.dfy | the sorted-set queue and the credit counter (class `ItemQueueRepository`) |
| `Worker` | item_queue_handler.dfy | the worker tick (class `ItemQueueHandler`) |
| `RecipeRepo` | recipe_repository.dfy | `SearchRecipes`: local query, grouped count, provider on a local miss, ingestion |
| `UserItemRepo` | user_item_repository.dfy | detection, prediction, pantry search and update |
| `UserAccounts` | redis_repository.dfy | `RegisterUser` and `AuthenticateUser` (class `UserStore`) |
| `Security` | security.dfy | the request gates and the rate limiter (class `RateLimiter`) |
| `Auth` | auth.dfy | the bearer-token gate and the context getters |

The queue is a `map<Member, int>` from member to score. A member is a
record's serialisation. JSON encoding is deterministic and injective, so the
bytes the producers write are the record itself (`Encoded`). Decoding is more
lenient than encoding: `Noncanonical` stands for bytes that decode to a record
but are not its encoding, and `Undecodable` for bytes that do not decode. The credit counter and the rate-limit counters are values with
an optional lifetime. Expiry is an explicit step (`CreditsLifetimeElapses`,
`RateLimiter.Expire`), not a clock.

## Model

| member | source | states |
|---|---|---|
| ItemQueueRepo.ItemQueueRepository.AddItem | internal/repository/item_queue_repository.go:37-52 | ZADD: fails exactly on a store fault and then changes nothing; otherwise the record's member is set to score priority·1,000,000 + Unix seconds and every other member keeps its score; credits untouched |
| ItemQueueRepo.Added | internal/repository/item_queue_repository.go:43-49 | the sorted set after ZADD holds the record at its score, and other members are unchanged |
| ItemQueueRepo.AddIdempotent | internal/repository/item_queue_repository.go:37-49 | re-adding a byte-identical record keeps a single copy; the set grows by one only if the record was absent |
| ItemQueueRepo.DistinctRecordsCoexist | internal/repository/item_queue_repository.go:37-49 | records differing in any field (e.g. CreatedAt) are both queued, so one item id can be queued twice |
| ItemQueueRepo.EncodeRoundTrip | internal/repository/item_queue_repository.go:62-68 | decoding an encoded record gives it back; two records share a member iff they are equal |
| ItemQueueRepo.Decode | internal/repository/item_queue_repository.go:62-68 | a member decodes iff it is not undecodable; it decodes to its record, and a non-canonical member is never that record's encoding |
| ItemQueueRepo.PriorityBreaksTies | internal/repository/item_queue_repository.go:43 | at equal creation time Low scores below Default, which scores below High |
| ItemQueueRepo.HighIsAMillionSecondsLater | internal/repository/item_queue_repository.go:43 | a High record scores exactly as a Default one created 1,000,000 s later |
| ItemQueueRepo.TimestampDominates | internal/repository/item_queue_repository.go:43 | among the named priorities, a record created more than 2,000,000 s earlier always scores lower |
| ItemQueueRepo.RangeCount | internal/repository/item_queue_repository.go:56 | ZRANGE 0..batchSize-1 returns min(batchSize, size) members for batchSize ≥ 1, the whole set for 0, and counts from the end for negatives |
| ItemQueueRepo.ItemQueueRepository.Range | internal/repository/item_queue_repository.go:56 | returns exactly `count` distinct members, lowest score first, none skipped for a higher one |
| ItemQueueRepo.LowerScoreTakenFirst | internal/repository/item_queue_repository.go:56 | a batch never holds a member while leaving out, or placing later, a strictly lower-scored one |
| ItemQueueRepo.ItemQueueRepository.GetNextBatch | internal/repository/item_queue_repository.go:54-71 | non-destructive; a store fault is an error; otherwise the fetched range has RangeCount members lowest first, and the call succeeds iff every member decodes, returning the decoded records in range order |
| ItemQueueRepo.Removed | internal/repository/item_queue_repository.go:79 | ZREM deletes exactly the record's member; other members and scores unchanged; removing an absent record changes nothing |
| ItemQueueRepo.ItemQueueRepository.RemoveItem | internal/repository/item_queue_repository.go:73-84 | fails exactly on a store fault, changing nothing; otherwise the queue becomes Removed(old queue, item); credits untouched |
| ItemQueueRepo.ItemQueueRepository.CheckAPICredits | internal/repository/item_queue_repository.go:86-100 | a read fault is an error with no write; an absent counter becomes 150 with a 24-hour lifetime and 150 is returned (an error if that set fails); a present counter is returned unchanged, even ≤ 0 |
| ItemQueueRepo.ItemQueueRepository.DecrementAPICredits | internal/repository/item_queue_repository.go:102-107 | DECR lowers the counter by exactly one, with no floor and keeping its lifetime; an absent key becomes -1; a fault changes nothing |
| ItemQueueRepo.ItemQueueRepository.CreditsLifetimeElapses | internal/repository/item_queue_repository.go:91 | the 24-hour lifetime runs out: a counter with a lifetime becomes absent |
| ItemQueueRepo.EnqueuedAllAppend | internal/repository/recipe_repository.go:602-611 | enqueueing two runs of created items one after the other equals enqueueing their concatenation |
| ItemQueueRepo.EnqueuedHasEach | internal/repository/user_item_repository.go:308-318 | each created item whose enqueue did not fail is queued at DefaultPriority, scored by the creation time |
| ItemQueueRepo.EnqueuedOnlyAdds | internal/repository/recipe_repository.go:602-611 | enqueueing only adds: queued members stay, and new members are records of created items |
| Worker.ItemQueueHandler.constructor | internal/handlers/item_queue_handler.go:23-35 | batch size 10, interval one minute |
| Worker.ItemQueueHandler.ProcessBatch | internal/handlers/item_queue_handler.go:55-125 | a failed or non-positive credit check, or a failed batch read, returns an error before any record is touched; otherwise each fetched record is handled once in batch order, failures skipped, no error; the queue loses exactly the encodings of the enriched records and the credits fall by the number of full successes from the value read once |
| Worker.ItemQueueHandler.RunBatch | internal/handlers/item_queue_handler.go:64-122 | the batch is the lowest-first range of size RangeCount(10); an undecodable member ends the tick with an error and no change; otherwise as ProcessBatch after the gate |
| Worker.ItemQueueHandler.HandleBatch | internal/handlers/item_queue_handler.go:64-71 | a batch error gives "failed to get batch" with no change; an empty batch succeeds with no lookups, updates, removals or decrements |
| Worker.ItemQueueHandler.ProcessItems | internal/handlers/item_queue_handler.go:73-122 | one step per record, in order, each following the environment; queue = old minus the removed members; credits = old minus the decrements |
| Worker.ItemQueueHandler.ProcessItem | internal/handlers/item_queue_handler.go:73-120 | lookup, catalog write, removal and decrement in that order; the record leaves the queue only if the first three succeed, and one credit is spent only if all four do |
| Worker.RemovalNeedsLookupAndUpdate | internal/handlers/item_queue_handler.go:74-119 | a record is dequeued iff lookup, update and removal succeeded; a credit is spent iff the decrement succeeded too |
| Worker.RemovedExactlyEnriched | internal/handlers/item_queue_handler.go:112-115 | a member is removed by a tick iff it is the encoding of a record whose step ended enriched |
| Worker.NoncanonicalStaysQueued | internal/repository/item_queue_repository.go:73-84 | a fetched member that decodes but is not its record's encoding stays queued after the tick, even when its record was enriched and a credit was spent |
| Worker.DecrementsBounded | internal/handlers/item_queue_handler.go:117-119 | a tick spends at most one credit per batch record, and all of them only when every record fully succeeded |
| Worker.BuildUpdate | internal/handlers/item_queue_handler.go:80-104 | the catalog write carries the record's item id and name, the provider's image and id (as uint) and the provider's nutrients with the same length, order and values |
| Models.UintOf | internal/handlers/item_queue_handler.go:93 | Go's `uint(x)` lies in [0, 2^64), is congruent to x modulo 2^64, and is the identity on the non-negative 64-bit range |
| Models.ParseDifficulty | internal/models/recipe.go:13-24 | no error iff the input is exactly "easy", "medium" or "hard", and then it is returned; otherwise an error with the empty difficulty |
| Models.ParseDifficultyRoundTrip | internal/models/recipe.go:7-20 | each named difficulty parses back to itself without error |
| Models.ParseDifficultyCaseSensitive | internal/models/recipe.go:14-22 | "Easy" and "HARD" are rejected |
| Text.ParseUint32 | internal/repository/recipe_repository.go:411 | a parse succeeds iff the string is non-empty, all digits, and its decimal value is ≤ 2^32-1; the result is that value |
| Text.ParseLeadingZero | internal/repository/recipe_repository.go:411 | leading zeros are accepted: "0" + s parses exactly as s does |
| Text.ParseRejectsOverflow | internal/repository/recipe_repository.go:411 | the decimal spelling of any value above 2^32-1 is a range error |
| Text.ParseDecimalRoundTrip | internal/repository/recipe_repository.go:411 | every 32-bit value written in decimal parses back to itself |
| Text.ParseRejectsNonDigit | internal/repository/recipe_repository.go:411 | a string holding a sign, a blank or any other non-digit never parses |
| Text.Lower | internal/repository/recipe_repository.go:401-405 | same length; ASCII capitals lowered, every other character kept |
| Text.LikeContains | internal/repository/user_item_repository.go:161-171 | for a wildcard-free query, `s LIKE '%q%'` iff q occurs in s |
| Text.UnderscoreIsWildcard | internal/repository/user_item_repository.go:161 | `_` in a query matches a character the query does not contain |
| Text.Split | internal/middlewares/auth.go:29 | `strings.Split` always gives at least one part |
| Text.JoinSplit | internal/middlewares/auth.go:29 | joining the parts of a split gives the string back |
| Text.SplitJoin | internal/repository/recipe_repository.go:465 | joining separator-free parts and splitting again gives the parts back |
| Text.SplitTwo | internal/middlewares/auth.go:29-30 | a split gives [a, b] iff the string is a, one separator, b, and neither part holds the separator |
| Catalog.First | internal/repository/user_item_repository.go:297 | the first match satisfies the condition, and there is none iff no row does |
| Catalog.FirstAppend | internal/repository/user_item_repository.go:304 | inserting a row changes a lookup's first match only when there was none |
| Catalog.FirstStable | internal/repository/recipe_repository.go:592-598 | appending rows never changes an existing first match |
| Catalog.FirstIsEarliest | internal/repository/user_item_repository.go:201 | the first match comes before every other match |
| Catalog.SetAmount | internal/repository/user_item_repository.go:341-343 | the row with that key takes the new amount and unit; every other row is unchanged |
| Catalog.SetAmountKeepsKeys | internal/repository/user_item_repository.go:341-343 | changing amounts keeps the (user, item) keys distinct |
| Catalog.SetAmountReadBack | internal/repository/user_item_repository.go:128-131 | after the write the key reads back the new amount and unit |
| Catalog.Store.CreateItem | internal/repository/user_item_repository.go:304 | an insert gives the next serial id and appends the row; a failed insert changes nothing; keys stay ascending |
| Catalog.Store.CreateRecipe | internal/repository/recipe_repository.go:622-624 | an insert gives the next serial id and appends the recipe; a failed insert changes nothing, and so, in this model, do ingredient rows naming one item twice (see "Left out") |
| Catalog.Store.CreateUserItem | internal/repository/user_item_repository.go:334 | the insert succeeds iff it does not fail and the (user, item) key is free |
| Catalog.Store.SaveUserItem | internal/repository/user_item_repository.go:343 | a save writes back the amount and unit of the row with that key |
| RecipeRepo.Int16 | internal/repository/recipe_repository.go:555-557 | `int16(x)` is in range, congruent to x modulo 2^16, and the identity in range |
| RecipeRepo.Int16Unique | internal/repository/recipe_repository.go:555-557 | that value is the only one in range congruent to x |
| RecipeRepo.ParsedIdsMembers | internal/repository/recipe_repository.go:409-414 | an id is requested iff one of the strings parses to it |
| RecipeRepo.ParsedIdsAppend | internal/repository/recipe_repository.go:409-414 | parsing keeps the request order: it distributes over concatenation |
| RecipeRepo.ParsedIdsOfDecimals | internal/repository/recipe_repository.go:409-414 | 32-bit ids written in decimal are parsed back in full and in order |
| RecipeRepo.RecipeRepository.ParseIngredientIds | internal/repository/recipe_repository.go:409-414 | the loop keeps exactly the parsable ids, in order |
| RecipeRepo.DietFilterCases | internal/repository/recipe_repository.go:404-407 | "Vegan" filters on the vegan column; "vegan ", "ketogenic" and "" do not filter |
| RecipeRepo.DietFilterIgnoresCase | internal/repository/recipe_repository.go:405 | a diet filters exactly as its lower-cased spelling does |
| RecipeRepo.Local | internal/repository/recipe_repository.go:400-420 | a recipe is in the local result iff it is stored and meets the case-insensitive title, whitelisted diet and any-of-ingredients conditions; never more rows than are stored |
| RecipeRepo.DietCounts | internal/repository/recipe_repository.go:422-433 | one group per (vegan, vegetarian) pair with rows, each with a positive count equal to its joined rows |
| RecipeRepo.DietCountsComplete | internal/repository/recipe_repository.go:428-431 | every diet pair that has rows is reported |
| RecipeRepo.JoinRowsByGroup | internal/repository/recipe_repository.go:428-431 | the four diet groups partition the joined rows |
| RecipeRepo.CountIsJoinRows | internal/repository/recipe_repository.go:435-438 | the summed count equals the number of recipe/ingredient join rows, whatever the title and diet filters |
| RecipeRepo.LocalWithinCount | internal/repository/recipe_repository.go:416-438 | the count is never below the number of recipes found locally |
| RecipeRepo.RecipeRepository.SumCounts | internal/repository/recipe_repository.go:435-438 | the loop's total is the sum of the group counts |
| RecipeRepo.RecipeRepository.IngredientNames | internal/repository/recipe_repository.go:447-453 | the names of the requested ids that resolve to items, in request order |
| RecipeRepo.NamesEmpty | internal/repository/recipe_repository.go:447-466 | no names iff none of the requested ids resolves |
| RecipeRepo.Request | internal/repository/recipe_repository.go:457-474 | the parameters always carry the key, instructions, nutrition and number=2; includeIngredients iff some name resolved (comma-joined); diet iff non-empty, sent raw; titleMatch iff the title is non-empty; nothing else |
| RecipeRepo.IncludeIngredientsRoundTrip | internal/repository/recipe_repository.go:465 | comma-free names are recovered by splitting the parameter |
| RecipeRepo.LastCalories | internal/repository/recipe_repository.go:563-567 | KCal is the amount of the last nutrient named exactly "Calories", or 0 if none |
| RecipeRepo.RecipeRepository.BuildNutrients | internal/repository/recipe_repository.go:563-574 | the loop builds the converted nutrients and the last "Calories" amount |
| RecipeRepo.FirstGroupOnly | internal/repository/recipe_repository.go:577-585 | only the first instruction group counts, step for step |
| RecipeRepo.RecipeRepository.BuildInstructions | internal/repository/recipe_repository.go:577-585 | the loop builds the steps of the first group, none if there is no group |
| RecipeRepo.ConvertedFields | internal/repository/recipe_repository.go:549-574 | a new recipe keeps the provider's id, texts, flags and nutrients; times are cut to int16; KCal 0 without "Calories"; ingredient rows as resolved |
| RecipeRepo.RecipeRepository.ResolveIngredient | internal/repository/recipe_repository.go:589-618 | an ingredient line reuses the first item with its provider id, leaving all else alone; otherwise it creates an imageless item and enqueues it at DefaultPriority; an error iff that create or enqueue fails |
| RecipeRepo.RecipeRepository.ResolveIngredients | internal/repository/recipe_repository.go:588-619 | the lines are resolved in order, linked with their amounts and units to an item with their provider id, every new item enqueued; on every path the catalog gains at most one item per line, each named after a line and carrying its provider id; the first failure aborts, keeping earlier writes |
| RecipeRepo.FreshItemsDistinct | internal/repository/recipe_repository.go:592-600 | within one ingestion no two created items share a provider id, so a repeated line reuses the item |
| RecipeRepo.FreshRecipesDistinct | internal/repository/recipe_repository.go:543-560 | within one ingestion no two created recipes share a provider id |
| RecipeRepo.NegativeIdNeverFound | internal/repository/recipe_repository.go:592-596 | a negative provider id is never found among stored (unsigned) ids |
| RecipeRepo.RecipeRepository.IngestOne | internal/repository/recipe_repository.go:540-626 | a result whose id is stored returns that recipe's bare row and writes nothing; otherwise the converted recipe is appended with its linked rows, whose item ids are distinct, and its lines repeat no non-negative provider id; a failed store leaves the recipes as they were; with no store fault and distinct provider ids it succeeds; new items are at most one per line, each named after a line with its provider id |
| RecipeRepo.UintOfInjective | internal/repository/recipe_repository.go:596 | `uint(x)` is one-to-one on 64-bit signed values |
| RecipeRepo.DistinctIdsDistinctLinks | internal/repository/recipe_repository.go:589-619 | lines with distinct provider ids are linked to distinct items |
| RecipeRepo.RepeatedIdSharesItem | internal/repository/recipe_repository.go:589-619 | two lines with the same non-negative provider id are linked to the same item |
| RecipeRepo.DistinctLinksNoRepeats | internal/repository/recipe_repository.go:589-624 | a recipe whose ingredient rows have distinct keys came from lines repeating no non-negative provider id |
| RecipeRepo.RecipeRepository.IngestAll | internal/repository/recipe_repository.go:540-627 | results are ingested in order, each answered; the first failure aborts, keeping earlier writes; with no store fault and distinct provider ids on each result's lines it succeeds; new items are at most one per line of all results, each named after such a line with its provider id |
| RecipeRepo.RecipeRepository.AskProvider | internal/repository/recipe_repository.go:445-627 | the sent request is Request(names); a transport error, a non-200 status or an undecodable body fails with no write; success means count = number of results and every result answered; a good reply whose results ingest cleanly succeeds; new items come from the results' lines, at most one per line |
| RecipeRepo.RecipeRepository.SearchRecipes | internal/repository/recipe_repository.go:396-688 | a count or find fault fails with no write; the provider is asked iff the local result is empty; a local hit returns Local with the join-row count and groups and writes nothing; a provider answer replaces the count and keeps the groups; a good reply whose results ingest cleanly succeeds; new items come from the reply's lines, at most one per line |
| UserItemRepo.UpsertReadBack | internal/repository/user_item_repository.go:331-347 | after an upsert the (user, item) row reads back as written and keys stay distinct |
| UserItemRepo.UpsertKeepsOtherRows | internal/repository/user_item_repository.go:331-347 | an upsert leaves every other key's row as it was |
| UserItemRepo.InsertIfAbsentKeepsExisting | internal/repository/user_item_repository.go:218-223 | after an insert-if-absent the key has a row, and an existing row is never touched |
| UserItemRepo.UserItemRepository.ResolveDetected | internal/repository/user_item_repository.go:296-321 | the item is the first with exactly that name; on not-found an imageless item with provider id 0 is created and enqueued when a queue exists; an error only from a lookup or create fault |
| UserItemRepo.UserItemRepository.DetectOne | internal/repository/user_item_repository.go:296-358 | one detection's entry carries its item and the detected amount and unit, and the pantry row is upserted; a fault writes no row |
| UserItemRepo.UserItemRepository.DetectUserItems | internal/repository/user_item_repository.go:293-364 | one entry per detection in order; the rows are the upserts of the entries; new items are fresh, at most one per detection and each named after a detection, and queued unless their enqueue failed (which never fails the call); a store fault aborts, keeping earlier writes |
| UserItemRepo.UserItemRepository.ResolvePredicted | internal/repository/user_item_repository.go:200-211 | the item is the first whose name matches "%class%", else a new imageless item named after the class; it fails exactly when no name matches and the create fails, and then writes nothing |
| UserItemRepo.UserItemRepository.PredictOne | internal/repository/user_item_repository.go:195-234 | the item is the first whose name matches "%class%", else a new one named after the class; the row is inserted only if absent; the entry has zero amount and empty unit; an error comes only from a store fault for that class and writes no row |
| UserItemRepo.UserItemRepository.PredictUserItems | internal/repository/user_item_repository.go:192-240 | empty classes skipped; one entry per other class, in order; rows only inserted if absent; new items are at most one per class, each named after a class; an error means a store fault hit the class where the call stopped; the queue is not touched |
| UserItemRepo.RowsOfUser | internal/repository/user_item_repository.go:163 | the query returns exactly the given user's rows |
| UserItemRepo.SearchSound | internal/repository/user_item_repository.go:169-185 | each entry's item name contains the wildcard-free query and carries a row's amount and unit for that item |
| UserItemRepo.SearchComplete | internal/repository/user_item_repository.go:169-185 | every row whose item name contains the wildcard-free query is reported with its amount and unit |
| UserItemRepo.UserItemRepository.SearchUserItems | internal/repository/user_item_repository.go:159-190 | only the rows read can fail; otherwise the user's rows whose item matches, in store order, non-matching skipped |
| UserItemRepo.UserItemRepository.UpdateUserItem | internal/repository/user_item_repository.go:122-150 | a failed row query or an absent (item, user) row is an error with no write ("record not found" for absence), and so is a failed save; otherwise only the row's amount and unit change and read back, and the item is read afterwards: a failed or empty item read is an error after the write |
| UserAccounts.UserStore.RegisterUser | internal/repository/redis_repository.go:13-37 | an existing key fails "user already exists" with no write; otherwise exactly hash(password) and the role are stored, with a 24-hour lifetime unless the unchecked expiry fails |
| UserAccounts.UserStore.AuthenticateUser | internal/repository/redis_repository.go:39-70 | a missing key or failed existence check is "user not found"; a hash mismatch is "invalid credentials"; success needs the stored hash, an id that parses as uint32, and returns it with the username and the stored role |
| UserAccounts.RegisteredUserCannotAuthenticate | internal/repository/redis_repository.go:26-59 | a user created only by RegisterUser never authenticates, whatever the password |
| UserAccounts.RegisteredPasswordAccepted | internal/repository/redis_repository.go:42-59 | right after registration the right password gets past the credential check and fails at the missing id |
| Security.RequestSizeLimit | internal/middlewares/security.go:13-26 | 413 iff the method is POST, PUT or PATCH and the length exceeds 10 MiB |
| Security.RequestSizeBoundaries | internal/middlewares/security.go:13-24 | exactly 10 MiB, unknown length, GET and lower-case "post" pass; one byte more is refused |
| Security.ProductionURL | internal/middlewares/security.go:28-47 | passes iff not production or Origin or Referer equals FLUTTER_URL; otherwise 403 |
| Security.UnsetFlutterURLAdmitsMissingOrigin | internal/middlewares/security.go:32-38 | with FLUTTER_URL unset, a production request without Origin passes |
| Security.RateStep | internal/middlewares/security.go:62-83 | rejected (429) iff the read succeeds and the counter is ≥ 1, with no write; a first request stores 1 with 500 ms; a read fault passes; other clients untouched |
| Security.AtMostOnePerWindow | internal/middlewares/security.go:65-83 | within one window at most one request per client passes |
| Security.WindowNotExtended | internal/middlewares/security.go:76-79 | rejected requests leave a present counter and its lifetime as they were |
| Security.RateLimiter.Handle | internal/middlewares/security.go:49-84 | outside production passes with no store access; in production it is RateStep on the key from X-Forwarded-For or else RemoteAddr |
| Security.RateLimiter.Expire | internal/middlewares/security.go:66 | the 500 ms lifetime runs out: the client's key disappears |
| Security.SecurityHeaders | internal/middlewares/security.go:86-97 | with keys in Go's canonical form, four fixed headers always set (overwriting any earlier value), HSTS only in production, every other header untouched |
| Security.XSSKeyCanonical | internal/middlewares/security.go:89 | `Header().Set("X-XSS-Protection", …)` stores the header under the canonical key "X-Xss-Protection" |
| Security.FrameOptionsCanonical | internal/middlewares/security.go:88 | "X-Frame-Options" is already the canonical key it is stored under |
| Security.ContentTypeOptionsCanonical | internal/middlewares/security.go:90 | "X-Content-Type-Options" is already the canonical key it is stored under |
| Security.TransportSecurityCanonical | internal/middlewares/security.go:92 | "Strict-Transport-Security" is already the canonical key it is stored under |
| Security.ContentSecurityPolicyCanonical | internal/middlewares/security.go:94 | "Content-Security-Policy" is already the canonical key it is stored under |
| Auth.Authorize | internal/middlewares/auth.go:21-51 | an empty header is 401 "Missing Authorization header"; forwarding happens iff the header is "Bearer", one space and a space-free token the verifier accepts, and then with id, username and role in the context |
| Auth.BearerSplit | internal/middlewares/auth.go:29-30 | splitting on spaces gives ["Bearer", t] iff the header is "Bearer " + t with t free of spaces |
| Auth.MalformedHeadersRejected | internal/middlewares/auth.go:29-35 | "bearer x", "Bearer  x" and "Bearer x y" are refused; "Bearer " hands the empty token to the verifier |
| Auth.GettersReadClaims | internal/middlewares/auth.go:45-74 | behind the gate the getters return exactly the verifier's claims |
| Auth.GettersDefault | internal/middlewares/auth.go:53-74 | for each getter and any context: a missing value or one of the wrong type reads as 0 or "", and a value of the right type reads as stored |

## Left out

- The worker's `Start` loop (ticker, cancellation) and the 100 ms sleep between records: timing only; one tick is modelled.
- Concurrency: several instances sharing the queue, the counter or the rate-limit keys. Each Redis command is one atomic state change.
- Network calls are parameters: the ingredient lookup (`lookup`), the recipe search (`provider`), the vision model (its answer `detected`), and the Cognito calls in auth_repository.go and aws_client.go. The unchecked `Choices[0]` before detection is not part of this model.
- `HashPassword` (SHA-256 in hex) and `VerifyToken` (JWT) are uninterpreted function parameters.
- HTTP handlers, routes, wiring, generated documentation and the thin gorm CRUD of items and recipes are not part of this model. The worker's catalog write is the abstract outcome `updateFails`.
- The mapping of catalog rows to response DTOs is not modelled. So the zeroed `Item` fields of the ingredient rows of a newly created recipe (never preloaded) are not either; `SearchResponse` holds the recipes as the catalog holds them.
- Floating point: amounts, servings and KCal are `real`, so float32 rounding is not modelled. The sorted-set score is an `int`, exact for every score the producers write.
- ZRANGE order among equal scores (lexicographic on the member bytes) is not fixed: `LowestFirst` allows any tie order. Relational results follow storage order, which is insertion order: pantry rows are kept in the order they were created, not sorted by key.
- RecipeRepo.DietCounts: the store gives GROUP BY results no order; the model lists the groups in a fixed order.
- The int64 and `int` widths of the recipe count are not modelled; the count is unbounded.
- `json.Marshal` of a queue record never fails in Go, so its error branch is left out.
- Text.Lower: lower-cases ASCII only, where `strings.ToLower` and SQL `LOWER` also fold non-ASCII letters.
- One clock reading `now` per producer call, where the source calls `time.Now()` for each created item.
- Worker.ItemQueueHandler.ProcessItem: the provider's answer is read as the handler reads it (`Nutrition.Nutrients`). The field is absent from the client struct in spoonacular_client.go, which is not part of this model.
- Catalog.Store.CreateRecipe: what happens to two ingredient rows naming the same item is decided by the object-relational mapper's association save, not by the repository's code. The model treats it as a failed insert that writes nothing; the mapper may instead store one row per item and succeed. RecipeRepo.RecipeRepository.IngestOne inherits this: its promise that a stored recipe's lines repeat no non-negative provider id rests on that failure.
- RecipeRepo.RecipeRepository.IngestOne: success is promised only when a result's lines carry distinct provider ids. Lines repeating one negative id each create their own item, so their rows never share a key; the model does not track that those items differ.
- RecipeRepo.RecipeRepository.IngestOne: a lookup of a stored recipe by provider id that fails for a reason other than not-found is not modelled. The source then creates the recipe anyway.
- RecipeRepo.RecipeRepository.ResolveIngredient: likewise, an item lookup error other than not-found is not modelled. The source then creates a new item.
- RecipeRepo.RecipeRepository.IngredientNames: a failing item lookup is not distinguished from a missing item. The source skips both.
- RecipeRepo.RecipeRepository.AskProvider: `http.NewRequest` failing on a malformed base URL and the URL encoding of the query parameters are not modelled; the request is the parameter map.
- UserItemRepo.UserItemRepository.PredictOne: an item lookup error other than not-found is not modelled. The source then creates an item, as for not-found.
- UserItemRepo.UserItemRepository.SearchUserItems: a failing per-row item lookup is not modelled. The source skips that row, just as for a non-matching item.
- UserAccounts.UserStore.AuthenticateUser: a failing role read is not modelled separately. The source ignores it, and the role reads as "", which is what the model gives for a missing role.
- Security.RateStep: a stored value that is not an integer is covered by `readFails`. The source's `.Int()` parse error is fail-open like a read error.
- RecipeRepo.DietFilterCases: the diet whitelist's case-insensitivity is proved in general (`DietFilterIgnoresCase`) and on "Vegan", not on other mixed-case literals.
- Fields where models and repositories disagree follow the repository's text. Examples are `RecipeItem` having no `Quantity`, and `UpdateItem` in item_repository.go ignoring nutrients, which is not part of this model.
