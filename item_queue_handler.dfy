/**
  The enrichment worker's tick: one credit check, one bounded batch from the
  queue, then each record in turn is looked up at the nutrition provider,
  written to the catalog, removed from the queue and paid for with one credit.
  The provider, the catalog write and the store's faults are the tick's
  environment, given as a parameter.
 */
module Worker {
  import opened Wrappers
  import opened Models
  import opened KeyValue
  import opened ItemQueueRepo

  /** A nutrient as the provider lists it for an ingredient. */
  datatype ProviderNutrient = ProviderNutrient(name: string, amount: real, unit: string, percentOfDailyNeeds: real)

  /** The provider's answer for one ingredient, as the worker reads it. */
  datatype ProviderIngredient = ProviderIngredient(id: int, name: string, image: string, nutrients: seq<ProviderNutrient>)

  /** A nutrient of a catalog update request. */
  datatype NutrientRequest = NutrientRequest(name: string, amount: real, unit: string, percentOfDailyNeeds: real)

  /** The catalog write `UpdateItem(itemId, request)`. */
  datatype ItemUpdate = ItemUpdate(itemId: nat, name: string, image: string, spoonacularId: nat, nutrients: seq<NutrientRequest>)

  /** What became of one record of the batch. */
  datatype Fate = LookupFailed | UpdateFailed | RemoveFailed | Enriched(decremented: bool)

  /** One record's step: the record, the catalog write it led to (if any) and its fate. */
  datatype ItemStep = ItemStep(item: QueueItem, update: Option<ItemUpdate>, fate: Fate)

  /**
    The outcomes of the tick's external calls. The `k`-th record of the batch
    is looked up by `lookup(k, name)`; `updateFails(k)`, `removeFails(k)` and
    `decrementFails(k)` are the catalog write's and the store's failures for it.
   */
  datatype TickEnv = TickEnv(
    creditsReadFails: bool,
    creditsInitFails: bool,
    batchReadFails: bool,
    lookup: (nat, string) -> Result<ProviderIngredient>,
    updateFails: nat -> bool,
    removeFails: nat -> bool,
    decrementFails: nat -> bool)

  /** The credits the tick reads from a counter that is present or about to be initialised. */
  function Available(c: Option<Counter>): int
  {
    if c.None? then DefaultCredits else c.value.value
  }

  /** The counter after the credit check. */
  function AfterCheck(c: Option<Counter>, env: TickEnv): Option<Counter>
  {
    if c.None? && !env.creditsReadFails && !env.creditsInitFails
    then Some(Counter(DefaultCredits, Some(CreditsLifetimeMs)))
    else c
  }

  /** The credit check succeeds and finds a positive number of credits. */
  predicate GateOpen(c: Option<Counter>, env: TickEnv)
  {
    !env.creditsReadFails && !(c.None? && env.creditsInitFails) && Available(c) > 0
  }

  /** The fate of the `k`-th record of the batch. */
  function FateOf(env: TickEnv, k: nat, name: string): Fate
  {
    if env.lookup(k, name).Err? then LookupFailed
    else if env.updateFails(k) then UpdateFailed
    else if env.removeFails(k) then RemoveFailed
    else Enriched(!env.decrementFails(k))
  }

  /** A record leaves the queue only after its lookup and its catalog write both succeeded. */
  lemma RemovalNeedsLookupAndUpdate(env: TickEnv, k: nat, name: string)
    ensures FateOf(env, k, name).Enriched? <==>
      env.lookup(k, name).Ok? && !env.updateFails(k) && !env.removeFails(k)
    ensures FateOf(env, k, name) == Enriched(true) <==>
      env.lookup(k, name).Ok? && !env.updateFails(k) && !env.removeFails(k) && !env.decrementFails(k)
  {
  }

  ghost predicate SameNutrient(r: NutrientRequest, n: ProviderNutrient)
  {
    r.name == n.name && r.amount == n.amount && r.unit == n.unit && r.percentOfDailyNeeds == n.percentOfDailyNeeds
  }

  /**
    The catalog write built for `item` from the provider's answer: the record's
    own item id and name, the provider's image and id, and the provider's
    nutrients in the same order with the same values.
   */
  ghost predicate IsUpdateFor(item: QueueItem, ing: ProviderIngredient, u: ItemUpdate)
  {
    && u.itemId == item.itemId
    && u.name == item.name
    && u.image == ing.image
    && u.spoonacularId == UintOf(ing.id)
    && |u.nutrients| == |ing.nutrients|
    && forall i :: 0 <= i < |u.nutrients| ==> SameNutrient(u.nutrients[i], ing.nutrients[i])
  }

  /** The step recorded for the `k`-th record agrees with the environment. */
  ghost predicate StepFollows(env: TickEnv, k: nat, s: ItemStep)
  {
    && s.fate == FateOf(env, k, s.item.name)
    && (env.lookup(k, s.item.name).Err? ==> s.update.None?)
    && (env.lookup(k, s.item.name).Ok? ==>
          s.update.Some? && IsUpdateFor(s.item, env.lookup(k, s.item.name).value, s.update.value))
  }

  /** The members the steps removed from the queue. */
  function RemovedBy(trace: seq<ItemStep>): set<Member>
  {
    if trace == [] then {}
    else
      var last := trace[|trace| - 1];
      RemovedBy(trace[..|trace| - 1]) + (if last.fate.Enriched? then {Encode(last.item)} else {})
  }

  /** The number of credits the steps spent. */
  function Decrements(trace: seq<ItemStep>): nat
  {
    if trace == [] then 0
    else Decrements(trace[..|trace| - 1]) + (if trace[|trace| - 1].fate == Enriched(true) then 1 else 0)
  }

  /** The counter once the steps' decrements are charged to it. */
  function Charged(c: Counter, trace: seq<ItemStep>): Counter
  {
    c.(value := c.value - Decrements(trace))
  }

  /** A member is removed exactly when some step for its record ended enriched. */
  lemma {:induction false} RemovedExactlyEnriched(trace: seq<ItemStep>, m: Member)
    ensures m in RemovedBy(trace) <==>
      exists k :: 0 <= k < |trace| && trace[k].fate.Enriched? && Encode(trace[k].item) == m
  {
    if trace != [] {
      var init := trace[..|trace| - 1];
      RemovedExactlyEnriched(init, m);
      assert forall k :: 0 <= k < |init| ==> init[k] == trace[k];
    }
  }

  /**
    ZREM removes a record's canonical encoding only: a fetched member that
    decodes but is not that encoding stays queued even when its record was
    enriched and a credit was spent, so every later tick fetches it again.
   */
  lemma {:induction false} NoncanonicalStaysQueued(q: map<Member, int>, trace: seq<ItemStep>, fetched: seq<Member>, k: nat)
    requires |trace| == |fetched| && k < |trace|
    requires forall i :: 0 <= i < |trace| ==> Decode(fetched[i]) == Some(trace[i].item)
    requires fetched[k].Noncanonical? && fetched[k] in q
    ensures fetched[k] in q - RemovedBy(trace)
    ensures trace[k].fate == Enriched(true) ==> Decrements(trace) > 0
  {
    RemovedExactlyEnriched(trace, fetched[k]);
    if trace[k].fate == Enriched(true) {
      ChargedStep(trace, k);
    }
  }

  /** A step that spent a credit is counted among the decrements. */
  lemma {:induction false} ChargedStep(trace: seq<ItemStep>, k: nat)
    requires k < |trace| && trace[k].fate == Enriched(true)
    ensures Decrements(trace) > 0
  {
    if k < |trace| - 1 {
      ChargedStep(trace[..|trace| - 1], k);
    }
  }

  /** A tick spends at most one credit per record of its batch, and all of them only when every record went through. */
  lemma {:induction false} DecrementsBounded(trace: seq<ItemStep>)
    ensures Decrements(trace) <= |trace|
    ensures Decrements(trace) == |trace| <==> forall k :: 0 <= k < |trace| ==> trace[k].fate == Enriched(true)
  {
    if trace != [] {
      var init := trace[..|trace| - 1];
      DecrementsBounded(init);
      assert forall k :: 0 <= k < |init| ==> init[k] == trace[k];
    }
  }

  /** Builds the catalog write for `item` from the provider's answer, copying the nutrients twice as the handler does. */
  method BuildUpdate(item: QueueItem, ing: ProviderIngredient) returns (u: ItemUpdate)
    ensures IsUpdateFor(item, ing, u)
  {
    var nutrients: seq<Nutrient> := [];
    var i := 0;
    while i < |ing.nutrients|
      invariant 0 <= i <= |ing.nutrients| && |nutrients| == i
      invariant forall k :: 0 <= k < i ==>
        nutrients[k] == Nutrient(ing.nutrients[k].name, ing.nutrients[k].amount, ing.nutrients[k].unit, ing.nutrients[k].percentOfDailyNeeds)
    {
      var n := ing.nutrients[i];
      nutrients := nutrients + [Nutrient(n.name, n.amount, n.unit, n.percentOfDailyNeeds)];
      i := i + 1;
    }
    var requests: seq<NutrientRequest> := [];
    i := 0;
    while i < |nutrients|
      invariant 0 <= i <= |nutrients| && |requests| == i
      invariant forall k :: 0 <= k < i ==>
        requests[k] == NutrientRequest(nutrients[k].name, nutrients[k].amount, nutrients[k].unit, nutrients[k].percentOfDailyNeeds)
    {
      var n := nutrients[i];
      requests := requests + [NutrientRequest(n.name, n.amount, n.unit, n.percentOfDailyNeeds)];
      i := i + 1;
    }
    u := ItemUpdate(item.itemId, item.name, ing.image, UintOf(ing.id), requests);
  }

  class ItemQueueHandler {
    const queue: ItemQueueRepository
    const batchSize: int
    const intervalMs: nat

    constructor (queue: ItemQueueRepository)
      ensures this.queue == queue && batchSize == 10 && intervalMs == 60_000
    {
      this.queue := queue;
      batchSize := 10;
      intervalMs := 60_000;
    }

    /**
      One tick. Closed gate (credit read failed or credits not positive) and a
      failed batch read end the tick with an error before any record is
      touched. Otherwise every record of the batch is handled once, in batch
      order, with failures logged and skipped, and the tick returns no error.
      `fetched` is the batch the store returned.
     */
    method ProcessBatch(env: TickEnv) returns (err: Option<string>, trace: seq<ItemStep>, ghost fetched: seq<Member>)
      modifies queue
      ensures !GateOpen(old(queue.credits), env) || env.batchReadFails ==>
        err.Some? && trace == [] && queue.queue == old(queue.queue) && queue.credits == AfterCheck(old(queue.credits), env)
      ensures GateOpen(old(queue.credits), env) && !env.batchReadFails ==>
        |fetched| == RangeCount(batchSize, |old(queue.queue)|) && LowestFirst(old(queue.queue), fetched)
      ensures GateOpen(old(queue.credits), env) && !env.batchReadFails && !AllDecodable(fetched) ==>
        err.Some? && trace == [] && queue.queue == old(queue.queue) && queue.credits == AfterCheck(old(queue.credits), env)
      ensures GateOpen(old(queue.credits), env) && !env.batchReadFails && AllDecodable(fetched) ==>
        && err.None?
        && |trace| == |fetched|
        && (forall k :: 0 <= k < |trace| ==> Decode(fetched[k]) == Some(trace[k].item) && StepFollows(env, k, trace[k]))
        && queue.queue == old(queue.queue) - RemovedBy(trace)
        && queue.credits.Some?
        && queue.credits.value.value == Available(old(queue.credits)) - Decrements(trace)
        && queue.credits.value.lifetimeMs == (if old(queue.credits).None? then Some(CreditsLifetimeMs) else old(queue.credits).value.lifetimeMs)
    {
      trace := [];
      fetched := [];
      var credits := queue.CheckAPICredits(env.creditsReadFails, env.creditsInitFails);
      if credits.Err? {
        return Some("failed to check API credits"), trace, fetched;
      }
      if credits.value <= 0 {
        return Some("no API credits remaining"), trace, fetched;
      }
      assert queue.credits == AfterCheck(old(queue.credits), env);
      err, trace, fetched := RunBatch(env);
    }

    /** The part of a tick after the credit gate has opened: fetch the batch and work through it. */
    method RunBatch(env: TickEnv) returns (err: Option<string>, trace: seq<ItemStep>, ghost fetched: seq<Member>)
      requires queue.credits.Some?
      modifies queue
      ensures env.batchReadFails ==> err.Some? && trace == [] && queue.queue == old(queue.queue) && queue.credits == old(queue.credits)
      ensures !env.batchReadFails ==>
        |fetched| == RangeCount(batchSize, |old(queue.queue)|) && LowestFirst(old(queue.queue), fetched)
      ensures !env.batchReadFails && !AllDecodable(fetched) ==>
        err.Some? && trace == [] && queue.queue == old(queue.queue) && queue.credits == old(queue.credits)
      ensures !env.batchReadFails && AllDecodable(fetched) ==>
        && err.None?
        && |trace| == |fetched|
        && (forall k :: 0 <= k < |trace| ==> Decode(fetched[k]) == Some(trace[k].item) && StepFollows(env, k, trace[k]))
        && queue.queue == old(queue.queue) - RemovedBy(trace)
        && queue.credits == Some(Charged(old(queue.credits).value, trace))
    {
      var batch;
      batch, fetched := queue.GetNextBatch(batchSize, env.batchReadFails);
      err, trace := HandleBatch(batch, fetched, env);
    }

    /** The outcome of the batch read: an error ends the tick, a decoded batch is worked through; an empty one ends it at once. */
    method HandleBatch(batch: Result<seq<QueueItem>>, ghost fetched: seq<Member>, env: TickEnv) returns (err: Option<string>, trace: seq<ItemStep>)
      requires queue.credits.Some?
      requires batch.Ok? ==> |batch.value| == |fetched| && forall i :: 0 <= i < |fetched| ==> Decode(fetched[i]) == Some(batch.value[i])
      modifies queue
      ensures batch.Err? ==> err.Some? && trace == [] && queue.queue == old(queue.queue) && queue.credits == old(queue.credits)
      ensures batch.Ok? ==>
        && err.None?
        && |trace| == |fetched|
        && (forall k :: 0 <= k < |trace| ==> Decode(fetched[k]) == Some(trace[k].item) && StepFollows(env, k, trace[k]))
        && queue.queue == old(queue.queue) - RemovedBy(trace)
        && queue.credits == Some(Charged(old(queue.credits).value, trace))
    {
      if batch.Err? {
        return Some("failed to get batch"), [];
      }
      err := None;
      if |batch.value| == 0 {
        return err, [];
      }
      trace := ProcessItems(batch.value, env);
    }

    /** The loop over a fetched batch: each record once, in order, failures skipped. */
    method ProcessItems(items: seq<QueueItem>, env: TickEnv) returns (trace: seq<ItemStep>)
      requires queue.credits.Some?
      modifies queue
      ensures |trace| == |items|
      ensures forall k :: 0 <= k < |trace| ==> trace[k].item == items[k] && StepFollows(env, k, trace[k])
      ensures queue.queue == old(queue.queue) - RemovedBy(trace)
      ensures queue.credits == Some(Charged(old(queue.credits).value, trace))
    {
      trace := [];
      ghost var q0 := queue.queue;
      ghost var c0 := queue.credits.value;
      var i := 0;
      while i < |items|
        invariant 0 <= i <= |items| && |trace| == i
        invariant forall k :: 0 <= k < i ==> trace[k].item == items[k] && StepFollows(env, k, trace[k])
        invariant queue.queue == q0 - RemovedBy(trace)
        invariant queue.credits == Some(Charged(c0, trace))
      {
        var step := ProcessItem(i, items[i], env);
        assert (trace + [step])[..i] == trace;
        trace := trace + [step];
        i := i + 1;
      }
    }

    /** The `k`-th record: lookup, catalog write, removal, decrement, each failure ending the record's turn. */
    method ProcessItem(k: nat, item: QueueItem, env: TickEnv) returns (step: ItemStep)
      requires queue.credits.Some?
      modifies queue
      ensures step.item == item && StepFollows(env, k, step)
      ensures queue.queue == if step.fate.Enriched? then old(queue.queue) - {Encode(item)} else old(queue.queue)
      ensures queue.credits == if step.fate == Enriched(true)
        then Some(old(queue.credits).value.(value := old(queue.credits).value.value - 1))
        else old(queue.credits)
    {
      var found := env.lookup(k, item.name);
      if found.Err? {
        return ItemStep(item, None, LookupFailed);
      }
      var update := BuildUpdate(item, found.value);
      if env.updateFails(k) {
        return ItemStep(item, Some(update), UpdateFailed);
      }
      var removeErr := queue.RemoveItem(item, env.removeFails(k));
      if removeErr.Fail? {
        return ItemStep(item, Some(update), RemoveFailed);
      }
      var decrementErr := queue.DecrementAPICredits(env.decrementFails(k));
      step := ItemStep(item, Some(update), Enriched(decrementErr.Pass?));
    }
  }
}
