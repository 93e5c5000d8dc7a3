/**
  The enrichment queue and the API-credit counter, both kept in the key-value
  store: a sorted set of serialised queue records, each with a score, and one
  integer counter with a 24-hour lifetime.
 */
module ItemQueueRepo {
  import opened Wrappers
  import opened Models
  import opened KeyValue

  const DefaultCredits: int := 150
  const CreditsLifetimeMs: nat := 24 * 60 * 60 * 1000
  /** The weight of the priority in a record's score. */
  const PriorityWeight: int := 1_000_000

  /**
    A member of the sorted set. `json.Marshal` of a record is deterministic and
    decodes back to the same record, so the bytes it writes are modelled by the
    record itself (`Encoded`). `json.Unmarshal` also accepts bytes `Marshal`
    never writes (other key order, blanks, unknown fields, keys in other
    case): `Noncanonical` stands for such bytes, which decode to `item` yet
    differ from its encoding. `Undecodable` stands for bytes that do not decode.
   */
  datatype Member = Encoded(item: QueueItem) | Noncanonical(item: QueueItem, raw: string) | Undecodable(raw: string)

  function Encode(item: QueueItem): Member { Encoded(item) }

  function Decode(m: Member): (r: Option<QueueItem>)
    ensures r.Some? <==> !m.Undecodable?
    ensures r.Some? ==> r.value == m.item
    ensures m.Noncanonical? ==> r.Some? && m != Encode(r.value)
  {
    match m
    case Encoded(q) => Some(q)
    case Noncanonical(q, _) => Some(q)
    case Undecodable(_) => None
  }

  /** Every member of a fetched batch decodes to a record. */
  predicate AllDecodable(batch: seq<Member>)
  {
    forall i :: 0 <= i < |batch| ==> Decode(batch[i]).Some?
  }

  /** Serialisation is injective: two records share a member exactly when they are equal. */
  lemma EncodeRoundTrip(a: QueueItem, b: QueueItem)
    ensures Decode(Encode(a)) == Some(a)
    ensures Encode(a) == Encode(b) <==> a == b
  {
  }


  /** The score a record is added with: priority * 1,000,000 + creation time in Unix seconds. */
  function Score(item: QueueItem): int
  {
    item.priority * PriorityWeight + item.createdAt.unixSeconds
  }

  /** Copy of `item` with another priority. */
  function WithPriority(item: QueueItem, p: Priority): QueueItem
  {
    item.(priority := p)
  }

  /** At equal creation times, Low ranks before Default, which ranks before High. */
  lemma PriorityBreaksTies(item: QueueItem)
    ensures Score(WithPriority(item, LowPriority)) < Score(WithPriority(item, DefaultPriority))
    ensures Score(WithPriority(item, DefaultPriority)) < Score(WithPriority(item, HighPriority))
  {
  }

  /** A High-priority record ranks exactly as a Default one created 1,000,000 seconds later. */
  lemma HighIsAMillionSecondsLater(item: QueueItem)
    ensures Score(WithPriority(item, HighPriority))
         == Score(item.(priority := DefaultPriority, createdAt := item.createdAt.(unixSeconds := item.createdAt.unixSeconds + PriorityWeight)))
  {
  }

  /** The timestamp dominates: a record created over 2,000,000 s earlier ranks first whatever the two priorities. */
  lemma TimestampDominates(a: QueueItem, b: QueueItem)
    requires a.priority in {LowPriority, DefaultPriority, HighPriority}
    requires b.priority in {LowPriority, DefaultPriority, HighPriority}
    requires a.createdAt.unixSeconds + 2 * PriorityWeight < b.createdAt.unixSeconds
    ensures Score(a) < Score(b)
  {
  }

  /** The sorted set after ZADD of a record: the member is set to the record's score. */
  function Added(q: map<Member, int>, item: QueueItem): (r: map<Member, int>)
    ensures Encode(item) in r && r[Encode(item)] == Score(item)
    ensures forall m :: m != Encode(item) ==> (m in r <==> m in q)
    ensures forall m :: m in q && m != Encode(item) ==> r[m] == q[m]
  {
    q[Encode(item) := Score(item)]
  }

  /** Re-adding a byte-identical record keeps one copy. */
  lemma AddIdempotent(q: map<Member, int>, item: QueueItem)
    ensures Added(Added(q, item), item) == Added(q, item)
    ensures |Added(q, item)| == if Encode(item) in q then |q| else |q| + 1
  {
    if Encode(item) !in q {
      assert Added(q, item).Keys == q.Keys + {Encode(item)};
    } else {
      assert Added(q, item).Keys == q.Keys;
    }
  }

  /** Records that differ in any field (the same item id at two creation times, say) coexist. */
  lemma DistinctRecordsCoexist(q: map<Member, int>, a: QueueItem, b: QueueItem)
    requires a != b
    ensures Encode(a) in Added(Added(q, a), b) && Encode(b) in Added(Added(q, a), b)
  {
  }

  /** The record a producer enqueues for an item it has just created: default priority, created now. */
  function NewItemRecord(item: Item, now: Instant): QueueItem
  {
    QueueItem(item.id, item.name, now, DefaultPriority)
  }

  /**
    The sorted set after enqueueing the record of each item of `created`, in
    order; the enqueue of an item whose id `fails` leaves the set as it was.
   */
  function EnqueuedAll(q: map<Member, int>, created: seq<Item>, now: Instant, fails: nat -> bool): map<Member, int>
    decreases |created|
  {
    if created == [] then q
    else
      var before := EnqueuedAll(q, created[..|created| - 1], now, fails);
      var last := created[|created| - 1];
      if fails(last.id) then before else Added(before, NewItemRecord(last, now))
  }

  /** Enqueueing two runs of items one after the other is enqueueing their concatenation. */
  lemma {:induction false} EnqueuedAllAppend(q: map<Member, int>, a: seq<Item>, b: seq<Item>, now: Instant, fails: nat -> bool)
    ensures EnqueuedAll(q, a + b, now, fails) == EnqueuedAll(EnqueuedAll(q, a, now, fails), b, now, fails)
    decreases |b|
  {
    if b == [] {
      assert a + b == a;
    } else {
      assert (a + b)[..|a + b| - 1] == a + b[..|b| - 1];
      EnqueuedAllAppend(q, a, b[..|b| - 1], now, fails);
    }
  }

  /** Each created item whose enqueue succeeded is queued, at the score of its creation time. */
  lemma {:induction false} EnqueuedHasEach(q: map<Member, int>, created: seq<Item>, now: Instant, fails: nat -> bool, i: nat)
    requires i < |created| && !fails(created[i].id)
    ensures Encode(NewItemRecord(created[i], now)) in EnqueuedAll(q, created, now, fails)
    ensures EnqueuedAll(q, created, now, fails)[Encode(NewItemRecord(created[i], now))] == now.unixSeconds
  {
    if i < |created| - 1 {
      EnqueuedHasEach(q, created[..|created| - 1], now, fails, i);
    }
  }

  /** Enqueueing only adds: every member already queued stays, with its score unless it is one of the new records. */
  lemma {:induction false} EnqueuedOnlyAdds(q: map<Member, int>, created: seq<Item>, now: Instant, fails: nat -> bool)
    ensures forall m :: m in q ==> m in EnqueuedAll(q, created, now, fails)
    ensures forall m :: m in EnqueuedAll(q, created, now, fails) ==>
      m in q || exists i :: 0 <= i < |created| && m == Encode(NewItemRecord(created[i], now))
    ensures forall m :: m in q && (forall i :: 0 <= i < |created| ==> m != Encode(NewItemRecord(created[i], now))) ==>
      EnqueuedAll(q, created, now, fails)[m] == q[m]
    decreases |created|
  {
    if created != [] {
      var init := created[..|created| - 1];
      EnqueuedOnlyAdds(q, init, now, fails);
      forall m | m in EnqueuedAll(q, created, now, fails) && m !in q
        ensures exists i :: 0 <= i < |created| && m == Encode(NewItemRecord(created[i], now))
      {
        if m in EnqueuedAll(q, init, now, fails) {
          var i :| 0 <= i < |init| && m == Encode(NewItemRecord(init[i], now));
          assert created[i] == init[i];
        } else {
          assert m == Encode(NewItemRecord(created[|created| - 1], now));
        }
      }
      forall m | m in q && (forall i :: 0 <= i < |created| ==> m != Encode(NewItemRecord(created[i], now)))
        ensures EnqueuedAll(q, created, now, fails)[m] == q[m]
      {
        assert forall i :: 0 <= i < |init| ==> init[i] == created[i];
      }
    }
  }

  /** The sorted set after ZREM of a record's serialisation. */
  function Removed(q: map<Member, int>, item: QueueItem): (r: map<Member, int>)
    ensures Encode(item) !in r
    ensures forall m :: m != Encode(item) ==> (m in r <==> m in q)
    ensures forall m :: m in r ==> r[m] == q[m]
    ensures Encode(item) !in q ==> r == q
  {
    q - {Encode(item)}
  }

  /**
    How many members `ZRANGE key 0 (batchSize - 1)` returns from a set of `size`
    members: a negative stop counts from the end, so a batch size of 0 asks for
    the whole set.
   */
  function RangeCount(batchSize: int, size: nat): (n: nat)
    ensures n <= size
    ensures batchSize >= 1 ==> n == if batchSize <= size then batchSize else size
    ensures batchSize == 0 ==> n == size
    ensures batchSize < 0 ==> n == if size + batchSize >= 0 then size + batchSize else 0
  {
    var stop := if batchSize - 1 < 0 then size + (batchSize - 1) else batchSize - 1;
    if stop < 0 then 0 else if stop + 1 <= size then stop + 1 else size
  }

  /**
    `batch` is the lowest-scored part of the sorted set `q`, lowest score first:
    distinct members of `q`, scores non-decreasing, and no member left out
    scores below a member taken.
   */
  ghost predicate LowestFirst(q: map<Member, int>, batch: seq<Member>)
  {
    && (forall i :: 0 <= i < |batch| ==> batch[i] in q)
    && (forall i, j :: 0 <= i < j < |batch| ==> batch[i] != batch[j])
    && (forall i, j :: 0 <= i < j < |batch| ==> q[batch[i]] <= q[batch[j]])
    && (forall i, m :: 0 <= i < |batch| && m in q && m !in batch ==> q[batch[i]] <= q[m])
  }

  /** A batch taken lowest score first never skips a strictly lower-scored member. */
  lemma LowerScoreTakenFirst(q: map<Member, int>, batch: seq<Member>, a: Member, j: nat)
    requires LowestFirst(q, batch)
    requires j < |batch| && a in q && q[a] < q[batch[j]]
    ensures exists i :: 0 <= i < j && batch[i] == a
  {
    assert a in batch;
    var i :| 0 <= i < |batch| && batch[i] == a;
    assert i < j;
  }

  /** A non-empty set of members has one of least score. */
  lemma {:induction false} MinScoreExists(q: map<Member, int>, s: set<Member>)
    requires s != {} && s <= q.Keys
    ensures exists m :: m in s && forall m' :: m' in s ==> q[m] <= q[m']
  {
    var x :| x in s;
    if s != {x} {
      MinScoreExists(q, s - {x});
      var y :| y in s - {x} && forall m' :: m' in s - {x} ==> q[y] <= q[m'];
      if q[x] <= q[y] {
        assert forall m' :: m' in s ==> q[x] <= q[m'];
      } else {
        assert forall m' :: m' in s ==> q[y] <= q[m'];
      }
    }
  }

  /** Loop invariant of the range: `batch` taken lowest first, `rest` the members not yet taken. */
  ghost predicate RangeInvariant(q: map<Member, int>, batch: seq<Member>, rest: set<Member>)
  {
    && rest <= q.Keys
    && (forall m :: m in q ==> (m in rest <==> m !in batch))
    && LowestFirst(q, batch)
    && (forall i, m :: 0 <= i < |batch| && m in rest ==> q[batch[i]] <= q[m])
  }

  /** Taking a least-scored remaining member keeps the range's invariant. */
  lemma RangeStep(q: map<Member, int>, batch: seq<Member>, rest: set<Member>, m: Member)
    requires RangeInvariant(q, batch, rest)
    requires m in rest && forall m' :: m' in rest ==> q[m] <= q[m']
    ensures RangeInvariant(q, batch + [m], rest - {m})
  {
    var b := batch + [m];
    assert forall i :: 0 <= i < |batch| ==> b[i] == batch[i];
    assert forall x :: x in b <==> x in batch || x == m;
  }

  class ItemQueueRepository {
    /** The sorted set: member -> score. */
    var queue: map<Member, int>
    /** The API-credit counter; None when absent or expired. */
    var credits: Option<Counter>

    constructor ()
      ensures queue == map[] && credits == None
    {
      queue := map[];
      credits := None;
    }

    /** ZADD of the record's serialisation with its score; `fault` is a store error. */
    method AddItem(item: QueueItem, fault: bool) returns (err: Outcome)
      modifies this
      ensures err.Pass? <==> !fault
      ensures queue == if fault then old(queue) else Added(old(queue), item)
      ensures credits == old(credits)
    {
      if fault {
        return Fail("failed to add item to queue");
      }
      queue := queue[Encode(item) := Score(item)];
      err := Pass;
    }

    /** ZRANGE 0 (count - 1) on the store side: `count` members, lowest score first. */
    method Range(count: nat) returns (batch: seq<Member>)
      requires count <= |queue|
      ensures |batch| == count && LowestFirst(queue, batch)
    {
      batch := [];
      var rest := queue.Keys;
      while |batch| < count
        invariant |batch| <= count
        invariant |rest| + |batch| == |queue|
        invariant RangeInvariant(queue, batch, rest)
      {
        MinScoreExists(queue, rest);
        var m :| m in rest && forall m' :: m' in rest ==> queue[m] <= queue[m'];
        RangeStep(queue, batch, rest, m);
        batch := batch + [m];
        rest := rest - {m};
      }
    }

    /**
      Fetches the next `batchSize` records without removing them. `fault` is a
      store error; a member that does not decode fails the whole call.
      `fetched` is the range the store returned.
     */
    method GetNextBatch(batchSize: int, fault: bool) returns (r: Result<seq<QueueItem>>, ghost fetched: seq<Member>)
      ensures fault ==> r.Err?
      ensures !fault ==> |fetched| == RangeCount(batchSize, |queue|) && LowestFirst(queue, fetched)
      ensures !fault ==> (r.Ok? <==> AllDecodable(fetched))
      ensures r.Ok? ==> |r.value| == |fetched| && forall i :: 0 <= i < |fetched| ==> Decode(fetched[i]) == Some(r.value[i])
    {
      if fault {
        return Err("failed to get items from queue"), [];
      }
      var members := Range(RangeCount(batchSize, |queue|));
      fetched := members;
      var items: seq<QueueItem> := [];
      var i := 0;
      while i < |members|
        invariant 0 <= i <= |members| && |items| == i
        invariant forall k :: 0 <= k < i ==> Decode(members[k]) == Some(items[k])
      {
        var d := Decode(members[i]);
        if d.None? {
          return Err("failed to unmarshal item"), members;
        }
        items := items + [d.value];
        i := i + 1;
      }
      r := Ok(items);
    }

    /** ZREM of the record's serialisation; an absent record is not an error. */
    method RemoveItem(item: QueueItem, fault: bool) returns (err: Outcome)
      modifies this
      ensures err.Pass? <==> !fault
      ensures queue == if fault then old(queue) else Removed(old(queue), item)
      ensures credits == old(credits)
    {
      if fault {
        return Fail("failed to remove item from queue");
      }
      queue := queue - {Encode(item)};
      err := Pass;
    }

    /**
      Reads the credits. An absent counter is set to 150 with a 24-hour
      lifetime; a present one is returned as stored, even when not positive.
      `readFails` is a read error other than absence, `initFails` a failed set.
     */
    method CheckAPICredits(readFails: bool, initFails: bool) returns (r: Result<int>)
      modifies this
      ensures queue == old(queue)
      ensures readFails ==> r.Err? && credits == old(credits)
      ensures !readFails && old(credits).Some? ==> r == Ok(old(credits).value.value) && credits == old(credits)
      ensures !readFails && old(credits).None? && initFails ==> r.Err? && credits == None
      ensures !readFails && old(credits).None? && !initFails ==>
        r == Ok(DefaultCredits) && credits == Some(Counter(DefaultCredits, Some(CreditsLifetimeMs)))
    {
      if readFails {
        return Err("failed to get API credits");
      }
      if credits.None? {
        if initFails {
          return Err("failed to initialize API credits");
        }
        credits := Some(Counter(DefaultCredits, Some(CreditsLifetimeMs)));
        return Ok(DefaultCredits);
      }
      r := Ok(credits.value.value);
    }

    /**
      DECR: lowers the counter by one with no floor. On an absent key the store
      starts from 0, so the counter becomes -1 with no lifetime.
     */
    method DecrementAPICredits(fault: bool) returns (err: Outcome)
      modifies this
      ensures err.Pass? <==> !fault
      ensures queue == old(queue)
      ensures fault ==> credits == old(credits)
      ensures !fault && old(credits).Some? ==>
        credits == Some(Counter(old(credits).value.value - 1, old(credits).value.lifetimeMs))
      ensures !fault && old(credits).None? ==> credits == Some(Counter(-1, None))
    {
      if fault {
        return Fail("failed to decrement API credits");
      }
      credits := match credits
        case None => Some(Counter(-1, None))
        case Some(c) => Some(c.(value := c.value - 1));
      err := Pass;
    }

    /** The counter's lifetime runs out: a counter with a lifetime becomes absent. */
    method CreditsLifetimeElapses()
      modifies this
      ensures queue == old(queue)
      ensures credits == if old(credits).Some? && old(credits).value.lifetimeMs.Some? then None else old(credits)
    {
      if credits.Some? && credits.value.lifetimeMs.Some? {
        credits := None;
      }
    }
  }
}
