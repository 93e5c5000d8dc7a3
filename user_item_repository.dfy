/**
  The pantry producers and queries of
  internal/repository/user_item_repository.go: DetectUserItems after the
  vision-model call, PredictUserItems, SearchUserItems and UpdateUserItem.

  The vision model's answer is the parameter `detected`; store faults are
  parameters indexed by the position of the entry being handled; the
  clock reading is the parameter `now`.
 */
module UserItemRepo {
  import opened Wrappers
  import opened Models
  import Text
  import opened KeyValue
  import opened Catalog
  import opened ItemQueueRepo

  /** One grocery the vision model reported. */
  datatype Detection = Detection(name: string, amount: real, unit: string)

  /** A response entry: the item and the pantry amount and unit reported with it. */
  datatype Entry = Entry(item: Item, amount: real, unit: string)

  /** The store faults of DetectUserItems at the entry in position k, and of the enqueue of an item id. */
  datatype DetectFaults = DetectFaults(
    itemLookupFails: nat -> bool,
    itemCreateFails: nat -> bool,
    rowLookupFails: nat -> bool,
    rowWriteFails: nat -> bool,
    enqueueFails: nat -> bool)

  /** The store faults of PredictUserItems at the class in position k. */
  datatype PredictFaults = PredictFaults(itemCreateFails: nat -> bool, rowLookupFails: nat -> bool, rowWriteFails: nat -> bool)

  /** A fault of the store that aborts PredictUserItems when it hits class k. */
  predicate PredictFaulted(f: PredictFaults, k: nat)
  {
    f.itemCreateFails(k) || f.rowLookupFails(k) || f.rowWriteFails(k)
  }

  /** A fault of the store that aborts DetectUserItems when it hits entry k. */
  predicate DetectFaulted(f: DetectFaults, k: nat)
  {
    f.itemLookupFails(k) || f.itemCreateFails(k) || f.rowLookupFails(k) || f.rowWriteFails(k)
  }

  // ---------------------------------------------------------------------
  // Pantry upserts

  /** Create-or-overwrite of a pantry row: a present row keeps its key and takes the new amount and unit. */
  function Upsert(rows: seq<UserItem>, row: UserItem): seq<UserItem>
  {
    if UserItemRow(rows, row.userId, row.itemId).Some?
    then SetAmount(rows, row.userId, row.itemId, row.amount, row.unit)
    else rows + [row]
  }

  /** Upserts of `writes`, in order. */
  function UpsertAll(rows: seq<UserItem>, writes: seq<UserItem>): seq<UserItem>
    decreases |writes|
  {
    if writes == [] then rows else Upsert(UpsertAll(rows, writes[..|writes| - 1]), writes[|writes| - 1])
  }

  /** After an upsert the row reads back exactly as written, and the keys stay distinct. */
  lemma UpsertReadBack(rows: seq<UserItem>, row: UserItem)
    requires UniqueKeys(rows)
    ensures UserItemRow(Upsert(rows, row), row.userId, row.itemId) == Some(row)
    ensures UniqueKeys(Upsert(rows, row))
  {
    if UserItemRow(rows, row.userId, row.itemId).Some? {
      SetAmountReadBack(rows, row.userId, row.itemId, row.amount, row.unit);
      SetAmountKeepsKeys(rows, row.userId, row.itemId, row.amount, row.unit);
    } else {
      FirstAppend(rows, row, (u: UserItem) => u.userId == row.userId && u.itemId == row.itemId);
    }
  }

  /** An upsert leaves every row of another key as it was. */
  lemma UpsertKeepsOtherRows(rows: seq<UserItem>, row: UserItem, userId: nat, itemId: nat)
    requires userId != row.userId || itemId != row.itemId
    ensures UserItemRow(Upsert(rows, row), userId, itemId) == UserItemRow(rows, userId, itemId)
  {
    var p := (u: UserItem) => u.userId == userId && u.itemId == itemId;
    if UserItemRow(rows, row.userId, row.itemId).Some? {
      var r := SetAmount(rows, row.userId, row.itemId, row.amount, row.unit);
      SameMatches(rows, r, p);
    } else {
      FirstAppend(rows, row, p);
    }
  }

  /** Two row sequences that agree wherever `p` can hold give the same first match. */
  lemma {:induction false} SameMatches(a: seq<UserItem>, b: seq<UserItem>, p: UserItem -> bool)
    requires |a| == |b|
    requires forall i :: 0 <= i < |a| ==> (p(a[i]) || p(b[i]) ==> a[i] == b[i])
    ensures First(a, p) == First(b, p)
  {
    if a != [] {
      SameMatches(a[1..], b[1..], p);
    }
  }

  /** An insert of a pantry row only when the key is free. */
  function InsertIfAbsent(rows: seq<UserItem>, row: UserItem): seq<UserItem>
  {
    if UserItemRow(rows, row.userId, row.itemId).Some? then rows else rows + [row]
  }

  /** An existing row is never touched by an insert-if-absent. */
  lemma InsertIfAbsentKeepsExisting(rows: seq<UserItem>, row: UserItem)
    ensures UserItemRow(InsertIfAbsent(rows, row), row.userId, row.itemId).Some?
    ensures UserItemRow(rows, row.userId, row.itemId).Some? ==> InsertIfAbsent(rows, row) == rows
  {
    if UserItemRow(rows, row.userId, row.itemId).None? {
      FirstAppend(rows, row, (u: UserItem) => u.userId == row.userId && u.itemId == row.itemId);
    }
  }

  /** Inserts-if-absent of `writes`, in order. */
  function InsertAllIfAbsent(rows: seq<UserItem>, writes: seq<UserItem>): seq<UserItem>
    decreases |writes|
  {
    if writes == [] then rows else InsertIfAbsent(InsertAllIfAbsent(rows, writes[..|writes| - 1]), writes[|writes| - 1])
  }

  /** The pantry rows that the response entries stand for. */
  function RowsOf(userId: nat, entries: seq<Entry>): (r: seq<UserItem>)
    ensures |r| == |entries|
    ensures forall i :: 0 <= i < |entries| ==> r[i] == UserItem(userId, entries[i].item.id, entries[i].amount, entries[i].unit)
    decreases |entries|
  {
    if entries == [] then []
    else RowsOf(userId, entries[..|entries| - 1]) + [UserItem(userId, entries[|entries| - 1].item.id, entries[|entries| - 1].amount, entries[|entries| - 1].unit)]
  }

  /** One more entry is one more upsert. */
  lemma UpsertAllStep(rows: seq<UserItem>, userId: nat, done: seq<Entry>, e: Entry)
    ensures UpsertAll(rows, RowsOf(userId, done + [e])) == Upsert(UpsertAll(rows, RowsOf(userId, done)), UserItem(userId, e.item.id, e.amount, e.unit))
  {
    assert RowsOf(userId, done + [e])[..|done|] == RowsOf(userId, done);
  }

  /** One more entry is one more insert-if-absent. */
  lemma InsertAllStep(rows: seq<UserItem>, userId: nat, done: seq<Entry>, e: Entry)
    ensures InsertAllIfAbsent(rows, RowsOf(userId, done + [e])) == InsertIfAbsent(InsertAllIfAbsent(rows, RowsOf(userId, done)), UserItem(userId, e.item.id, e.amount, e.unit))
  {
    assert RowsOf(userId, done + [e])[..|done|] == RowsOf(userId, done);
  }

  // ---------------------------------------------------------------------
  // Items created on the fly

  /** Items from position n on were created by DetectUserItems: named after a detection no earlier item had, no image, no provider id. */
  ghost predicate DetectedFresh(items: seq<Item>, n: nat)
  {
    forall i :: n <= i < |items| ==> items[i].image == "" && items[i].spoonacularId == 0 && ItemByName(items[..i], items[i].name).None?
  }

  /** An item created for a name no earlier item carries extends the created items by one. */
  lemma DetectedFreshOne(items: seq<Item>, item: Item)
    requires item.image == "" && item.spoonacularId == 0 && ItemByName(items, item.name).None?
    ensures DetectedFresh(items + [item], |items|)
  {
    assert (items + [item])[..|items|] == items;
  }

  /** The names of the detections, in order. */
  function DetectionNames(detected: seq<Detection>): (r: seq<string>)
    ensures |r| == |detected| && forall j :: 0 <= j < |detected| ==> r[j] == detected[j].name
  {
    seq(|detected|, j requires 0 <= j < |detected| => detected[j].name)
  }

  /** The items appended after `items0` number at most `count`, and each is named after one of `names`. */
  ghost predicate NamedAfter(items0: seq<Item>, items: seq<Item>, names: seq<string>, count: nat)
  {
    && |items| <= |items0| + count
    && forall i :: |items0| <= i < |items| ==> items[i].name in names
  }

  /** One more step that appends at most one item, named after one of `names`. */
  lemma NamedAfterStep(items0: seq<Item>, items1: seq<Item>, items: seq<Item>, names: seq<string>, count: nat, name: string)
    requires |items0| <= |items1| && items1 <= items && |items| <= |items1| + 1
    requires NamedAfter(items0, items1, names, count) && name in names
    requires |items1| < |items| ==> items[|items1|].name == name
    ensures NamedAfter(items0, items, names, count + 1)
  {
    forall i | |items0| <= i < |items| ensures items[i].name in names {
      if i < |items1| {
        assert items[i] == items1[i];
      }
    }
  }

  /** Items from position n on were created by PredictUserItems: named after a class no earlier item's name contained. */
  ghost predicate PredictedFresh(items: seq<Item>, n: nat)
  {
    forall i :: n <= i < |items| ==> items[i].image == "" && items[i].spoonacularId == 0 && ItemLike(items[..i], Text.ContainsPattern(items[i].name)).None?
  }

  /** The entries `done` answer the first detections: each with the item named as detected, and the detected amount and unit. */
  ghost predicate Resolved(items: seq<Item>, detected: seq<Detection>, done: seq<Entry>)
  {
    |done| <= |detected| &&
    forall j :: 0 <= j < |done| ==>
      ItemByName(items, detected[j].name) == Some(done[j].item) && done[j].amount == detected[j].amount && done[j].unit == detected[j].unit
  }

  /** Appending items keeps every resolved entry resolved. */
  lemma ResolvedStable(items0: seq<Item>, items: seq<Item>, detected: seq<Detection>, done: seq<Entry>)
    requires items0 <= items && Resolved(items0, detected, done)
    ensures Resolved(items, detected, done)
  {
    assert items0 + items[|items0|..] == items;
    forall j | 0 <= j < |done| ensures ItemByName(items, detected[j].name) == Some(done[j].item) {
      FirstStable(items0, items[|items0|..], (it: Item) => it.name == detected[j].name);
    }
  }

  /** The next detection's entry extends the resolved ones. */
  lemma ResolvedExtends(items0: seq<Item>, items: seq<Item>, detected: seq<Detection>, done: seq<Entry>, e: Entry)
    requires items0 <= items && Resolved(items0, detected, done) && |done| < |detected|
    requires ItemByName(items, detected[|done|].name) == Some(e.item) && e.amount == detected[|done|].amount && e.unit == detected[|done|].unit
    ensures Resolved(items, detected, done + [e])
  {
    ResolvedStable(items0, items, detected, done);
  }

  /** The non-empty classes, in order: the ones PredictUserItems handles. */
  function NonEmpty(classes: seq<string>): (r: seq<string>)
    ensures |r| <= |classes|
    ensures forall c :: c in r ==> c != "" && c in classes
    decreases |classes|
  {
    if classes == [] then []
    else
      var init := NonEmpty(classes[..|classes| - 1]);
      if classes[|classes| - 1] == "" then init else init + [classes[|classes| - 1]]
  }

  /**
    The entries `done` answer the non-empty classes `handled`, in order: zero
    amount, empty unit, and a stored item whose name matches the class
    pattern or is the class itself.
   */
  ghost predicate Predicted(items: seq<Item>, handled: seq<string>, done: seq<Entry>)
  {
    |done| == |handled| &&
    forall j :: 0 <= j < |done| ==>
      && done[j].amount == 0.0 && done[j].unit == "" && done[j].item in items
      && (Text.Like(done[j].item.name, Text.ContainsPattern(handled[j])) || done[j].item.name == handled[j])
  }

  /** The classes up to k + 1 add the k-th one when it is non-empty. */
  lemma NonEmptyStep(classes: seq<string>, k: nat)
    requires k < |classes|
    ensures NonEmpty(classes[..k + 1]) == if classes[k] == "" then NonEmpty(classes[..k]) else NonEmpty(classes[..k]) + [classes[k]]
  {
    assert classes[..k + 1][..k] == classes[..k];
  }

  /** Appending items keeps every predicted entry's item stored. */
  lemma PredictedStable(items0: seq<Item>, items: seq<Item>, handled: seq<string>, done: seq<Entry>)
    requires items0 <= items && Predicted(items0, handled, done)
    ensures Predicted(items, handled, done)
  {
    assert forall x :: x in items0 ==> x in items;
  }

  lemma PredictedExtends(items0: seq<Item>, items: seq<Item>, handled: seq<string>, done: seq<Entry>, cls: string, e: Entry)
    requires items0 <= items && Predicted(items0, handled, done)
    requires e.amount == 0.0 && e.unit == "" && e.item in items
    requires Text.Like(e.item.name, Text.ContainsPattern(cls)) || e.item.name == cls
    ensures Predicted(items, handled + [cls], done + [e])
  {
    assert forall x :: x in items0 ==> x in items;
  }

  /** Freshness from position n carries over a step that appends fresh items. */
  lemma DetectedFreshExtends(items0: seq<Item>, items: seq<Item>, n: nat)
    requires items0 <= items && n <= |items0|
    requires DetectedFresh(items0, n) && DetectedFresh(items, |items0|)
    ensures DetectedFresh(items, n)
  {
    forall i | n <= i < |items0| ensures items[..i] == items0[..i] {
    }
  }

  lemma PredictedFreshExtends(items0: seq<Item>, items: seq<Item>, n: nat)
    requires items0 <= items && n <= |items0|
    requires PredictedFresh(items0, n) && PredictedFresh(items, |items0|)
    ensures PredictedFresh(items, n)
  {
    forall i | n <= i < |items0| ensures items[..i] == items0[..i] {
    }
  }

  /** `Where("id = ? AND name LIKE ?", id, pattern).First(&item)`. */
  function ItemMatching(items: seq<Item>, id: nat, pattern: string): Option<Item>
  {
    First(items, (it: Item) => it.id == id && Text.Like(it.name, pattern))
  }

  /** The rows of one user, in store order. */
  function RowsOfUser(rows: seq<UserItem>, userId: nat): (r: seq<UserItem>)
    ensures forall row :: row in r <==> row in rows && row.userId == userId
    decreases |rows|
  {
    if rows == [] then []
    else
      var init := RowsOfUser(rows[..|rows| - 1], userId);
      var last := rows[|rows| - 1];
      assert rows == rows[..|rows| - 1] + [last];
      if last.userId == userId then init + [last] else init
  }

  /** What SearchUserItems reports for `rows`: each row whose item matches, with the row's amount and unit. */
  function Matching(rows: seq<UserItem>, items: seq<Item>, pattern: string): (r: seq<Entry>)
    ensures |r| <= |rows|
    decreases |rows|
  {
    if rows == [] then []
    else
      var init := Matching(rows[..|rows| - 1], items, pattern);
      var last := rows[|rows| - 1];
      match ItemMatching(items, last.itemId, pattern)
      case Some(it) => init + [Entry(it, last.amount, last.unit)]
      case None => init
  }

  /**
    For a query free of LIKE wildcards every reported entry is sound: its
    item's name contains the query, and it carries the amount and unit of a
    row for that item.
   */
  lemma {:induction false} SearchSound(rows: seq<UserItem>, items: seq<Item>, q: string)
    requires Text.WildcardFree(q)
    ensures forall e :: e in Matching(rows, items, Text.ContainsPattern(q)) ==>
      Text.Contains(e.item.name, q) && e.item in items && exists row :: row in rows && row.itemId == e.item.id && row.amount == e.amount && row.unit == e.unit
    decreases |rows|
  {
    var pat := Text.ContainsPattern(q);
    if rows != [] {
      var init := rows[..|rows| - 1];
      var last := rows[|rows| - 1];
      assert rows == init + [last];
      SearchSound(init, items, q);
      forall e | e in Matching(rows, items, pat)
        ensures Text.Contains(e.item.name, q) && e.item in items && exists row :: row in rows && row.itemId == e.item.id && row.amount == e.amount && row.unit == e.unit
      {
        if e !in Matching(init, items, pat) {
          var it := ItemMatching(items, last.itemId, pat).value;
          assert e == Entry(it, last.amount, last.unit);
          Text.LikeContains(it.name, q);
          assert last in rows;
        } else {
          var row :| row in init && row.itemId == e.item.id && row.amount == e.amount && row.unit == e.unit;
          assert row in rows;
        }
      }
    }
  }

  /**
    For a query free of LIKE wildcards the search is complete: every row
    whose item's name contains the query is reported with its amount and
    unit.
   */
  lemma {:induction false} SearchComplete(rows: seq<UserItem>, items: seq<Item>, q: string)
    requires Text.WildcardFree(q)
    ensures forall row :: row in rows && ItemById(items, row.itemId).Some? && Text.Contains(ItemById(items, row.itemId).value.name, q) ==>
      exists e :: e in Matching(rows, items, Text.ContainsPattern(q)) && e.item.id == row.itemId && e.amount == row.amount && e.unit == row.unit
    decreases |rows|
  {
    var pat := Text.ContainsPattern(q);
    if rows != [] {
      var init := rows[..|rows| - 1];
      var last := rows[|rows| - 1];
      assert rows == init + [last];
      SearchComplete(init, items, q);
      var m := Matching(rows, items, pat);
      forall row | row in rows && ItemById(items, row.itemId).Some? && Text.Contains(ItemById(items, row.itemId).value.name, q)
        ensures exists e :: e in m && e.item.id == row.itemId && e.amount == row.amount && e.unit == row.unit
      {
        if row in init {
          var e :| e in Matching(init, items, pat) && e.item.id == row.itemId && e.amount == row.amount && e.unit == row.unit;
          assert e in m;
        } else {
          assert row == last;
          var it := ItemById(items, row.itemId).value;
          Text.LikeContains(it.name, q);
          var i :| 0 <= i < |items| && items[i] == it;
          FirstIsEarliest(items, (x: Item) => x.id == row.itemId && Text.Like(x.name, pat), i);
          var e := Entry(ItemMatching(items, row.itemId, pat).value, row.amount, row.unit);
          assert e in m;
        }
      }
    }
  }

  class UserItemRepository {
    const db: Store
    /** The enrichment queue; the repository may be built without one. */
    const queue: ItemQueueRepository?

    constructor(db: Store, queue: ItemQueueRepository?)
      ensures this.db == db && this.queue == queue
    {
      this.db := db;
      this.queue := queue;
    }

    /**
      The item of one detection: the first item with exactly that name, or
      else a new item (no image, provider id 0) that is enqueued when a
      queue is configured; a failed enqueue is only logged. A lookup error
      other than "not found" aborts.
     */
    method ResolveDetected(k: nat, name: string, now: Instant, faults: DetectFaults) returns (r: Result<Item>)
      requires db.Valid()
      modifies db, queue
      ensures db.Valid()
      ensures db.recipes == old(db.recipes) && db.userItems == old(db.userItems)
      ensures old(db.items) <= db.items && |db.items| <= |old(db.items)| + 1
      ensures DetectedFresh(db.items, |old(db.items)|)
      ensures queue != null ==>
        queue.credits == old(queue.credits) && queue.queue == EnqueuedAll(old(queue.queue), db.items[|old(db.items)|..], now, faults.enqueueFails)
      ensures r.Ok? ==> ItemByName(db.items, name) == Some(r.value)
      ensures |old(db.items)| < |db.items| ==> db.items[|old(db.items)|].name == name
      ensures r.Err? ==> faults.itemLookupFails(k) || faults.itemCreateFails(k)
      ensures !faults.itemLookupFails(k) && !faults.itemCreateFails(k) ==> r.Ok?
    {
      ghost var n0 := |db.items|;
      if faults.itemLookupFails(k) {
        assert db.items[n0..] == [];
        return Err("item lookup failed");
      }
      var found := ItemByName(db.items, name);
      if found.Some? {
        assert db.items[n0..] == [];
        return Ok(found.value);
      }
      r := CreateDetected(name, now, faults.itemCreateFails(k), faults.enqueueFails);
    }

    /** A detection no item is named after: create the item and enqueue it when there is a queue. */
    method CreateDetected(name: string, now: Instant, createFails: bool, enqueueFails: nat -> bool) returns (r: Result<Item>)
      requires db.Valid() && ItemByName(db.items, name).None?
      modifies db, queue
      ensures db.Valid()
      ensures db.recipes == old(db.recipes) && db.userItems == old(db.userItems)
      ensures old(db.items) <= db.items && |db.items| <= |old(db.items)| + 1
      ensures DetectedFresh(db.items, |old(db.items)|)
      ensures queue != null ==>
        queue.credits == old(queue.credits) && queue.queue == EnqueuedAll(old(queue.queue), db.items[|old(db.items)|..], now, enqueueFails)
      ensures r.Ok? ==> ItemByName(db.items, name) == Some(r.value)
      ensures |old(db.items)| < |db.items| ==> db.items[|old(db.items)|].name == name
      ensures r.Err? <==> createFails
    {
      ghost var n0 := |db.items|;
      var created := db.CreateItem(name, "", 0, createFails);
      if created.Err? {
        assert db.items[n0..] == [];
        return Err(created.error);
      }
      var item := created.value;
      FirstAppend(old(db.items), item, (it: Item) => it.name == name);
      DetectedFreshOne(old(db.items), item);
      assert db.items[n0..] == [item];
      EnqueueCreated(item, now, enqueueFails);
      r := Ok(item);
    }

    /** Enqueue a freshly created item for enrichment, unless there is no queue or the enqueue fails. */
    method EnqueueCreated(item: Item, now: Instant, enqueueFails: nat -> bool)
      modifies queue
      ensures queue != null ==>
        queue.credits == old(queue.credits) && queue.queue == EnqueuedAll(old(queue.queue), [item], now, enqueueFails)
    {
      assert [item][..0] == [];
      if queue != null && !enqueueFails(item.id) {
        var _ := queue.AddItem(NewItemRecord(item, now), false);
      }
    }

    /** One detection: resolve its item, then create or overwrite the user's pantry row with the detected amount and unit. */
    method DetectOne(k: nat, d: Detection, userId: nat, now: Instant, faults: DetectFaults) returns (r: Result<Entry>)
      requires db.Valid()
      modifies db, queue
      ensures db.Valid()
      ensures db.recipes == old(db.recipes)
      ensures old(db.items) <= db.items && |db.items| <= |old(db.items)| + 1
      ensures DetectedFresh(db.items, |old(db.items)|)
      ensures |old(db.items)| < |db.items| ==> db.items[|old(db.items)|].name == d.name
      ensures queue != null ==>
        queue.credits == old(queue.credits) && queue.queue == EnqueuedAll(old(queue.queue), db.items[|old(db.items)|..], now, faults.enqueueFails)
      ensures r.Ok? ==>
        && ItemByName(db.items, d.name) == Some(r.value.item)
        && r.value.amount == d.amount && r.value.unit == d.unit
        && db.userItems == Upsert(old(db.userItems), UserItem(userId, r.value.item.id, d.amount, d.unit))
      ensures r.Err? ==> db.userItems == old(db.userItems) && DetectFaulted(faults, k)
      ensures !DetectFaulted(faults, k) ==> r.Ok?
    {
      var resolved := ResolveDetected(k, d.name, now, faults);
      if resolved.Err? {
        return Err(resolved.error);
      }
      var item := resolved.value;
      if faults.rowLookupFails(k) {
        return Err("pantry lookup failed");
      }
      var row := UserItem(userId, item.id, d.amount, d.unit);
      var written: Outcome;
      if UserItemRow(db.userItems, userId, item.id).None? {
        written := db.CreateUserItem(row, faults.rowWriteFails(k));
      } else {
        written := db.SaveUserItem(row, faults.rowWriteFails(k));
      }
      if written.Fail? {
        return Err(written.error);
      }
      r := Ok(Entry(item, d.amount, d.unit));
    }

    /**
      What DetectUserItems keeps between detections: items only appended,
      each new one fresh and enqueued unless its enqueue fails, the rows of
      the entries `done` upserted over `rows0`, and those entries resolved.
     */
    ghost predicate DetectProgress(items0: seq<Item>, recipes0: seq<Recipe>, rows0: seq<UserItem>, q0: map<Member, int>,
                                   credits0: Option<Counter>, detected: seq<Detection>, done: seq<Entry>,
                                   userId: nat, now: Instant, enqueueFails: nat -> bool)
      reads this, db, queue
    {
      && db.Valid() && db.recipes == recipes0
      && items0 <= db.items && DetectedFresh(db.items, |items0|)
      && (queue != null ==> queue.credits == credits0 && queue.queue == EnqueuedAll(q0, db.items[|items0|..], now, enqueueFails))
      && db.userItems == UpsertAll(rows0, RowsOf(userId, done))
      && Resolved(db.items, detected, done)
    }

    /** The k-th detection, keeping DetectProgress with one more entry, or with the same ones on a fault. */
    method DetectStep(k: nat, detected: seq<Detection>, userId: nat, now: Instant, faults: DetectFaults,
                      ghost items0: seq<Item>, ghost recipes0: seq<Recipe>, ghost rows0: seq<UserItem>,
                      ghost q0: map<Member, int>, ghost credits0: Option<Counter>, ghost done: seq<Entry>)
      returns (e: Result<Entry>)
      requires k == |done| < |detected|
      requires DetectProgress(items0, recipes0, rows0, q0, credits0, detected, done, userId, now, faults.enqueueFails)
      requires NamedAfter(items0, db.items, DetectionNames(detected), k)
      modifies db, queue
      ensures NamedAfter(items0, db.items, DetectionNames(detected), k + 1)
      ensures e.Ok? ==> DetectProgress(items0, recipes0, rows0, q0, credits0, detected, done + [e.value], userId, now, faults.enqueueFails)
      ensures e.Err? ==> DetectProgress(items0, recipes0, rows0, q0, credits0, detected, done, userId, now, faults.enqueueFails)
      ensures e.Err? ==> DetectFaulted(faults, k)
      ensures !DetectFaulted(faults, k) ==> e.Ok?
    {
      ghost var n0 := |items0|;
      ghost var items1 := db.items;
      e := DetectOne(k, detected[k], userId, now, faults);
      assert DetectionNames(detected)[k] == detected[k].name;
      NamedAfterStep(items0, items1, db.items, DetectionNames(detected), k, detected[k].name);
      DetectedFreshExtends(items1, db.items, n0);
      AppendedSince(items1, db.items, n0);
      if queue != null {
        EnqueuedAllAppend(q0, items1[n0..], db.items[|items1|..], now, faults.enqueueFails);
      }
      if e.Err? {
        ResolvedStable(items1, db.items, detected, done);
      } else {
        ResolvedExtends(items1, db.items, detected, done, e.value);
        UpsertAllStep(rows0, userId, done, e.value);
      }
    }

    /**
      DetectUserItems after the model call: one entry per detection, in
      order. Any store fault aborts the call, keeping the rows written for
      the entries before it; `done` are the entries handled in full.
     */
    method DetectUserItems(detected: seq<Detection>, userId: nat, now: Instant, faults: DetectFaults)
      returns (r: Result<seq<Entry>>, ghost done: seq<Entry>)
      requires db.Valid()
      modifies db, queue
      ensures db.Valid()
      ensures db.recipes == old(db.recipes)
      ensures old(db.items) <= db.items && DetectedFresh(db.items, |old(db.items)|)
      ensures queue != null ==>
        queue.credits == old(queue.credits) && queue.queue == EnqueuedAll(old(queue.queue), db.items[|old(db.items)|..], now, faults.enqueueFails)
      ensures db.userItems == UpsertAll(old(db.userItems), RowsOf(userId, done))
      ensures Resolved(db.items, detected, done)
      ensures r.Ok? ==> r.value == done && |done| == |detected|
      ensures r.Err? ==> |done| < |detected| && DetectFaulted(faults, |done|)
      ensures (forall k :: 0 <= k < |detected| ==> !DetectFaulted(faults, k)) ==> r.Ok?
      ensures NamedAfter(old(db.items), db.items, DetectionNames(detected), |detected|)
    {
      done := [];
      var entries: seq<Entry> := [];
      ghost var items0, recipes0, rows0 := db.items, db.recipes, db.userItems;
      ghost var q0 := if queue != null then queue.queue else map[];
      ghost var credits0 := if queue != null then queue.credits else None;
      assert db.items[|items0|..] == [];
      var k := 0;
      while k < |detected|
        invariant 0 <= k <= |detected| && entries == done && |done| == k
        invariant DetectProgress(items0, recipes0, rows0, q0, credits0, detected, done, userId, now, faults.enqueueFails)
        invariant NamedAfter(items0, db.items, DetectionNames(detected), k)
      {
        var e := DetectStep(k, detected, userId, now, faults, items0, recipes0, rows0, q0, credits0, done);
        if e.Err? {
          return Err(e.error), done;
        }
        done := done + [e.value];
        entries := entries + [e.value];
        k := k + 1;
      }
      r := Ok(entries);
    }

    /**
      The item for one class of PredictUserItems: the first item whose name
      matches "%" + class + "%", or else a new item named after the class.
     */
    method ResolvePredicted(k: nat, cls: string, faults: PredictFaults) returns (r: Result<Item>)
      requires db.Valid()
      modifies db
      ensures db.Valid()
      ensures db.recipes == old(db.recipes) && db.userItems == old(db.userItems)
      ensures old(db.items) <= db.items && |db.items| <= |old(db.items)| + 1
      ensures PredictedFresh(db.items, |old(db.items)|)
      ensures |old(db.items)| < |db.items| ==> db.items[|old(db.items)|].name == cls
      ensures r.Ok? ==>
        && r.value in db.items
        && (if ItemLike(old(db.items), Text.ContainsPattern(cls)).Some?
            then r.value == ItemLike(old(db.items), Text.ContainsPattern(cls)).value
            else r.value.name == cls)
      ensures r.Err? <==> ItemLike(old(db.items), Text.ContainsPattern(cls)).None? && faults.itemCreateFails(k)
    {
      ghost var n0 := |db.items|;
      var found := ItemLike(db.items, Text.ContainsPattern(cls));
      if found.Some? {
        return Ok(found.value);
      }
      var created := db.CreateItem(cls, "", 0, faults.itemCreateFails(k));
      if created.Err? {
        return Err(created.error);
      }
      assert db.items[..n0] == old(db.items);
      r := Ok(created.value);
    }

    /**
      One class of PredictUserItems: resolve its item, then a pantry row
      with zero amount and no unit unless one exists. A failed row lookup
      reads as "absent", and the insert then violates the key of an
      existing row.
     */
    method PredictOne(k: nat, cls: string, userId: nat, faults: PredictFaults) returns (r: Result<Entry>)
      requires db.Valid()
      modifies db
      ensures db.Valid()
      ensures db.recipes == old(db.recipes)
      ensures old(db.items) <= db.items && |db.items| <= |old(db.items)| + 1
      ensures PredictedFresh(db.items, |old(db.items)|)
      ensures |old(db.items)| < |db.items| ==> db.items[|old(db.items)|].name == cls
      ensures r.Ok? ==>
        && r.value.amount == 0.0 && r.value.unit == ""
        && r.value.item in db.items
        && (if ItemLike(old(db.items), Text.ContainsPattern(cls)).Some?
            then r.value.item == ItemLike(old(db.items), Text.ContainsPattern(cls)).value
            else r.value.item.name == cls)
        && db.userItems == InsertIfAbsent(old(db.userItems), UserItem(userId, r.value.item.id, 0.0, ""))
      ensures r.Err? ==> db.userItems == old(db.userItems) && PredictFaulted(faults, k)
      ensures !PredictFaulted(faults, k) ==> r.Ok?
    {
      var resolved := ResolvePredicted(k, cls, faults);
      if resolved.Err? {
        return Err(resolved.error);
      }
      var item := resolved.value;
      var row := UserItem(userId, item.id, 0.0, "");
      if faults.rowLookupFails(k) || UserItemRow(db.userItems, userId, item.id).None? {
        var written := db.CreateUserItem(row, faults.rowWriteFails(k));
        if written.Fail? {
          return Err(written.error);
        }
      }
      r := Ok(Entry(item, 0.0, ""));
    }

    /**
      What PredictUserItems keeps between classes: items only appended, each
      new one fresh, the rows of the entries `done` inserted over `rows0`
      unless present, and those entries predicted for the non-empty classes
      among the first `k`.
     */
    ghost predicate PredictProgress(items0: seq<Item>, recipes0: seq<Recipe>, rows0: seq<UserItem>,
                                    classes: seq<string>, k: nat, done: seq<Entry>, userId: nat)
      reads this, db
      requires k <= |classes|
    {
      && db.Valid() && db.recipes == recipes0
      && items0 <= db.items && PredictedFresh(db.items, |items0|)
      && db.userItems == InsertAllIfAbsent(rows0, RowsOf(userId, done))
      && Predicted(db.items, NonEmpty(classes[..k]), done)
    }

    /** An empty class is skipped: PredictProgress holds for one more class with the same entries. */
    lemma PredictSkip(items0: seq<Item>, recipes0: seq<Recipe>, rows0: seq<UserItem>,
                      classes: seq<string>, k: nat, done: seq<Entry>, userId: nat)
      requires k < |classes| && classes[k] == ""
      requires PredictProgress(items0, recipes0, rows0, classes, k, done, userId)
      ensures PredictProgress(items0, recipes0, rows0, classes, k + 1, done, userId)
    {
      NonEmptyStep(classes, k);
    }

    /** The k-th (non-empty) class, keeping PredictProgress with one more entry, or with the same ones on a fault. */
    method PredictStep(k: nat, classes: seq<string>, userId: nat, faults: PredictFaults,
                       ghost items0: seq<Item>, ghost recipes0: seq<Recipe>, ghost rows0: seq<UserItem>, ghost done: seq<Entry>)
      returns (e: Result<Entry>)
      requires k < |classes| && classes[k] != ""
      requires PredictProgress(items0, recipes0, rows0, classes, k, done, userId)
      requires NamedAfter(items0, db.items, classes, k)
      modifies db
      ensures NamedAfter(items0, db.items, classes, k + 1)
      ensures e.Ok? ==> PredictProgress(items0, recipes0, rows0, classes, k + 1, done + [e.value], userId)
      ensures e.Err? ==> PredictProgress(items0, recipes0, rows0, classes, k, done, userId) && PredictFaulted(faults, k)
      ensures !PredictFaulted(faults, k) ==> e.Ok?
    {
      ghost var items1 := db.items;
      NonEmptyStep(classes, k);
      e := PredictOne(k, classes[k], userId, faults);
      NamedAfterStep(items0, items1, db.items, classes, k, classes[k]);
      PredictedFreshExtends(items1, db.items, |items0|);
      if e.Err? {
        PredictedStable(items1, db.items, NonEmpty(classes[..k]), done);
      } else {
        PredictedExtends(items1, db.items, NonEmpty(classes[..k]), done, classes[k], e.value);
        InsertAllStep(rows0, userId, done, e.value);
      }
    }

    /**
      PredictUserItems: every non-empty class, in order, gives one entry
      with zero amount and an empty unit; no item is enqueued (the method
      does not touch the queue). A store fault aborts the call after
      `handled` classes, keeping what was written before it.
     */
    method PredictUserItems(classes: seq<string>, userId: nat, faults: PredictFaults)
      returns (r: Result<seq<Entry>>, ghost done: seq<Entry>, ghost handled: nat)
      requires db.Valid()
      modifies db
      ensures db.Valid()
      ensures db.recipes == old(db.recipes)
      ensures old(db.items) <= db.items && PredictedFresh(db.items, |old(db.items)|)
      ensures db.userItems == InsertAllIfAbsent(old(db.userItems), RowsOf(userId, done))
      ensures handled <= |classes|
      ensures Predicted(db.items, NonEmpty(classes[..handled]), done)
      ensures r.Ok? ==> r.value == done && handled == |classes|
      ensures r.Err? ==> handled < |classes| && PredictFaulted(faults, handled)
      ensures (forall k :: 0 <= k < |classes| ==> !PredictFaulted(faults, k)) ==> r.Ok?
      ensures NamedAfter(old(db.items), db.items, classes, |classes|)
    {
      done, handled := [], 0;
      var entries: seq<Entry> := [];
      ghost var items0, recipes0, rows0 := db.items, db.recipes, db.userItems;
      var k := 0;
      while k < |classes|
        invariant 0 <= k <= |classes| && handled == k && entries == done
        invariant PredictProgress(items0, recipes0, rows0, classes, k, done, userId)
        invariant NamedAfter(items0, db.items, classes, k)
      {
        if classes[k] == "" {
          PredictSkip(items0, recipes0, rows0, classes, k, done, userId);
          k, handled := k + 1, handled + 1;
          continue;
        }
        var e := PredictStep(k, classes, userId, faults, items0, recipes0, rows0, done);
        if e.Err? {
          return Err(e.error), done, handled;
        }
        done := done + [e.value];
        entries := entries + [e.value];
        k, handled := k + 1, handled + 1;
      }
      r := Ok(entries);
    }

    /**
      SearchUserItems: the user's rows, in store order, each reported with
      its item when that item's name matches "%" + query + "%"; a row whose
      item does not match is skipped, not an error. Only the read of the
      rows can fail.
     */
    method SearchUserItems(query: string, userId: nat, readFails: bool) returns (r: Result<seq<Entry>>)
      ensures readFails ==> r.Err?
      ensures !readFails ==> r == Ok(Matching(RowsOfUser(db.userItems, userId), db.items, Text.ContainsPattern(query)))
    {
      var pattern := Text.ContainsPattern(query);
      if readFails {
        return Err("read of user_items failed");
      }
      var rows := RowsOfUser(db.userItems, userId);
      var entries: seq<Entry> := [];
      var i := 0;
      while i < |rows|
        invariant 0 <= i <= |rows|
        invariant entries == Matching(rows[..i], db.items, pattern)
      {
        assert rows[..i + 1][..i] == rows[..i];
        var item := ItemMatching(db.items, rows[i].itemId, pattern);
        i := i + 1;
        if item.None? {
          continue;
        }
        entries := entries + [Entry(item.value, rows[i - 1].amount, rows[i - 1].unit)];
      }
      assert rows[..i] == rows;
      r := Ok(entries);
    }

    /**
      UpdateUserItem: an absent (item, user) row is an error; otherwise only
      its amount and unit change. The item is read after the write, so a
      missing item reports an error after the row was already updated.
      `lookupFails` is a failed row query other than absence, `saveFails` a
      failed write and `itemReadFails` a failed item query other than absence.
     */
    method UpdateUserItem(amount: real, unit: string, itemId: nat, userId: nat,
                          lookupFails: bool, saveFails: bool, itemReadFails: bool) returns (r: Result<Entry>)
      requires db.Valid()
      modifies db
      ensures db.Valid()
      ensures db.items == old(db.items) && db.recipes == old(db.recipes)
      ensures lookupFails ==> r.Err? && db.userItems == old(db.userItems)
      ensures UserItemRow(old(db.userItems), userId, itemId).None? ==>
        r.Err? && db.userItems == old(db.userItems)
      ensures !lookupFails && UserItemRow(old(db.userItems), userId, itemId).None? ==> r == Err("record not found")
      ensures saveFails ==> r.Err? && db.userItems == old(db.userItems)
      ensures !lookupFails && UserItemRow(old(db.userItems), userId, itemId).Some? && !saveFails ==>
        && db.userItems == SetAmount(old(db.userItems), userId, itemId, amount, unit)
        && UserItemRow(db.userItems, userId, itemId) == Some(UserItem(userId, itemId, amount, unit))
        && (r.Ok? <==> !itemReadFails && ItemById(db.items, itemId).Some?)
        && (r.Ok? ==> r.value == Entry(ItemById(db.items, itemId).value, amount, unit))
    {
      if lookupFails {
        return Err("user item query failed");
      }
      var row := UserItemRow(db.userItems, userId, itemId);
      if row.None? {
        return Err("record not found");
      }
      var updated := row.value.(amount := amount, unit := unit);
      SetAmountReadBack(db.userItems, userId, itemId, amount, unit);
      var saved := db.SaveUserItem(updated, saveFails);
      if saved.Fail? {
        return Err(saved.error);
      }
      if itemReadFails {
        return Err("item query failed");
      }
      var item := ItemById(db.items, itemId);
      if item.None? {
        return Err("record not found");
      }
      r := Ok(Entry(item.value, amount, unit));
    }
  }
}
