/**
 Marking articles as read in batches of two set-based writes each: create the missing
 states, then update all of them. A worker may stop between any two writes.
 */
module ReadBatches {
  import opened Wrappers

  type User = string
  type Article = string
  type Time = int

  datatype State = State(
    isRead: bool,
    readAt: Option<Time>,
    isStarred: bool,
    starredAt: Option<Time>,
    archivedAt: Option<Time>)

  type Table = map<(User, Article), State>

  datatype Write =
    | CreateMany(user: User, ids: seq<Article>, readAt: Time)
    | UpdateMany(user: User, ids: seq<Article>, readAt: Time)

  function Created(readAt: Time): State {
    State(true, Some(readAt), false, None, None)
  }

  function Marked(s: State, readAt: Time): State {
    s.(isRead := true, readAt := Some(readAt))
  }

  function Keys(user: User, ids: set<Article>): set<(User, Article)> {
    set id | id in ids :: (user, id)
  }

  function IdSet(ids: seq<Article>): set<Article> {
    set id | id in ids
  }

  /** One statement of the database; existing rows are skipped by a create. */
  function Apply(t: Table, w: Write): Table {
    match w
    case CreateMany(user, ids, readAt) =>
      map k | k in t.Keys + Keys(user, IdSet(ids)) :: if k in t then t[k] else Created(readAt)
    case UpdateMany(user, ids, readAt) =>
      map k | k in t :: if k in Keys(user, IdSet(ids)) then Marked(t[k], readAt) else t[k]
  }

  function ApplyAll(t: Table, ws: seq<Write>): Table
    decreases |ws|
  {
    if ws == [] then t else ApplyAll(Apply(t, ws[0]), ws[1..])
  }

  /** The simple specification: all requested rows of the user at once, nothing else. */
  function MarkAll(t: Table, user: User, ids: set<Article>, readAt: Time): Table {
    map k | k in t.Keys + Keys(user, ids) ::
      if k !in Keys(user, ids) then t[k]
      else if k in t then Marked(t[k], readAt)
      else Created(readAt)
  }

  // ---------- The batches ----------

  /** Where an id occurs first. */
  function FirstIndex(ids: seq<Article>, id: Article): (k: nat)
    requires id in ids
    ensures k < |ids| && ids[k] == id && id !in ids[..k]
  {
    if ids[0] == id then 0
    else
      var k := FirstIndex(ids[1..], id);
      assert ids[..k + 1] == [ids[0]] + ids[1..][..k];
      k + 1
  }

  /** More ids behind do not move a first occurrence. */
  lemma {:induction false} FirstIndexStays(ids: seq<Article>, last: Article, id: Article)
    requires id in ids
    ensures FirstIndex(ids + [last], id) == FirstIndex(ids, id)
  {
    if ids[0] != id {
      FirstIndexStays(ids[1..], last, id);
      assert (ids + [last])[1..] == ids[1..] + [last];
    }
  }

  predicate InFirstOrder(ids: seq<Article>, r: seq<Article>)
    requires forall i :: 0 <= i < |r| ==> r[i] in ids
  {
    forall i, j :: 0 <= i < j < |r| ==> FirstIndex(ids, r[i]) < FirstIndex(ids, r[j])
  }

  /** The requested ids as a JavaScript Set iterates them: each once, by first occurrence. */
  function Unique(ids: seq<Article>): (r: seq<Article>)
    ensures IdSet(r) == IdSet(ids)
    ensures forall i, j :: 0 <= i < j < |r| ==> r[i] != r[j]
    ensures (forall i :: 0 <= i < |r| ==> r[i] in ids) && InFirstOrder(ids, r)
  {
    if ids == [] then []
    else
      var rest, last := Unique(ids[..|ids| - 1]), ids[|ids| - 1];
      UniqueStep(ids, rest);
      if last in rest then rest else rest + [last]
  }

  lemma UniqueStep(ids: seq<Article>, rest: seq<Article>)
    requires ids != [] && IdSet(rest) == IdSet(ids[..|ids| - 1])
    requires forall i :: 0 <= i < |rest| ==> rest[i] in ids[..|ids| - 1]
    requires InFirstOrder(ids[..|ids| - 1], rest)
    ensures var last := ids[|ids| - 1];
      var r := if last in rest then rest else rest + [last];
      IdSet(r) == IdSet(ids) && (forall i :: 0 <= i < |r| ==> r[i] in ids) && InFirstOrder(ids, r)
  {
    var front, last := ids[..|ids| - 1], ids[|ids| - 1];
    assert ids == front + [last];
    assert IdSet(ids) == IdSet(front) + {last};
    assert last in IdSet(rest) <==> last in rest;
    forall i | 0 <= i < |rest|
      ensures rest[i] in ids && FirstIndex(ids, rest[i]) == FirstIndex(front, rest[i]) < |front|
    {
      FirstIndexStays(front, last, rest[i]);
    }
    if last !in rest {
      assert last !in IdSet(front);
      assert FirstIndex(ids, last) == |front|;
    }
  }

  /** `Math.max(1, Math.floor(batchSize))`: the batch size without its fraction, at least one. */
  function BoundedSize(batchSize: real): (b: nat)
    ensures b >= 1
    ensures batchSize >= 1.0 ==> b as real <= batchSize < b as real + 1.0
    ensures batchSize < 1.0 ==> b == 1
  {
    if batchSize.Floor < 1 then 1 else batchSize.Floor
  }

  function Writes(ids: seq<Article>, size: nat, user: User, readAt: Time): seq<Write>
    requires size >= 1
    decreases |ids|
  {
    if ids == [] then []
    else
      var n := if size < |ids| then size else |ids|;
      [CreateMany(user, ids[..n], readAt), UpdateMany(user, ids[..n], readAt)] + Writes(ids[n..], size, user, readAt)
  }

  class Store {
    var table: Table
    /** Every statement executed so far. */
    var writes: seq<Write>

    constructor (table: Table)
      ensures this.table == table && writes == []
    {
      this.table := table;
      writes := [];
    }

    method Execute(w: Write)
      modifies this
      ensures table == Apply(old(table), w) && writes == old(writes) + [w]
    {
      table := Apply(table, w);
      writes := writes + [w];
    }
  }

  /** `writeArticleReadStateBatches` on a store. */
  method WriteArticleReadStateBatches(ids: seq<Article>, batchSize: real, readAt: Time, store: Store, user: User)
    returns (markedCount: nat)
    modifies store
    ensures store.table == MarkAll(old(store.table), user, IdSet(ids), readAt)
    ensures store.writes == old(store.writes) + Writes(Unique(ids), BoundedSize(batchSize), user, readAt)
    ensures markedCount == |IdSet(ids)|
  {
    var uniqueArticleIds := Unique(ids);
    var boundedBatchSize := BoundedSize(batchSize);
    BatchesMarkAll(store.table, uniqueArticleIds, boundedBatchSize, user, readAt);
    UniqueCount(uniqueArticleIds);
    hide MarkAll, Apply, ApplyAll, Unique, Writes, IdSet;
    var index := 0;
    assert From(uniqueArticleIds, 0) == uniqueArticleIds;
    ghost var all := Writes(uniqueArticleIds, boundedBatchSize, user, readAt);
    while index < |uniqueArticleIds|
      invariant 0 <= index
      invariant store.writes + Writes(From(uniqueArticleIds, index), boundedBatchSize, user, readAt)
             == old(store.writes) + all
      invariant ApplyAll(store.table, Writes(From(uniqueArticleIds, index), boundedBatchSize, user, readAt))
             == ApplyAll(old(store.table), all)
      decreases |uniqueArticleIds| - index
    {
      var end := if index + boundedBatchSize < |uniqueArticleIds| then index + boundedBatchSize else |uniqueArticleIds|;
      var batch := uniqueArticleIds[index..end];
      BatchStep(uniqueArticleIds, index, boundedBatchSize, user, readAt, store.table, store.writes);
      store.Execute(CreateMany(user, batch, readAt));
      store.Execute(UpdateMany(user, batch, readAt));
      index := index + boundedBatchSize;
    }
    NothingLeft(store.table, store.writes, boundedBatchSize, user, readAt);
    markedCount := |uniqueArticleIds|;
  }

  /** The ids from a position that may lie past the end. */
  function From(ids: seq<Article>, index: nat): seq<Article> {
    if index < |ids| then ids[index..] else []
  }

  lemma NothingLeft(t: Table, before: seq<Write>, size: nat, user: User, readAt: Time)
    requires size >= 1
    ensures before + Writes([], size, user, readAt) == before
    ensures ApplyAll(t, Writes([], size, user, readAt)) == t
  {
  }

  /** One turn of the batch loop. */
  lemma BatchStep(ids: seq<Article>, index: nat, size: nat, user: User, readAt: Time, t: Table, before: seq<Write>)
    requires size >= 1 && index < |ids|
    ensures var end := if index + size < |ids| then index + size else |ids|;
            var c, u := CreateMany(user, ids[index..end], readAt), UpdateMany(user, ids[index..end], readAt);
            var rest := Writes(From(ids, index + size), size, user, readAt);
            && before + Writes(From(ids, index), size, user, readAt) == before + [c] + [u] + rest
            && ApplyAll(t, Writes(From(ids, index), size, user, readAt)) == ApplyAll(Apply(Apply(t, c), u), rest)
  {
    hide Apply, ApplyAll, Writes;
    var end := if index + size < |ids| then index + size else |ids|;
    assert ids[index..][..end - index] == ids[index..end];
    assert ids[index..][end - index..] == From(ids, index + size);
    WritesPeel(ids[index..], size, user, readAt, t, before);
  }

  /** The two writes of the first batch come first. */
  lemma WritesPeel(ids: seq<Article>, size: nat, user: User, readAt: Time, t: Table, before: seq<Write>)
    requires size >= 1 && ids != []
    ensures var n := if size < |ids| then size else |ids|;
            var c, u := CreateMany(user, ids[..n], readAt), UpdateMany(user, ids[..n], readAt);
            var rest := Writes(ids[n..], size, user, readAt);
            && before + Writes(ids, size, user, readAt) == before + [c] + [u] + rest
            && ApplyAll(t, Writes(ids, size, user, readAt)) == ApplyAll(Apply(Apply(t, c), u), rest)
  {
  }

  lemma {:induction false} UniqueCount(ids: seq<Article>)
    requires forall i, j :: 0 <= i < j < |ids| ==> ids[i] != ids[j]
    ensures |IdSet(ids)| == |ids|
    decreases |ids|
  {
    if ids != [] {
      var init, last := ids[..|ids| - 1], ids[|ids| - 1];
      UniqueCount(init);
      assert IdSet(ids) == IdSet(init) + {last};
      assert last !in IdSet(init);
    }
  }

  // ---------- Refinement ----------

  lemma OneBatchMarks(t: Table, user: User, ids: seq<Article>, readAt: Time)
    ensures Apply(Apply(t, CreateMany(user, ids, readAt)), UpdateMany(user, ids, readAt))
         == MarkAll(t, user, IdSet(ids), readAt)
  {
  }

  lemma MarkUnion(t: Table, user: User, a: set<Article>, b: set<Article>, readAt: Time)
    ensures MarkAll(MarkAll(t, user, a, readAt), user, b, readAt) == MarkAll(t, user, a + b, readAt)
  {
  }

  lemma {:induction false} BatchesMarkAll(t: Table, ids: seq<Article>, size: nat, user: User, readAt: Time)
    requires size >= 1
    ensures ApplyAll(t, Writes(ids, size, user, readAt)) == MarkAll(t, user, IdSet(ids), readAt)
    decreases |ids|
  {
    if ids == [] {
      assert Keys(user, IdSet(ids)) == {};
    } else {
      var n := if size < |ids| then size else |ids|;
      WritesPeel(ids, size, user, readAt, t, []);
      OneBatchMarks(t, user, ids[..n], readAt);
      BatchesMarkAll(MarkAll(t, user, IdSet(ids[..n]), readAt), ids[n..], size, user, readAt);
      MarkUnion(t, user, IdSet(ids[..n]), IdSet(ids[n..]), readAt);
      assert ids == ids[..n] + ids[n..];
      assert IdSet(ids) == IdSet(ids[..n]) + IdSet(ids[n..]);
    }
  }

  /** Two writes per started batch. */
  lemma {:induction false} WriteCount(ids: seq<Article>, size: nat, user: User, readAt: Time)
    requires size >= 1
    ensures |Writes(ids, size, user, readAt)| == 2 * ((|ids| + size - 1) / size)
    decreases |ids|
  {
    if ids == [] {
      assert (size - 1) / size == 0;
    } else if size < |ids| {
      WriteCount(ids[size..], size, user, readAt);
      CeilStep(|ids|, size);
    } else {
      assert ids[|ids|..] == [];
      CeilOne(|ids|, size);
    }
  }

  lemma CeilStep(n: nat, size: nat)
    requires 1 <= size < n
    ensures (n + size - 1) / size == (n - size + size - 1) / size + 1
  {
    var q := (n - 1) / size;
    assert n - 1 == q * size + (n - 1) % size;
    assert n + size - 1 == (q + 1) * size + (n - 1) % size;
    DivisionIs(n + size - 1, size, q + 1, (n - 1) % size);
  }

  lemma CeilOne(n: nat, size: nat)
    requires 1 <= n <= size
    ensures (n + size - 1) / size == 1
  {
  }

  lemma DivisionIs(a: int, d: nat, q: int, r: int)
    requires d >= 1 && a == q * d + r && 0 <= r < d
    ensures a / d == q
  {
    var q', r' := a / d, a % d;
    assert a == q' * d + r';
    assert (q - q') * d == r' - r;
    if q - q' >= 1 {
      ProductAtLeast(q - q', d);
    } else if q' - q >= 1 {
      ProductAtLeast(q' - q, d);
    }
  }

  lemma ProductAtLeast(k: int, d: int)
    requires 1 <= k && 1 <= d
    ensures d <= k * d
  {
  }

  /** The ids of the batch that starts at a position. */
  function BatchAt(ids: seq<Article>, start: nat, size: nat): seq<Article>
    requires start <= |ids|
  {
    if start + size < |ids| then ids[start..start + size] else ids[start..]
  }

  lemma FirstPair(ids: seq<Article>, size: nat, user: User, readAt: Time)
    requires size >= 1 && ids != []
    ensures var ws, batch := Writes(ids, size, user, readAt), BatchAt(ids, 0, size);
      && |ws| >= 2 && ws[0] == CreateMany(user, batch, readAt) && ws[1] == UpdateMany(user, batch, readAt)
      && ws[2..] == Writes(ids[|batch|..], size, user, readAt)
  {
    var n := if size < |ids| then size else |ids|;
    assert BatchAt(ids, 0, size) == ids[..n];
  }

  lemma LaterBatch(ids: seq<Article>, start: nat, size: nat)
    requires size <= start <= |ids|
    ensures BatchAt(ids[size..], start - size, size) == BatchAt(ids, start, size)
    ensures size < |ids| ==> |BatchAt(ids, 0, size)| == size
  {
  }

  /** The k-th batch is created first and then updated, with the next ids in order. */
  lemma {:induction false} WritesComeInPairs(
    ids: seq<Article>, size: nat, user: User, readAt: Time, k: nat, start: nat)
    requires size >= 1 && start == k * size && start < |ids|
    ensures var ws, batch := Writes(ids, size, user, readAt), BatchAt(ids, start, size);
      && 2 * k + 1 < |ws|
      && ws[2 * k] == CreateMany(user, batch, readAt) && ws[2 * k + 1] == UpdateMany(user, batch, readAt)
    decreases k
  {
    hide Writes, BatchAt;
    FirstPair(ids, size, user, readAt);
    if k == 0 {
      assert start == 0;
    } else {
      assert start == (k - 1) * size + size;
      ProductAtLeast(k, size);
      LaterBatch(ids, start, size);
      WritesComeInPairs(ids[size..], size, user, readAt, k - 1, start - size);
    }
  }

  // ---------- Stopping and running again ----------

  /** What any writes for some of the ids may have done to a table. */
  ghost predicate Touched(t: Table, t': Table, user: User, ids: set<Article>) {
    && t.Keys <= t'.Keys <= t.Keys + Keys(user, ids)
    && (forall k :: k in t && k !in Keys(user, ids) ==> t'[k] == t[k])
    && (forall k :: k in t && k in Keys(user, ids) ==>
          t'[k].(isRead := true, readAt := None) == t[k].(isRead := true, readAt := None))
    && (forall k :: k in t' && k !in t ==> t'[k].(readAt := None) == Created(0).(readAt := None))
  }

  predicate WriteFor(w: Write, user: User, ids: set<Article>) {
    w.user == user && IdSet(w.ids) <= ids
  }

  lemma WriteTouches(t: Table, t': Table, w: Write, user: User, ids: set<Article>)
    requires Touched(t, t', user, ids) && WriteFor(w, user, ids)
    ensures Touched(t, Apply(t', w), user, ids)
  {
  }

  lemma {:induction false} WritesTouch(t: Table, t': Table, ws: seq<Write>, user: User, ids: set<Article>)
    requires Touched(t, t', user, ids)
    requires forall i :: 0 <= i < |ws| ==> WriteFor(ws[i], user, ids)
    ensures Touched(t, ApplyAll(t', ws), user, ids)
    decreases |ws|
  {
    if ws != [] {
      WriteTouches(t, t', ws[0], user, ids);
      WritesTouch(t, Apply(t', ws[0]), ws[1..], user, ids);
    }
  }

  lemma MarkingForgetsTouches(t: Table, t': Table, user: User, ids: set<Article>, readAt: Time)
    requires Touched(t, t', user, ids)
    ensures MarkAll(t', user, ids, readAt) == MarkAll(t, user, ids, readAt)
  {
  }

  /**
   However often runs for these ids stopped, after whatever writes and at whatever times,
   a complete rerun gives the table of one uninterrupted run.
   */
  lemma RerunAfterStops(t: Table, partial: seq<Write>, ids: seq<Article>, size: nat, user: User, readAt: Time)
    requires size >= 1
    requires forall i :: 0 <= i < |partial| ==> WriteFor(partial[i], user, IdSet(ids))
    ensures ApplyAll(ApplyAll(t, partial), Writes(ids, size, user, readAt))
         == ApplyAll(t, Writes(ids, size, user, readAt))
  {
    WritesTouch(t, t, partial, user, IdSet(ids));
    BatchesMarkAll(ApplyAll(t, partial), ids, size, user, readAt);
    BatchesMarkAll(t, ids, size, user, readAt);
    MarkingForgetsTouches(t, ApplyAll(t, partial), user, IdSet(ids), readAt);
  }

  lemma {:induction false} WritesAreForIds(ids: seq<Article>, size: nat, user: User, readAt: Time)
    requires size >= 1
    ensures forall i :: 0 <= i < |Writes(ids, size, user, readAt)| ==>
              WriteFor(Writes(ids, size, user, readAt)[i], user, IdSet(ids))
    decreases |ids|
  {
    if ids != [] {
      var n := if size < |ids| then size else |ids|;
      WritesAreForIds(ids[n..], size, user, readAt);
      assert IdSet(ids[..n]) <= IdSet(ids) && IdSet(ids[n..]) <= IdSet(ids);
    }
  }

  /** Stopping one run after any of its writes and rerunning, even with other batches and a later time. */
  lemma RerunAfterOneStop(
    t: Table, ids: seq<Article>, size: nat, firstAt: Time, k: nat, size': nat, user: User, readAt: Time)
    requires size >= 1 && size' >= 1 && k <= |Writes(ids, size, user, firstAt)|
    ensures ApplyAll(ApplyAll(t, Writes(ids, size, user, firstAt)[..k]), Writes(ids, size', user, readAt))
         == MarkAll(t, user, IdSet(ids), readAt)
  {
    WritesAreForIds(ids, size, user, firstAt);
    RerunAfterStops(t, Writes(ids, size, user, firstAt)[..k], ids, size', user, readAt);
    BatchesMarkAll(t, ids, size', user, readAt);
  }

  /** Exactly the requested rows of the user become read; every other row and column stays. */
  lemma MarkAllIsExact(t: Table, user: User, ids: set<Article>, readAt: Time, u: User, a: Article)
    ensures var t' := MarkAll(t, user, ids, readAt);
            if u == user && a in ids then
              && (u, a) in t' && t'[(u, a)].isRead && t'[(u, a)].readAt == Some(readAt)
              && ((u, a) in t ==>
                    t'[(u, a)].(isRead := true, readAt := None) == t[(u, a)].(isRead := true, readAt := None))
            else ((u, a) in t' <==> (u, a) in t) && ((u, a) in t ==> t'[(u, a)] == t[(u, a)])
  {
  }
}
