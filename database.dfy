/** The document store of `Database.ts`: named collections of records, one
    id counter per collection, a per-collection registry of hydration
    functions, and a snapshot file rewritten after every mutation. File I/O
    is abstracted: the snapshot file is the ghost field `file`, and whether a
    write succeeds is a parameter of each mutation. */
module Store {
  import opened Wrappers
  import opened Filters

  type Record = Item
  type Collections = map<string, seq<Record>>
  type Counters = map<string, int>

  /** What the snapshot file holds. */
  datatype StoredFile =
    | NoFile
    | Unreadable
    | Stored(data: Collections, idCounters: Option<Counters>)

  /** `a` is `b` with some elements left out, the rest in their order. */
  predicate IsSubsequence<T(==)>(a: seq<T>, b: seq<T>)
    decreases |b|
  {
    if a == [] then true
    else if b == [] then false
    else if a[0] == b[0] then IsSubsequence(a[1..], b[1..])
    else IsSubsequence(a, b[1..])
  }

  /** `recs.filter(parseFilter(f))` when `keep`, and
      `recs.filter(x => !parseFilter(f)(x))` otherwise: every record is tested
      in order, and the first test that fails makes the whole call fail. */
  function Select(f: Filter, recs: seq<Record>, keep: bool): (r: Result<seq<Record>>)
    ensures r.Ok? <==> forall i | 0 <= i < |recs| :: Eval(f, recs[i]).Ok?
    ensures r.Ok? ==> forall x | x in r.value :: Eval(f, x) == Ok(keep)
  {
    if recs == [] then Ok([])
    else
      var head := Eval(f, recs[0]);
      if head.Err? then Err(head.error)
      else
        var rest := Select(f, recs[1..], keep);
        if rest.Err? then rest
        else if head.value == keep then Ok([recs[0]] + rest.value)
        else rest
  }

  /** `recs.map(dto => fromDto(dto))` with a hydration function that may
      throw: the first failure is the result. */
  function HydrateAll<E>(fromDto: Record -> Result<E>, recs: seq<Record>): (r: Result<seq<E>>)
    ensures r.Ok? <==> forall i | 0 <= i < |recs| :: fromDto(recs[i]).Ok?
    ensures r.Ok? ==> |r.value| == |recs|
    ensures r.Ok? ==> forall i | 0 <= i < |recs| :: fromDto(recs[i]) == Ok(r.value[i])
  {
    if recs == [] then Ok([])
    else
      var head := fromDto(recs[0]);
      if head.Err? then Err(head.error)
      else
        var rest := HydrateAll(fromDto, recs[1..]);
        if rest.Err? then rest else Ok([head.value] + rest.value)
  }

  /** A failing selection fails with the error of the first record whose
      test fails; every record before it was tested without error. */
  lemma {:induction false} SelectErrorIsFirst(f: Filter, recs: seq<Record>, keep: bool)
    requires Select(f, recs, keep).Err?
    ensures exists i | 0 <= i < |recs| ::
      Eval(f, recs[i]) == Err(Select(f, recs, keep).error) &&
      forall j | 0 <= j < i :: Eval(f, recs[j]).Ok?
  {
    if Eval(f, recs[0]).Err? {
      assert Eval(f, recs[0]) == Err(Select(f, recs, keep).error);
    } else {
      SelectErrorIsFirst(f, recs[1..], keep);
      var i :| 0 <= i < |recs[1..]| &&
        Eval(f, recs[1..][i]) == Err(Select(f, recs[1..], keep).error) &&
        forall j | 0 <= j < i :: Eval(f, recs[1..][j]).Ok?;
      assert forall j | 1 <= j < i + 1 :: recs[j] == recs[1..][j - 1];
    }
  }

  /** A failing hydration fails with the error of the first record that
      does not hydrate; every record before it hydrated. */
  lemma {:induction false} HydrateErrorIsFirst<E>(fromDto: Record -> Result<E>, recs: seq<Record>)
    requires HydrateAll(fromDto, recs).Err?
    ensures exists i | 0 <= i < |recs| ::
      fromDto(recs[i]) == Err(HydrateAll(fromDto, recs).error) &&
      forall j | 0 <= j < i :: fromDto(recs[j]).Ok?
  {
    if fromDto(recs[0]).Err? {
      assert fromDto(recs[0]) == Err(HydrateAll(fromDto, recs).error);
    } else {
      HydrateErrorIsFirst(fromDto, recs[1..]);
      var i :| 0 <= i < |recs[1..]| &&
        fromDto(recs[1..][i]) == Err(HydrateAll(fromDto, recs[1..]).error) &&
        forall j | 0 <= j < i :: fromDto(recs[1..][j]).Ok?;
      assert forall j | 1 <= j < i + 1 :: recs[j] == recs[1..][j - 1];
    }
  }

  /** `recs.map(dto => this.deserializeEntity(c, dto))`: no record, no
      lookup; otherwise a collection without a registered factory fails. */
  function Hydrate<E>(factories: map<string, Record -> Result<E>>, c: string, recs: seq<Record>): (r: Result<seq<E>>)
    ensures recs == [] ==> r == Ok([])
    ensures recs != [] && c !in factories ==>
      r == Err("No constructor registered for collection: " + c)
    ensures c in factories ==> r == HydrateAll(factories[c], recs)
  {
    if recs == [] then Ok([])
    else if c !in factories then Err("No constructor registered for collection: " + c)
    else HydrateAll(factories[c], recs)
  }

  /** `after` is `Object.assign(before, updates)`: the keys of both, each
      update key taking the update's value and every other key keeping the
      record's. */
  predicate Assigned(before: Record, updates: Record, after: Record)
  {
    after.Keys == before.Keys + updates.Keys &&
    forall k | k in after :: after[k] == if k in updates then updates[k] else before[k]
  }

  /** `Object.assign(item, updates)` on each record. */
  function MergeEach(recs: seq<Record>, updates: Record): (r: seq<Record>)
    ensures |r| == |recs|
    ensures forall i | 0 <= i < |recs| :: Assigned(recs[i], updates, r[i])
  {
    seq(|recs|, i requires 0 <= i < |recs| => recs[i] + updates)
  }

  /** The collection after `update`: every record the filter accepts has the
      updates merged into it, in place; the others are untouched. */
  function MergeMatching(f: Filter, recs: seq<Record>, updates: Record): (r: seq<Record>)
    ensures |r| == |recs|
    ensures forall i | 0 <= i < |recs| && Accepts(f, recs[i]) :: Assigned(recs[i], updates, r[i])
    ensures forall i | 0 <= i < |recs| && !Accepts(f, recs[i]) :: r[i] == recs[i]
  {
    seq(|recs|, i requires 0 <= i < |recs| =>
      if Accepts(f, recs[i]) then recs[i] + updates else recs[i])
  }

  /** Every record carries an integer id below `counter`. */
  ghost predicate IdsBelow(recs: seq<Record>, counter: int)
  {
    forall i | 0 <= i < |recs| :: "id" in recs[i] && recs[i]["id"].VInt? && recs[i]["id"].i < counter
  }

  /** No two records share an id. */
  ghost predicate DistinctIds(recs: seq<Record>)
  {
    forall i, j | 0 <= i < j < |recs| && "id" in recs[i] && "id" in recs[j] ::
      recs[i]["id"] != recs[j]["id"]
  }

  class Database<E> {
    var data: Collections
    var idCounters: Counters
    var factories: map<string, Record -> Result<E>>
    /** The content of the snapshot file. */
    ghost var file: StoredFile

    /** Collection `c` has a counter, every id in it is an integer below the
        counter and no two records share one, so the next insert assigns a
        fresh id. */
    ghost predicate WellKeyed(c: string)
      reads this
    {
      c in data && c in idCounters && IdsBelow(data[c], idCounters[c]) && DistinctIds(data[c])
    }

    /** `saveDatabase()`: a successful write replaces the file with the
        current state; a failed one is swallowed and leaves the file as it
        was, the in-memory state being kept either way. */
    ghost method Save(writeOk: bool)
      modifies this`file
      ensures file == if writeOk then Stored(data, Some(idCounters)) else old(file)
    {
      if writeOk {
        file := Stored(data, Some(idCounters));
      }
    }

    /** The constructor followed by `initializeDatabase()`: without a file the
        store starts empty and writes the empty snapshot; with an unreadable
        file it starts empty and writes nothing; otherwise it adopts the
        file's collections and counters (counters defaulting to none). */
    constructor (initial: StoredFile, writeOk: bool)
      ensures factories == map[]
      ensures initial.Stored? ==>
        data == initial.data &&
        idCounters == (if initial.idCounters.Some? then initial.idCounters.value else map[]) &&
        file == initial
      ensures !initial.Stored? ==> data == map[] && idCounters == map[]
      ensures initial.NoFile? ==>
        file == if writeOk then Stored(map[], Some(map[])) else NoFile
      ensures initial.Unreadable? ==> file == Unreadable
    {
      factories := map[];
      if initial.Stored? {
        data := initial.data;
        idCounters := if initial.idCounters.Some? then initial.idCounters.value else map[];
      } else {
        data := map[];
        idCounters := map[];
      }
      file := initial;
      new;
      if initial.NoFile? {
        Save(writeOk);
      }
    }

    /** `registerEntityConstructor(c, ctor)`: installs or replaces the
        hydration function of `c`. */
    method RegisterEntityConstructor(c: string, fromDto: Record -> Result<E>)
      modifies this`factories
      ensures factories == old(factories)[c := fromDto]
    {
      factories := factories[c := fromDto];
    }

    /** `find(c, q)`: the records of `c` the filter accepts, in stored order,
        each hydrated. An unknown collection yields no records; an evaluation
        error or a hydration failure is the result. */
    function Find(c: string, q: Filter): (r: Result<seq<E>>)
      reads this
      ensures c !in data ==> r == Ok([])
      ensures c in data && Select(q, data[c], true).Err? ==>
        r == Err(Select(q, data[c], true).error)
      ensures c in data && Select(q, data[c], true).Ok? ==>
        r == Hydrate(factories, c, Select(q, data[c], true).value)
    {
      if c !in data then Ok([])
      else
        var matched := Select(q, data[c], true);
        if matched.Err? then Err(matched.error)
        else Hydrate(factories, c, matched.value)
    }

    /** `insert(c, item)` where `dto` is `item.toDto()`: a missing collection
        is created with counter 1; the item takes the counter's value as id,
        the counter is incremented, and the record, carrying that id, is
        appended. A collection that exists without a counter (left by a
        `delete` on an absent collection) has `undefined++` for its id, that
        is NaN, and keeps no counter. */
    method Insert(c: string, dto: Record, writeOk: bool) returns (id: Value)
      modifies this`data, this`idCounters, this`file
      ensures c !in old(data) ==>
        id == VInt(1) && idCounters == old(idCounters)[c := 2]
      ensures c in old(data) && c in old(idCounters) ==>
        id == VInt(old(idCounters)[c]) && idCounters == old(idCounters)[c := old(idCounters)[c] + 1]
      ensures c in old(data) && c !in old(idCounters) ==>
        id == VNaN && idCounters == old(idCounters)
      ensures data == old(data)[c := (if c in old(data) then old(data)[c] else []) + [dto["id" := id]]]
      ensures file == if writeOk then Stored(data, Some(idCounters)) else old(file)
      ensures forall d | d != c :: old(WellKeyed(d)) ==> WellKeyed(d)
      ensures c !in old(data) || old(WellKeyed(c)) ==> WellKeyed(c)
    {
      ghost var before := data;
      if c !in data {
        data := data[c := []];
        idCounters := idCounters[c := 1];
      }
      if c in idCounters {
        id := VInt(idCounters[c]);
        idCounters := idCounters[c := idCounters[c] + 1];
      } else {
        id := VNaN;
      }
      var stored := dto["id" := id];
      if c in before && c in old(idCounters) && old(WellKeyed(c)) {
        InsertKeepsIdsFresh(data[c], idCounters[c] - 1, dto);
      }
      data := data[c := data[c] + [stored]];
      Save(writeOk);
    }

    /** `update(c, q, updates)`: every record of `c` the filter accepts has
        `updates` merged into it in place; the others, and the length, are
        untouched. The result is the updated records, hydrated. The file is
        rewritten even when nothing matched; an evaluation error changes
        nothing, while a hydration failure comes after the change and the
        write. */
    method Update(c: string, q: Filter, updates: Record, writeOk: bool) returns (r: Result<seq<E>>)
      modifies this`data, this`file
      ensures c !in old(data) ==>
        r == Ok([]) && data == old(data) &&
        file == if writeOk then Stored(data, Some(idCounters)) else old(file)
      ensures c in old(data) && Select(q, old(data)[c], true).Err? ==>
        r == Err(Select(q, old(data)[c], true).error) && data == old(data) && file == old(file)
      ensures c in old(data) && Select(q, old(data)[c], true).Ok? ==>
        data == old(data)[c := MergeMatching(q, old(data)[c], updates)] &&
        r == Hydrate(factories, c, MergeEach(Select(q, old(data)[c], true).value, updates)) &&
        file == if writeOk then Stored(data, Some(idCounters)) else old(file)
      ensures "id" !in updates ==> forall d :: old(WellKeyed(d)) ==> WellKeyed(d)
    {
      if c !in data {
        r := Ok([]);
        Save(writeOk);
        return;
      }
      var matched := Select(q, data[c], true);
      if matched.Err? {
        r := Err(matched.error);
        return;
      }
      if "id" !in updates && WellKeyed(c) {
        MergeKeepsIds(q, data[c], updates, idCounters[c]);
      }
      data := data[c := MergeMatching(q, data[c], updates)];
      Save(writeOk);
      r := Hydrate(factories, c, MergeEach(matched.value, updates));
    }

    /** `delete(c, q)`: keeps exactly the records the filter rejects, in their
        order, and returns how many were removed. On an absent collection it
        returns 0 and leaves an empty collection with no counter. An
        evaluation error changes nothing. */
    method Delete(c: string, q: Filter, writeOk: bool) returns (r: Result<int>)
      modifies this`data, this`file
      ensures c !in old(data) ==>
        r == Ok(0) && data == old(data)[c := []] &&
        file == if writeOk then Stored(data, Some(idCounters)) else old(file)
      ensures c in old(data) && Select(q, old(data)[c], false).Err? ==>
        r == Err(Select(q, old(data)[c], false).error) && data == old(data) && file == old(file)
      ensures c in old(data) && Select(q, old(data)[c], false).Ok? ==>
        data == old(data)[c := Select(q, old(data)[c], false).value] &&
        r == Ok(|old(data)[c]| - |data[c]|) &&
        file == if writeOk then Stored(data, Some(idCounters)) else old(file)
      ensures forall d :: old(WellKeyed(d)) ==> WellKeyed(d)
    {
      var initialLength := if c in data then |data[c]| else 0;
      if c in data {
        var kept := Select(q, data[c], false);
        if kept.Err? {
          r := Err(kept.error);
          return;
        }
        if WellKeyed(c) {
          SelectKeepsIds(q, data[c], false, idCounters[c]);
        }
        data := data[c := kept.value];
      } else {
        data := data[c := []];
      }
      r := Ok(initialLength - |data[c]|);
      Save(writeOk);
    }
  }

  // ---------------------------------------------------------------------
  // Properties of selection, merging and id assignment

  /** Selecting with a filter and with its negation split a collection: both
      succeed or neither does, and together they hold every record exactly
      as often as the collection does. */
  lemma {:induction false} SelectPartitions(f: Filter, recs: seq<Record>)
    ensures Select(f, recs, true).Ok? <==> Select(f, recs, false).Ok?
    ensures Select(f, recs, true).Ok? ==>
      multiset(Select(f, recs, true).value) + multiset(Select(f, recs, false).value) == multiset(recs) &&
      |Select(f, recs, true).value| + |Select(f, recs, false).value| == |recs|
  {
    SelectIsPick(f, recs, true);
    SelectIsPick(f, recs, false);
    PickPartitions(Tests(f, recs), recs);
  }

  /** Each record's test, in order. */
  function Tests(f: Filter, recs: seq<Record>): (t: seq<Result<bool>>)
    ensures |t| == |recs|
  {
    if recs == [] then [] else [Eval(f, recs[0])] + Tests(f, recs[1..])
  }

  /** `Select` with the tests already made: `tests[i]` is the test of
      `recs[i]`. */
  function Pick(tests: seq<Result<bool>>, recs: seq<Record>, keep: bool): Result<seq<Record>>
    requires |tests| == |recs|
  {
    if recs == [] then Ok([])
    else if tests[0].Err? then Err(tests[0].error)
    else
      var rest := Pick(tests[1..], recs[1..], keep);
      if rest.Err? then rest
      else if tests[0].value == keep then Ok([recs[0]] + rest.value)
      else rest
  }

  lemma {:induction false} SelectIsPick(f: Filter, recs: seq<Record>, keep: bool)
    ensures Select(f, recs, keep) == Pick(Tests(f, recs), recs, keep)
  {
    if recs != [] {
      SelectIsPick(f, recs[1..], keep);
      assert Tests(f, recs)[1..] == Tests(f, recs[1..]);
    }
  }

  lemma {:induction false} PickPartitions(tests: seq<Result<bool>>, recs: seq<Record>)
    requires |tests| == |recs|
    ensures Pick(tests, recs, true).Ok? <==> Pick(tests, recs, false).Ok?
    ensures Pick(tests, recs, true).Ok? ==>
      multiset(Pick(tests, recs, true).value) + multiset(Pick(tests, recs, false).value) == multiset(recs) &&
      |Pick(tests, recs, true).value| + |Pick(tests, recs, false).value| == |recs|
  {
    if recs != [] {
      PickPartitions(tests[1..], recs[1..]);
      var kept, dropped := Pick(tests[1..], recs[1..], true), Pick(tests[1..], recs[1..], false);
      if tests[0].Ok? && kept.Ok? {
        assert recs == [recs[0]] + recs[1..];
        PartitionStep(recs[0], recs[1..], kept.value, dropped.value);
      }
    }
  }

  /** One more record, put on either side of a partition, gives a partition
      of the longer sequence. */
  lemma PartitionStep(x: Record, rest: seq<Record>, kept: seq<Record>, dropped: seq<Record>)
    requires multiset(kept) + multiset(dropped) == multiset(rest)
    ensures multiset([x] + kept) + multiset(dropped) == multiset([x] + rest)
    ensures multiset(kept) + multiset([x] + dropped) == multiset([x] + rest)
  {
  }

  /** A selection keeps the stored order. */
  lemma {:induction false} SelectIsSubsequence(f: Filter, recs: seq<Record>, keep: bool)
    requires Select(f, recs, keep).Ok?
    ensures IsSubsequence(Select(f, recs, keep).value, recs)
  {
    if recs != [] {
      SelectIsSubsequence(f, recs[1..], keep);
      var rest := Select(f, recs[1..], keep).value;
      if Eval(f, recs[0]) != Ok(keep) {
        SkipHead(rest, recs);
      }
    }
  }

  /** A selection holds every record whose test gave `keep`. */
  lemma SelectIsComplete(f: Filter, recs: seq<Record>, keep: bool)
    requires Select(f, recs, keep).Ok?
    ensures forall i | 0 <= i < |recs| && Eval(f, recs[i]) == Ok(keep) ::
      recs[i] in Select(f, recs, keep).value
  {
    SelectPartitions(f, recs);
    forall i | 0 <= i < |recs| && Eval(f, recs[i]) == Ok(keep)
      ensures recs[i] in Select(f, recs, keep).value
    {
      assert recs[i] in multiset(recs);
      assert recs[i] !in Select(f, recs, !keep).value;
    }
  }

  /** The count `delete` returns is the number of records the filter
      accepts. */
  lemma DeleteCountIsMatchCount(f: Filter, recs: seq<Record>)
    requires Select(f, recs, false).Ok?
    ensures Select(f, recs, true).Ok?
    ensures |recs| - |Select(f, recs, false).value| == |Select(f, recs, true).value|
  {
    SelectPartitions(f, recs);
  }

  /** The records `update` returns are, in order, exactly the merged
      records standing where the filter accepted. */
  lemma {:induction false} UpdatedAreMergedMatches(f: Filter, recs: seq<Record>, updates: Record)
    requires Select(f, recs, true).Ok?
    ensures IsSubsequence(MergeEach(Select(f, recs, true).value, updates), MergeMatching(f, recs, updates))
  {
    if recs != [] {
      UpdatedAreMergedMatches(f, recs[1..], updates);
      var whole := MergeMatching(f, recs, updates);
      var tail := MergeMatching(f, recs[1..], updates);
      assert whole[1..] == tail;
      var rest := MergeEach(Select(f, recs[1..], true).value, updates);
      if Accepts(f, recs[0]) {
        var all := MergeEach(Select(f, recs, true).value, updates);
        assert Select(f, recs, true).value == [recs[0]] + Select(f, recs[1..], true).value;
        assert all[0] == whole[0];
        assert all[1..] == rest;
      } else {
        assert Select(f, recs, true).value == Select(f, recs[1..], true).value;
        SkipHead(rest, whole);
      }
    }
  }

  /** An insert that takes its id from the counter keeps the ids below the
      incremented counter and distinct. */
  lemma InsertKeepsIdsFresh(recs: seq<Record>, counter: int, dto: Record)
    requires IdsBelow(recs, counter) && DistinctIds(recs)
    ensures IdsBelow(recs + [dto["id" := VInt(counter)]], counter + 1)
    ensures DistinctIds(recs + [dto["id" := VInt(counter)]])
  {
  }

  /** A selection keeps the ids below the counter and distinct. */
  lemma SelectKeepsIds(f: Filter, recs: seq<Record>, keep: bool, counter: int)
    requires Select(f, recs, keep).Ok?
    requires IdsBelow(recs, counter) && DistinctIds(recs)
    ensures IdsBelow(Select(f, recs, keep).value, counter)
    ensures DistinctIds(Select(f, recs, keep).value)
  {
    SelectIsSubsequence(f, recs, keep);
    SubsequenceKeepsIds(Select(f, recs, keep).value, recs, counter);
  }

  /** Merging updates that do not set `id` keeps every id. */
  lemma MergeKeepsIds(f: Filter, recs: seq<Record>, updates: Record, counter: int)
    requires "id" !in updates
    requires IdsBelow(recs, counter) && DistinctIds(recs)
    ensures IdsBelow(MergeMatching(f, recs, updates), counter)
    ensures DistinctIds(MergeMatching(f, recs, updates))
  {
    var m := MergeMatching(f, recs, updates);
    assert forall i | 0 <= i < |recs| :: "id" in m[i] && m[i]["id"] == recs[i]["id"];
  }

  lemma {:induction false} SkipHead<T>(a: seq<T>, b: seq<T>)
    requires b != [] && IsSubsequence(a, b[1..])
    ensures IsSubsequence(a, b)
    decreases |b|, 0
  {
    if a != [] && a[0] == b[0] {
      DropFirst(a, b[1..]);
    }
  }

  lemma {:induction false} DropFirst<T>(a: seq<T>, c: seq<T>)
    requires a != [] && IsSubsequence(a, c)
    ensures IsSubsequence(a[1..], c)
    decreases |c|, 1
  {
    if a[0] != c[0] {
      DropFirst(a, c[1..]);
    }
    SkipHead(a[1..], c);
  }

  lemma {:induction false} SubsequenceKeepsIds(a: seq<Record>, b: seq<Record>, counter: int)
    requires IsSubsequence(a, b)
    requires IdsBelow(b, counter) && DistinctIds(b)
    ensures IdsBelow(a, counter) && DistinctIds(a)
    ensures forall x | x in a :: x in b
    decreases |b|
  {
    if a != [] && b != [] {
      assert IdsBelow(b[1..], counter) && DistinctIds(b[1..]);
      if a[0] == b[0] {
        SubsequenceKeepsIds(a[1..], b[1..], counter);
        assert a == [a[0]] + a[1..];
        forall j | 0 < j < |a| ensures "id" in a[j] && a[0]["id"] != a[j]["id"] {
          assert a[j] == a[1..][j - 1];
          assert a[j] in b[1..];
          var k :| 0 <= k < |b[1..]| && b[1..][k] == a[j];
          assert b[k + 1] == a[j];
        }
      } else {
        SubsequenceKeepsIds(a, b[1..], counter);
      }
    }
  }
}
