/** Progress of the rescanner over successive cycles, and where it stalls. */
module Rescan {
  import opened Wrappers
  import opened Base62
  import opened Store
  import opened Requests
  import opened Services

  // ----- One cycle ----------------------------------------------------------------------------

  /** The table after processOne on each item in turn. */
  function RescannedTable(t: Table, list: seq<Item>, scan: nat -> Status, faults: nat -> RescanFaults): Table {
    if list == [] then t
    else
      var last := |list| - 1;
      ProcessedTable(RescannedTable(t, list[..last], scan, faults), list[last], scan(last), faults(last))
  }

  function RescannedCache(c: Cache, list: seq<Item>, scan: nat -> Status, faults: nat -> RescanFaults): Cache {
    if list == [] then c
    else
      var last := |list| - 1;
      ProcessedCache(RescannedCache(c, list[..last], scan, faults), list[last], scan(last), faults(last))
  }

  lemma RescanNothing(t: Table, c: Cache, list: seq<Item>, scan: nat -> Status, faults: nat -> RescanFaults)
    ensures RescannedTable(t, list[..0], scan, faults) == t && RescannedCache(c, list[..0], scan, faults) == c
  {
  }

  lemma RescanOneMore(t: Table, c: Cache, list: seq<Item>, n: nat, scan: nat -> Status, faults: nat -> RescanFaults)
    requires n < |list|
    ensures RescannedTable(t, list[..n + 1], scan, faults)
            == ProcessedTable(RescannedTable(t, list[..n], scan, faults), list[n], scan(n), faults(n))
    ensures RescannedCache(c, list[..n + 1], scan, faults)
            == ProcessedCache(RescannedCache(c, list[..n], scan, faults), list[n], scan(n), faults(n))
  {
    assert list[..n + 1][..n] == list[..n];
  }

  lemma LastItem(list: seq<Item>)
    requires list != []
    ensures Ids(list) == Ids(list[..|list| - 1]) + {list[|list| - 1].id}
  {
    IdsAppend(list[..|list| - 1], list[|list| - 1]);
    assert list == list[..|list| - 1] + [list[|list| - 1]];
  }

  lemma NotEarlier(list: seq<Item>)
    requires list != [] && DistinctIds(list)
    ensures list[|list| - 1].id !in Ids(list[..|list| - 1])
  {
  }

  lemma {:induction false} Untouched(t: Table, list: seq<Item>, scan: nat -> Status, faults: nat -> RescanFaults)
    requires forall i | 0 <= i < |list| :: list[i].id in t.rows
    ensures var u := RescannedTable(t, list, scan, faults);
            && u.nextId == t.nextId && u.rows.Keys == t.rows.Keys
            && (forall id | id in t.rows && id !in Ids(list) :: u.rows[id] == t.rows[id])
  {
    if list != [] {
      hide Ids;
      Untouched(t, list[..|list| - 1], scan, faults);
      LastItem(list);
    } else {
      assert Ids(list) == {};
    }
  }

  /** A processed item has its answer unless its update failed; every other row is as it was. */
  lemma {:induction false} Settled(t: Table, list: seq<Item>, scan: nat -> Status, faults: nat -> RescanFaults)
    requires DistinctIds(list) && forall i | 0 <= i < |list| :: list[i].id in t.rows
    ensures var u := RescannedTable(t, list, scan, faults);
            && u.nextId == t.nextId && u.rows.Keys == t.rows.Keys
            && (forall id | id in t.rows && id !in Ids(list) :: u.rows[id] == t.rows[id])
            && (forall i: nat | i < |list| :: u.rows[list[i].id] ==
                  if faults(i).updateFails then t.rows[list[i].id] else t.rows[list[i].id].(status := scan(i)))
  {
    Untouched(t, list, scan, faults);
    if list != [] {
      hide RescannedTable, Ids;
      var last := |list| - 1;
      var init := list[..last];
      Untouched(t, init, scan, faults);
      Settled(t, init, scan, faults);
      ProcessLast(t, list, scan, faults);
      NotEarlier(list);
      var u, v := RescannedTable(t, list, scan, faults), RescannedTable(t, init, scan, faults);
      forall i: nat | i < last
        ensures u.rows[list[i].id] ==
                if faults(i).updateFails then t.rows[list[i].id] else t.rows[list[i].id].(status := scan(i))
      {
        assert init[i] == list[i] && list[i].id != list[last].id;
        assert u.rows[list[i].id] == v.rows[list[i].id];
      }
    }
  }

  lemma ProcessLast(t: Table, list: seq<Item>, scan: nat -> Status, faults: nat -> RescanFaults)
    requires list != []
    ensures var last := |list| - 1;
            RescannedTable(t, list, scan, faults)
            == ProcessedTable(RescannedTable(t, list[..last], scan, faults), list[last], scan(last), faults(last))
  {
  }

  /** Some processed item evicts this hash. */
  predicate Evicts(list: seq<Item>, scan: nat -> Status, faults: nat -> RescanFaults, h: string) {
    exists i: nat | i < |list| :: list[i].row.hash == h && scan(i) == Malicious && !faults(i).delLost
  }

  lemma EvictsLast(list: seq<Item>, scan: nat -> Status, faults: nat -> RescanFaults, h: string)
    requires list != []
    ensures var last := |list| - 1;
            Evicts(list, scan, faults, h) <==>
            Evicts(list[..last], scan, faults, h)
            || (list[last].row.hash == h && scan(last) == Malicious && !faults(last).delLost)
  {
    var last := |list| - 1;
    if Evicts(list[..last], scan, faults, h) {
      var i: nat :| i < last && list[..last][i].row.hash == h && scan(i) == Malicious && !faults(i).delLost;
      assert list[i].row.hash == h;
    }
    if i: nat :| i < |list| && list[i].row.hash == h && scan(i) == Malicious && !faults(i).delLost {
      if i < last {
        assert list[..last][i].row.hash == h;
      }
    }
  }

  /** The cache loses exactly the hashes that are evicted. */
  lemma {:induction false} Evictions(c: Cache, list: seq<Item>, scan: nat -> Status, faults: nat -> RescanFaults, h: string)
    ensures var d, gone := RescannedCache(c, list, scan, faults), Evicts(list, scan, faults, h);
            && (h in d.urls <==> h in c.urls && !gone) && (h in d.urls ==> d.urls[h] == c.urls[h])
            && (h in d.metas <==> h in c.metas && !gone) && (h in d.metas ==> d.metas[h] == c.metas[h])
  {
    if list != [] {
      hide Evicts;
      Evictions(c, list[..|list| - 1], scan, faults, h);
      EvictsLast(list, scan, faults, h);
    }
  }

  class Rescanner {
    const repo: URLRepository
    const cache: RedisURLCache

    constructor (repo: URLRepository, cache: RedisURLCache)
      ensures this.repo == repo && this.cache == cache
    {
      this.repo, this.cache := repo, cache;
    }

    /** The write goes to the row's id whatever the row has become since it was fetched. */
    method ProcessOne(item: Item, scan: Status, f: RescanFaults)
      modifies repo, cache
      ensures repo.table == ProcessedTable(old(repo.table), item, scan, f)
      ensures cache.c == ProcessedCache(old(cache.c), item, scan, f)
      ensures item.id in old(repo.table.rows) && !f.updateFails ==>
                repo.table.rows == old(repo.table.rows)[item.id := old(repo.table.rows)[item.id].(status := scan)]
      ensures item.id !in old(repo.table.rows) || f.updateFails ==> repo.table == old(repo.table)
      ensures cache.c == if scan == Malicious && !f.delLost
                         then Cache(old(cache.c.urls) - {item.row.hash}, old(cache.c.metas) - {item.row.hash})
                         else old(cache.c)
    {
      var _ := repo.UpdateStatus(item.id, scan, f.updateFails);
      if scan == Malicious {
        var _ := cache.Delete(item.row.hash, f.delLost);
      }
    }

    /**
     * One cycle; scan and faults answer for the i-th item, and ctx is cancelled once cancelAfter items are done.
     * Cancellation is noticed only after an item.
     */
    method RunCycle(now: int, fetchFails: bool, scan: nat -> Status, faults: nat -> RescanFaults, cancelAfter: nat)
      returns (list: seq<Item>, done: nat)
      modifies repo, cache
      ensures if fetchFails then list == [] else IsFetch(old(repo.table), now, list)
      // how far it gets
      ensures done <= |list|
      ensures cancelAfter >= |list| ==> done == |list|
      ensures 0 < cancelAfter <= |list| ==> done == cancelAfter
      ensures cancelAfter == 0 && list != [] ==> done == 1
      // what becomes of the items, of the other rows, and of the cache
      ensures repo.table == RescannedTable(old(repo.table), list[..done], scan, faults)
      ensures cache.c == RescannedCache(old(cache.c), list[..done], scan, faults)
      ensures forall i: nat | i < done ::
                && list[i].id in old(repo.table.rows) && list[i].id in repo.table.rows
                && repo.table.rows[list[i].id] ==
                   if faults(i).updateFails then old(repo.table.rows)[list[i].id]
                   else old(repo.table.rows)[list[i].id].(status := scan(i))
      ensures repo.table.rows.Keys == old(repo.table.rows).Keys
      ensures forall id | id in old(repo.table.rows) && id !in Ids(list[..done]) ::
                repo.table.rows[id] == old(repo.table.rows)[id]
      ensures forall h :: h in cache.c.urls <==> h in old(cache.c.urls) && !Evicts(list[..done], scan, faults, h)
      ensures forall h :: h in cache.c.metas <==> h in old(cache.c.metas) && !Evicts(list[..done], scan, faults, h)
      // an uncancelled cycle of definitive answers takes up to a hundred rows off the backlog
      ensures !fetchFails && cancelAfter >= |list|
              && (forall i: nat :: scan(i) in {Clean, Malicious} && !faults(i).updateFails) ==>
                var n := |Backlog(old(repo.table), now)|;
                |Backlog(repo.table, now)| == if n <= 100 then 0 else n - 100
    {
      hide *;
      list, done := [], 0;
      if !fetchFails {
        list := repo.FindUnverified(now);
      }
      FetchedRows(repo.table, now, list, fetchFails);
      RescanNothing(repo.table, cache.c, list, scan, faults);
      while done < |list|
        invariant done <= |list| && (done == 0 || done < cancelAfter)
        invariant repo.table == RescannedTable(old(repo.table), list[..done], scan, faults)
        invariant cache.c == RescannedCache(old(cache.c), list[..done], scan, faults)
      {
        ProcessOne(list[done], scan(done), faults(done));
        RescanOneMore(old(repo.table), old(cache.c), list, done, scan, faults);
        done := done + 1;
        if cancelAfter <= done {
          break;
        }
      }
      CycleOutcome(old(repo.table), old(cache.c), list, done, scan, faults);
      if !fetchFails && done == |list| && forall i: nat :: scan(i) in {Clean, Malicious} && !faults(i).updateFails {
        assert list[..done] == list;
        CycleLaw(old(repo.table), now, list, scan, faults);
      }
    }
  }

  lemma FetchedRows(t: Table, now: int, list: seq<Item>, failed: bool)
    requires if failed then list == [] else IsFetch(t, now, list)
    ensures DistinctIds(list) && forall i | 0 <= i < |list| :: list[i].id in t.rows
  {
  }

  lemma CycleOutcome(t: Table, c: Cache, list: seq<Item>, done: nat, scan: nat -> Status, faults: nat -> RescanFaults)
    requires DistinctIds(list) && (forall i | 0 <= i < |list| :: list[i].id in t.rows) && done <= |list|
    ensures var u := RescannedTable(t, list[..done], scan, faults);
            && u.rows.Keys == t.rows.Keys
            && (forall id | id in t.rows && id !in Ids(list[..done]) :: u.rows[id] == t.rows[id])
            && (forall i: nat | i < done :: list[i].id in t.rows && list[i].id in u.rows && u.rows[list[i].id] ==
                  if faults(i).updateFails then t.rows[list[i].id] else t.rows[list[i].id].(status := scan(i)))
    ensures var d := RescannedCache(c, list[..done], scan, faults);
            && (forall h :: h in d.urls <==> h in c.urls && !Evicts(list[..done], scan, faults, h))
            && (forall h :: h in d.metas <==> h in c.metas && !Evicts(list[..done], scan, faults, h))
  {
    Settled(t, list[..done], scan, faults);
    hide RescannedTable, RescannedCache, Evicts, Ids;
    forall i: nat | i < done ensures list[..done][i] == list[i] {
    }
    var d := RescannedCache(c, list[..done], scan, faults);
    forall h
      ensures h in d.urls <==> h in c.urls && !Evicts(list[..done], scan, faults, h)
      ensures h in d.metas <==> h in c.metas && !Evicts(list[..done], scan, faults, h)
    {
      Evictions(c, list[..done], scan, faults, h);
    }
  }

  // ----- Successive cycles --------------------------------------------------------------------

  const NO_FAULTS: nat -> RescanFaults := (_: nat) => RescanFaults(false, false)

  // One uncancelled cycle: when it runs, what its query returns, and the scanner's answer for each item.
  datatype Cycle = Cycle(now: int, list: seq<Item>, scan: nat -> Status)

  function AfterCycle(t: Table, c: Cycle): Table { RescannedTable(t, c.list, c.scan, NO_FAULTS) }

  predicate Definitive(status: Status) { status == Clean || status == Malicious }

  /** Every answer settles its row. */
  ghost predicate AllDefinitive(c: Cycle) { forall i: nat :: Definitive(c.scan(i)) }

  /** No unverified row expires between two moments. */
  ghost predicate NoneExpire(t: Table, from: int, to: int) {
    forall id | id in t.rows && t.rows[id].status == Unverified :: Unexpired(t.rows[id], from) ==> Unexpired(t.rows[id], to)
  }

  /** Cycles one after the other, none before start or after end, nothing else writing meanwhile. */
  ghost predicate Cycles(t: Table, start: int, end: int, cycles: seq<Cycle>)
    decreases |cycles|
  {
    cycles == []
    || (start <= cycles[0].now <= end
        && IsFetch(t, cycles[0].now, cycles[0].list) && AllDefinitive(cycles[0])
        && Cycles(AfterCycle(t, cycles[0]), start, end, cycles[1..]))
  }

  ghost function AfterCycles(t: Table, cycles: seq<Cycle>): Table
    decreases |cycles|
  {
    if cycles == [] then t else AfterCycles(AfterCycle(t, cycles[0]), cycles[1..])
  }

  lemma SameBacklog(t: Table, from: int, now: int, to: int)
    requires from <= now <= to && NoneExpire(t, from, to)
    ensures Backlog(t, now) == Backlog(t, to)
  {
    forall id ensures id in Backlog(t, now) <==> id in Backlog(t, to) {
    }
  }

  /** Each fetched row leaves the backlog, every other row stays as it is. */
  lemma SettledRows(t: Table, c: Cycle)
    requires IsFetch(t, c.now, c.list) && AllDefinitive(c)
    ensures var u := AfterCycle(t, c);
            && u.rows.Keys == t.rows.Keys
            && (forall id | id in t.rows && id !in Ids(c.list) :: u.rows[id] == t.rows[id])
            && (forall id | id in Ids(c.list) :: id in u.rows && u.rows[id].status != Unverified)
  {
    hide RescannedTable, Backlog;
    Settled(t, c.list, c.scan, NO_FAULTS);
    forall id | id in Ids(c.list) ensures id in t.rows && AfterCycle(t, c).rows[id].status != Unverified {
      var i: nat :| i < |c.list| && c.list[i].id == id;
      assert Definitive(c.scan(i));
    }
  }

  lemma CycleBacklog(t: Table, c: Cycle, start: int, end: int)
    requires start <= c.now <= end && NoneExpire(t, start, end) && IsFetch(t, c.now, c.list) && AllDefinitive(c)
    ensures Backlog(AfterCycle(t, c), end) == Backlog(t, end) - Ids(c.list)
    ensures NoneExpire(AfterCycle(t, c), start, end)
    ensures Ids(c.list) <= Backlog(t, end)
    ensures Backlog(t, c.now) == Backlog(t, end)
  {
    SameBacklog(t, start, c.now, end);
    SettledRows(t, c);
    hide AfterCycle, Ids, AllDefinitive;
    var u := AfterCycle(t, c);
    forall id ensures id in Backlog(u, end) <==> id in Backlog(t, end) - Ids(c.list) {
    }
  }

  lemma {:induction false} CountIds(list: seq<Item>)
    requires DistinctIds(list)
    ensures |Ids(list)| == |list|
  {
    if list == [] {
      assert Ids(list) == {};
    } else {
      var init := list[..|list| - 1];
      CountIds(init);
      IdsAppend(init, list[|list| - 1]);
      assert list == init + [list[|list| - 1]];
      assert list[|list| - 1].id !in Ids(init);
    }
  }

  lemma CycleCount(t: Table, c: Cycle, start: int, end: int)
    requires start <= c.now <= end && NoneExpire(t, start, end) && IsFetch(t, c.now, c.list) && AllDefinitive(c)
    ensures var n := |Backlog(t, end)|;
            |Backlog(AfterCycle(t, c), end)| == if n <= 100 then 0 else n - 100
  {
    CycleBacklog(t, c, start, end);
    CountIds(c.list);
    SubsetCount(Ids(c.list), Backlog(t, end));
  }

  lemma {:induction false} FaultsThatDoNotMatter(t: Table, list: seq<Item>, scan: nat -> Status, faults: nat -> RescanFaults)
    requires forall i: nat :: !faults(i).updateFails
    ensures RescannedTable(t, list, scan, faults) == RescannedTable(t, list, scan, NO_FAULTS)
  {
    if list != [] {
      FaultsThatDoNotMatter(t, list[..|list| - 1], scan, faults);
    }
  }

  /** One cycle of definitive answers, at the moment of its fetch. */
  lemma CycleLaw(t: Table, now: int, list: seq<Item>, scan: nat -> Status, faults: nat -> RescanFaults)
    requires IsFetch(t, now, list) && forall i: nat :: scan(i) in {Clean, Malicious} && !faults(i).updateFails
    ensures var n := |Backlog(t, now)|;
            |Backlog(RescannedTable(t, list, scan, faults), now)| == if n <= 100 then 0 else n - 100
  {
    hide IsFetch, RescannedTable, Backlog;
    FaultsThatDoNotMatter(t, list, scan, faults);
    var c := Cycle(now, list, scan);
    assert AllDefinitive(c);
    CycleCount(t, c, now, now);
  }

  lemma SubsetCount<T>(a: set<T>, b: set<T>)
    requires a <= b
    ensures |b - a| == |b| - |a|
    ensures |a| == |b| ==> a == b
  {
    assert b == a + (b - a);
    assert |b - a| == 0 ==> b - a == {};
  }

  /**
   * With definitive answers and nothing else writing, k cycles take exactly the hundred oldest rows each: the backlog
   * of n falls to n - 100 k, so it is empty exactly once 100 k reaches n.
   */
  lemma {:induction false} BacklogDrains(t: Table, start: int, end: int, cycles: seq<Cycle>)
    requires NoneExpire(t, start, end) && Cycles(t, start, end, cycles)
    ensures var n, done := |Backlog(t, end)|, 100 * |cycles|;
            |Backlog(AfterCycles(t, cycles), end)| == if n <= done then 0 else n - done
    decreases |cycles|
  {
    hide Backlog, IsFetch;
    if cycles != [] {
      CycleCount(t, cycles[0], start, end);
      CycleBacklog(t, cycles[0], start, end);
      BacklogDrains(AfterCycle(t, cycles[0]), start, end, cycles[1..]);
    }
  }

  // ----- Where it stalls ----------------------------------------------------------------------

  /** A cycle whose scans all come back unverified changes no row. */
  lemma {:induction false} InconclusiveCycle(t: Table, list: seq<Item>, scan: nat -> Status)
    requires forall i | 0 <= i < |list| :: list[i].id in t.rows && t.rows[list[i].id].status == Unverified
    requires forall i: nat :: scan(i) == Unverified
    ensures RescannedTable(t, list, scan, NO_FAULTS) == t
  {
    if list != [] {
      var last := |list| - 1;
      InconclusiveCycle(t, list[..last], scan);
      var id := list[last].id;
      assert t.rows[id].(status := Unverified) == t.rows[id];
      assert AfterStatus(t, id, Unverified).rows == t.rows;
    }
  }

  function OlderBacklog(t: Table, now: int, id: nat): set<nat>
    requires id in t.rows
  {
    set k | k in Backlog(t, now) && t.rows[k].createdAt < t.rows[id].createdAt
  }

  /** A fetched row has all of the strictly older backlog fetched with it, so fewer than a hundred such rows. */
  lemma OldestFirst(t: Table, now: int, list: seq<Item>, id: nat)
    requires IsFetch(t, now, list) && id in Ids(list)
    ensures id in t.rows && OlderBacklog(t, now, id) <= Ids(list) - {id} && |OlderBacklog(t, now, id)| < FETCH_LIMIT
  {
    var i: nat :| i < |list| && list[i].id == id;
    var older := OlderBacklog(t, now, id);
    assert forall k | k in Backlog(t, now) - Ids(list) :: t.rows[id].createdAt <= t.rows[k].createdAt;
    hide IsFetch, Backlog;
    assert older * (Backlog(t, now) - Ids(list)) == {};
    CountIds(list);
    SubsetCount({id}, Ids(list));
    SubsetCount(older, Ids(list) - {id});
  }

  lemma {:induction false} OldestOf(t: Table, ids: set<nat>) returns (x: nat)
    requires ids != {} && ids <= t.rows.Keys
    ensures x in ids && forall k | k in ids :: t.rows[x].createdAt <= t.rows[k].createdAt
    decreases |ids|
  {
    var y :| y in ids;
    var rest := ids - {y};
    x := y;
    if rest != {} {
      var z := OldestOf(t, rest);
      x := if t.rows[z].createdAt < t.rows[y].createdAt then z else y;
      forall k | k in ids ensures t.rows[x].createdAt <= t.rows[k].createdAt {
        assert k == y || k in rest;
      }
    } else {
      assert ids == {y};
    }
  }

  /** The rows chosen so far, oldest first, with these left to choose from. */
  ghost predicate Choosing(t: Table, now: int, list: seq<Item>, rest: set<nat>) {
    && rest + Ids(list) == Backlog(t, now) && rest !! Ids(list)
    && DistinctIds(list) && |list| <= FETCH_LIMIT
    && (forall i | 0 <= i < |list| :: list[i].id in t.rows && list[i].row == t.rows[list[i].id])
    && (forall i, j | 0 <= i < j < |list| :: list[i].row.createdAt <= list[j].row.createdAt)
    && (forall i, k | 0 <= i < |list| && k in rest :: list[i].row.createdAt <= t.rows[k].createdAt)
  }

  lemma ChooseNext(t: Table, now: int, list: seq<Item>, rest: set<nat>, x: nat)
    requires Choosing(t, now, list, rest) && |list| < FETCH_LIMIT && x in rest && x in t.rows
    requires forall k | k in rest :: k in t.rows && t.rows[x].createdAt <= t.rows[k].createdAt
    ensures Choosing(t, now, list + [Item(x, t.rows[x])], rest - {x})
    ensures Ids(list + [Item(x, t.rows[x])]) == Ids(list) + {x}
  {
    hide Backlog;
    IdsAppend(list, Item(x, t.rows[x]));
  }

  lemma ChosenIsFetch(t: Table, now: int, list: seq<Item>, rest: set<nat>)
    requires Choosing(t, now, list, rest) && (rest == {} || |list| == FETCH_LIMIT)
    ensures IsFetch(t, now, list)
  {
    hide Backlog;
    assert Backlog(t, now) - Ids(list) == rest;
  }

  /** A result of the fetch with this row in it, breaking ties in its favour. */
  lemma FetchWith(t: Table, now: int, id: nat) returns (list: seq<Item>)
    requires id in Backlog(t, now) && |OlderBacklog(t, now, id)| < FETCH_LIMIT
    ensures IsFetch(t, now, list) && id in Ids(list)
  {
    var rest, older := Backlog(t, now), OlderBacklog(t, now, id);
    list := [];
    assert Ids(list) == {};
    while rest != {} && |list| < FETCH_LIMIT
      invariant rest <= Backlog(t, now) && Choosing(t, now, list, rest)
      invariant id in Ids(list) || (id in rest && Ids(list) <= older)
      decreases rest
    {
      hide Choosing;
      var x := OldestOf(t, rest);
      if id in rest && t.rows[id].createdAt == t.rows[x].createdAt {
        x := id;
      }
      ChooseNext(t, now, list, rest, x);
      list, rest := list + [Item(x, t.rows[x])], rest - {x};
    }
    ChosenIsFetch(t, now, list, rest);
    if id !in Ids(list) {
      CountIds(list);
      SubsetCount(Ids(list), older);
    }
  }

  /** Some result of the fetch, whatever the table. */
  lemma FetchExists(t: Table, now: int) returns (list: seq<Item>)
    ensures IsFetch(t, now, list)
  {
    if Backlog(t, now) == {} {
      list := [];
      assert Ids(list) == {};
    } else {
      var x := OldestOf(t, Backlog(t, now));
      assert OlderBacklog(t, now, x) == {};
      list := FetchWith(t, now, x);
    }
  }

  /** The fetch may return a row exactly when it is in the backlog behind fewer than a hundred older rows. */
  lemma FetchReaches(t: Table, now: int, id: nat)
    requires id in t.rows
    ensures (exists list :: IsFetch(t, now, list) && id in Ids(list))
            <==> id in Backlog(t, now) && |OlderBacklog(t, now, id)| < FETCH_LIMIT
  {
    hide IsFetch, Backlog, OlderBacklog, Ids;
    if id in Backlog(t, now) && |OlderBacklog(t, now, id)| < FETCH_LIMIT {
      var list := FetchWith(t, now, id);
    }
    forall list | IsFetch(t, now, list) && id in Ids(list)
      ensures id in Backlog(t, now) && |OlderBacklog(t, now, id)| < FETCH_LIMIT
    {
      OldestFirst(t, now, list, id);
      FetchedInBacklog(t, now, list);
    }
  }

  lemma FetchedInBacklog(t: Table, now: int, list: seq<Item>)
    requires IsFetch(t, now, list)
    ensures Ids(list) <= Backlog(t, now)
  {
  }

  // ----- Cycles that cannot decide ------------------------------------------------------------

  /** Cycles one after the other at these times, every scan of which comes back unverified. */
  ghost predicate Undecided(t: Table, times: seq<int>, cycles: seq<Cycle>)
    decreases |cycles|
  {
    |times| == |cycles|
    && (cycles == []
        || (cycles[0].now == times[0] && IsFetch(t, times[0], cycles[0].list)
            && (forall i: nat :: cycles[0].scan(i) == Unverified)
            && Undecided(AfterCycle(t, cycles[0]), times[1..], cycles[1..])))
  }

  predicate Tried(cycles: seq<Cycle>, id: nat) { exists k :: 0 <= k < |cycles| && id in Ids(cycles[k].list) }

  /** The moments at which the row can be among the hundred fetched. */
  predicate InReach(t: Table, times: seq<int>, id: nat)
    requires id in t.rows
  {
    exists k :: 0 <= k < |times| && id in Backlog(t, times[k]) && |OlderBacklog(t, times[k], id)| < FETCH_LIMIT
  }

  lemma UndecidedHead(t: Table, times: seq<int>, cycles: seq<Cycle>)
    requires cycles != [] && Undecided(t, times, cycles)
    ensures AfterCycle(t, cycles[0]) == t && Undecided(t, times[1..], cycles[1..])
    ensures IsFetch(t, times[0], cycles[0].list)
  {
    hide IsFetch;
    FetchedUnverified(t, times[0], cycles[0].list);
    InconclusiveCycle(t, cycles[0].list, cycles[0].scan);
  }

  /** Such cycles change nothing, and each fetches what the table allows at its time. */
  lemma {:induction false} UndecidedCycles(t: Table, times: seq<int>, cycles: seq<Cycle>)
    requires Undecided(t, times, cycles)
    ensures |times| == |cycles| && AfterCycles(t, cycles) == t
    ensures forall k | 0 <= k < |cycles| :: IsFetch(t, times[k], cycles[k].list)
    decreases |cycles|
  {
    hide IsFetch, AfterCycle;
    if cycles != [] {
      UndecidedHead(t, times, cycles);
      UndecidedCycles(t, times[1..], cycles[1..]);
      forall k | 0 <= k < |cycles| ensures IsFetch(t, times[k], cycles[k].list) {
        if k > 0 {
          assert cycles[k] == cycles[1..][k - 1] && times[k] == times[1..][k - 1];
        }
      }
    }
  }

  const NEVER_DECIDES: nat -> Status := (_: nat) => Unverified

  /** Cycles at the given times, the k-th of which fetches the row. */
  lemma {:induction false} CyclesTrying(t: Table, times: seq<int>, k: int, id: nat) returns (cycles: seq<Cycle>)
    requires 0 <= k < |times| ==>
               id in Backlog(t, times[k]) && |OlderBacklog(t, times[k], id)| < FETCH_LIMIT
    ensures Undecided(t, times, cycles) && |cycles| == |times|
    ensures 0 <= k < |times| ==> id in Ids(cycles[k].list)
    decreases |times|
  {
    hide IsFetch, Backlog, OlderBacklog;
    if times == [] {
      cycles := [];
    } else {
      var list;
      if k == 0 {
        list := FetchWith(t, times[0], id);
      } else {
        list := FetchExists(t, times[0]);
      }
      assert 0 < k < |times| ==> times[1..][k - 1] == times[k];
      var rest := CyclesTrying(t, times[1..], k - 1, id);
      var c := Cycle(times[0], list, NEVER_DECIDES);
      FetchedUnverified(t, times[0], list);
      InconclusiveCycle(t, list, NEVER_DECIDES);
      cycles := [c] + rest;
      assert cycles[1..] == rest;
    }
  }

  /**
   * While the scanner cannot decide, cycles at given times can try a row exactly when at one of those times it is in the
   * backlog behind fewer than a hundred older rows; a row that never is starves, in every run of cycles of any length.
   */
  lemma StarvationTheorem(t: Table, times: seq<int>, id: nat)
    requires id in t.rows
    ensures (exists cycles: seq<Cycle> :: Undecided(t, times, cycles) && Tried(cycles, id)) <==> InReach(t, times, id)
  {
    hide Undecided, IsFetch, Backlog, OlderBacklog, Ids;
    forall cycles: seq<Cycle> | Undecided(t, times, cycles) && Tried(cycles, id) ensures InReach(t, times, id) {
      UndecidedCycles(t, times, cycles);
      var k :| 0 <= k < |cycles| && id in Ids(cycles[k].list);
      OldestFirst(t, times[k], cycles[k].list, id);
      FetchedInBacklog(t, times[k], cycles[k].list);
    }
    if InReach(t, times, id) {
      var k :| 0 <= k < |times| && id in Backlog(t, times[k]) && |OlderBacklog(t, times[k], id)| < FETCH_LIMIT;
      var cycles := CyclesTrying(t, times, k, id);
      assert Tried(cycles, id);
    }
  }

  lemma FetchedUnverified(t: Table, now: int, list: seq<Item>)
    requires IsFetch(t, now, list)
    ensures forall i | 0 <= i < |list| :: list[i].id in t.rows && t.rows[list[i].id].status == Unverified
  {
    forall i | 0 <= i < |list| ensures t.rows[list[i].id].status == Unverified {
      assert list[i].id in Ids(list);
    }
  }

  // ----- A table in which a row starves -------------------------------------------------------

  /** Links 1 to n, created one after the other, that no scan has decided. */
  function Undecidable(n: nat, urls: nat -> string): Table
    requires n < TWO_64 - 1
  {
    Table(map id: nat | 1 <= id <= n :: Row(LinkOf(id), urls(id), id, None, Unverified), n + 1)
  }

  function UpTo(n: nat): (s: set<nat>)
    ensures |s| == n
    ensures forall k: nat :: k in s <==> 1 <= k <= n
  {
    if n == 0 then {} else UpTo(n - 1) + {n}
  }

  /** In this well-formed table cycles can try exactly the first hundred links; those after them starve. */
  lemma LateLinksStarve(n: nat, urls: nat -> string, times: seq<int>, id: nat)
    requires n < TWO_64 - 1 && 1 <= id <= n
    ensures WellFormed(Undecidable(n, urls))
    ensures (exists cycles: seq<Cycle> :: Undecided(Undecidable(n, urls), times, cycles) && Tried(cycles, id))
            <==> times != [] && id <= FETCH_LIMIT
  {
    var t := Undecidable(n, urls);
    UndecidableForm(n, urls);
    hide Undecided, Undecidable, LinkOf, WellFormed, OlderBacklog, Backlog, Tried;
    StarvationTheorem(t, times, id);
    forall k | 0 <= k < |times| ensures id in Backlog(t, times[k]) && |OlderBacklog(t, times[k], id)| == id - 1 {
      OlderCount(n, urls, times[k], id);
    }
    if times != [] {
      assert 0 <= 0 < |times| && id in Backlog(t, times[0]);
    }
  }

  lemma UndecidableForm(n: nat, urls: nat -> string)
    requires n < TWO_64 - 1
    ensures WellFormed(Undecidable(n, urls)) && forall id | 1 <= id <= n :: id in Undecidable(n, urls).rows
  {
    forall id | id in Undecidable(n, urls).rows ensures LinkOf(id) != "" {
      LinksDiffer(id, id);
    }
    hide LinkOf;
  }

  lemma OlderCount(n: nat, urls: nat -> string, now: int, id: nat)
    requires n < TWO_64 - 1 && 1 <= id <= n
    ensures id in Backlog(Undecidable(n, urls), now) && id in Undecidable(n, urls).rows
    ensures |OlderBacklog(Undecidable(n, urls), now, id)| == id - 1
  {
    hide LinkOf;
    assert OlderBacklog(Undecidable(n, urls), now, id) == UpTo(id - 1);
  }
}
