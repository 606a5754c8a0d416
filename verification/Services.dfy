/**
 * The objects of the running service, updated in place: repositories over the tables, the Redis cache, and the four
 * services, each method proved against the whole-call specification of module Requests. Clock readings, scanner
 * answers and faults are parameters.
 */
module Services {
  import opened Wrappers
  import opened Base62
  import opened Anonymize
  import opened Store
  import opened Requests

  // ----- internal/repository/mysql ------------------------------------------------------------

  class URLRepository {
    var table: Table

    ghost predicate Valid()
      reads this
    {
      WellFormed(table)
    }

    constructor (t: Table)
      requires WellFormed(t)
      ensures Valid() && table == t
    {
      table := t;
    }

    /** INSERT: the id of the new row, or None when the caller sees an error. */
    method Create(url: string, expiresAt: int, now: int, fault: Fault) returns (id: Option<nat>)
      modifies this
      ensures fault == Fails ==> table == old(table) && id == None
      ensures fault != Fails && !CanInsert(old(table)) ==> table == Burned(old(table)) && id == None
      ensures fault != Fails && CanInsert(old(table)) ==>
                && table == Inserted(old(table), url, now, expiresAt)
                && id == if fault == Fine then Some(old(table.nextId)) else None
      // the same, spelt out
      ensures id.Some? ==> (forall k | k in old(table.rows) :: old(table.rows)[k].hash != "") && old(table.nextId) < TWO_64
      ensures id.Some? ==>
                && table.nextId == old(table.nextId) + 1
                && table.rows == old(table.rows)[id.value := Row("", url, now, Some(expiresAt), Pending)]
      ensures fault != Fails && (exists k | k in old(table.rows) :: old(table.rows)[k].hash == "") ==>
                && table.rows == old(table.rows)
                && table.nextId == old(table.nextId) + (if old(table.nextId) < TWO_64 then 1 else 0)
    {
      if fault == Fails {
        return None;
      }
      if !CanInsert(table) {
        table := Burned(table);
        return None;
      }
      var next := table.nextId;
      table := Inserted(table, url, now, expiresAt);
      return if fault == Fine then Some(next) else None;
    }

    method FindByHash(h: string) returns (r: Option<(nat, Row)>)
      requires Valid()
      ensures match Store.FindByHash(table, h)
              case None => r == None
              case Some(id) => r == Some((id, table.rows[id]))
      ensures r.None? <==> forall id | id in table.rows :: table.rows[id].hash != h
      ensures r.Some? ==> r.value.0 in table.rows && r.value.1 == table.rows[r.value.0] && r.value.1.hash == h
    {
      if id :| id in table.rows && table.rows[id].hash == h {
        HashIsUnique(table, id, h);
        r := Some((id, table.rows[id]));
      } else {
        r := None;
      }
    }

    method FindByOriginalURL(url: string, now: int) returns (pick: Option<nat>)
      ensures IsDedupPick(table, url, now, pick)
      ensures pick.Some? ==>
                && pick.value in table.rows && table.rows[pick.value].url == url
                && (table.rows[pick.value].expiresAt.Some? ==> table.rows[pick.value].expiresAt.value > now)
      ensures pick.None? ==> forall id | id in table.rows && table.rows[id].url == url ::
                               table.rows[id].expiresAt.Some? && table.rows[id].expiresAt.value <= now
    {
      if id :| id in table.rows && IsDuplicateOf(table, url, now, id) {
        pick := Some(id);
      } else {
        pick := None;
      }
    }

    /** UPDATE of one hash: false when the caller sees an error, be it the UNIQUE key's or another. */
    method UpdateHash(id: nat, h: string, fault: Fault) returns (ok: bool)
      modifies this
      ensures ok <==> fault == Fine && CanSetHash(old(table), id, h)
      ensures table == if fault == Fails || !CanSetHash(old(table), id, h) then old(table) else AfterHash(old(table), id, h)
      ensures ok ==> forall k | k in old(table.rows) && k != id :: old(table.rows)[k].hash != h
      ensures ok && id in old(table.rows) ==>
                table == old(table).(rows := old(table.rows)[id := old(table.rows)[id].(hash := h)])
      ensures id !in old(table.rows) ==> table == old(table)
    {
      if fault == Fails || !CanSetHash(table, id, h) {
        return false;
      }
      table := AfterHash(table, id, h);
      return fault == Fine;
    }

    method UpdateStatus(id: nat, status: Status, fails: bool) returns (ok: bool)
      modifies this
      ensures ok == !fails
      ensures table == if fails then old(table) else AfterStatus(old(table), id, status)
      ensures table == if fails || id !in old(table.rows) then old(table)
                       else old(table).(rows := old(table.rows)[id := old(table.rows)[id].(status := status)])
    {
      if !fails {
        table := AfterStatus(table, id, status);
      }
      return !fails;
    }

    /** ORDER BY created_at ASC LIMIT 100 over the unverified, unexpired rows. */
    method FindUnverified(now: int) returns (list: seq<Item>)
      ensures IsFetch(table, now, list)
      ensures |list| <= 100
      ensures forall i | 0 <= i < |list| ::
                && list[i].id in table.rows && list[i].row == table.rows[list[i].id]
                && list[i].row.status == Unverified
                && (list[i].row.expiresAt.Some? ==> list[i].row.expiresAt.value > now)
    {
      var rest := Backlog(table, now);
      list := [];
      while rest != {} && |list| < FETCH_LIMIT
        invariant rest + Ids(list) == Backlog(table, now) && rest !! Ids(list)
        invariant DistinctIds(list) && |list| <= FETCH_LIMIT
        invariant forall i | 0 <= i < |list| :: list[i].id in table.rows && list[i].row == table.rows[list[i].id]
        invariant forall i, j | 0 <= i < j < |list| :: list[i].row.createdAt <= list[j].row.createdAt
        invariant forall i, id | 0 <= i < |list| && id in rest :: list[i].row.createdAt <= table.rows[id].createdAt
        decreases rest
      {
        var id := Oldest(rest);
        IdsAppend(list, Item(id, table.rows[id]));
        list := list + [Item(id, table.rows[id])];
        rest := rest - {id};
      }
      assert Backlog(table, now) - Ids(list) == rest;
      forall i | 0 <= i < |list| ensures list[i].id in Backlog(table, now) {
        assert list[i].id in Ids(list);
      }
    }

    method Oldest(ids: set<nat>) returns (oldest: nat)
      requires ids != {} && ids <= table.rows.Keys
      ensures oldest in ids
      ensures forall id | id in ids :: table.rows[oldest].createdAt <= table.rows[id].createdAt
    {
      oldest :| oldest in ids;
      var rest := ids - {oldest};
      while rest != {}
        invariant oldest in ids && rest <= ids
        invariant forall id | id in ids - rest :: table.rows[oldest].createdAt <= table.rows[id].createdAt
        decreases rest
      {
        var id :| id in rest;
        if table.rows[id].createdAt < table.rows[oldest].createdAt {
          oldest := id;
        }
        rest := rest - {id};
      }
    }
  }

  lemma IdsAppend(list: seq<Item>, item: Item)
    ensures Ids(list + [item]) == Ids(list) + {item.id}
  {
    var more := list + [item];
    forall id | id in Ids(list) + {item.id} ensures id in Ids(more) {
      if id == item.id {
        assert more[|list|].id == id;
      } else {
        var i :| 0 <= i < |list| && list[i].id == id;
        assert more[i].id == id;
      }
    }
  }

  class ReportRepository {
    var reports: Reports

    constructor ()
      ensures reports == {}
    {
      reports := {};
    }

    /** INSERT under UNIQUE (url_id, reporter_ip). */
    method Insert(id: nat, reporter: Reporter, fault: Fault) returns (r: Result<(), bool>)
      modifies this
      // Err(true) is the duplicate entry
      ensures fault == Fails ==> reports == old(reports) && r == Err(false)
      ensures fault != Fails && (id, reporter) in old(reports) ==> reports == old(reports) && r == Err(true)
      ensures fault != Fails && (id, reporter) !in old(reports) ==>
                reports == old(reports) + {(id, reporter)} && r == if fault == Fine then Ok(()) else Err(false)
    {
      if fault == Fails {
        return Err(false);
      }
      if (id, reporter) in reports {
        return Err(true);
      }
      reports := reports + {(id, reporter)};
      return if fault == Fine then Ok(()) else Err(false);
    }

    method CountDistinctIPs(id: nat) returns (n: nat)
      ensures n == |ReportersOf(reports, id)|
      ensures n == |set row | row in reports && row.0 == id|
    {
      var rest, seen := reports, {};
      n := 0;
      while rest != {}
        invariant rest <= reports
        invariant seen == ReportersOf(reports - rest, id) && n == |seen|
        decreases rest
      {
        var row :| row in rest;
        ReportersGrow(reports - rest, id, row);
        assert reports - (rest - {row}) == reports - rest + {row};
        if row.0 == id && row.1 !in seen {
          seen, n := seen + {row.1}, n + 1;
        }
        rest := rest - {row};
      }
      assert reports - rest == reports;
      RowsAreReporters(reports, id);
    }
  }

  // ----- internal/repository/redis ------------------------------------------------------------

  class RedisURLCache {
    var c: Cache

    constructor ()
      ensures c == EMPTY_CACHE
    {
      c := EMPTY_CACHE;
    }

    method Get(h: string, now: int) returns (hit: Option<Hit>)
      ensures hit == Lookup(c, h, now)
      ensures hit.Some? <==> h in c.urls && now < c.urls[h].deadline
      ensures hit.Some? ==>
                && hit.value.url == c.urls[h].url && hit.value.status == c.urls[h].status
                && hit.value.id == if h in c.metas && now < c.metas[h].deadline then c.metas[h].id else 0
    {
      if h !in c.urls || c.urls[h].deadline <= now {
        return None;
      }
      var id := 0;
      if h in c.metas && now < c.metas[h].deadline {
        id := c.metas[h].id;
      }
      return Some(Hit(c.urls[h].url, c.urls[h].status, id));
    }

    /** A pipeline of two SETs without a transaction: either may be lost. */
    method Set(h: string, url: string, status: Status, id: nat, deadline: int, urlLost: bool, metaLost: bool) returns (ok: bool)
      modifies this
      ensures c == Filled(old(c), h, url, status, id, deadline, urlLost, metaLost)
      ensures ok <==> !urlLost && !metaLost
      ensures c.urls == if urlLost then old(c.urls) else old(c.urls)[h := UrlEntry(url, status, deadline)]
      ensures c.metas == if metaLost then old(c.metas) else old(c.metas)[h := MetaEntry(id, deadline)]
    {
      if !urlLost {
        c := c.(urls := c.urls[h := UrlEntry(url, status, deadline)]);
      }
      if !metaLost {
        c := c.(metas := c.metas[h := MetaEntry(id, deadline)]);
      }
      return !urlLost && !metaLost;
    }

    method Delete(h: string, lost: bool) returns (ok: bool)
      modifies this
      ensures c == Evicted(old(c), h, lost) && ok == !lost
      ensures c == if lost then old(c) else Cache(old(c.urls) - {h}, old(c.metas) - {h})
    {
      if !lost {
        c := Cache(c.urls - {h}, c.metas - {h});
      }
      return !lost;
    }
  }

  // ----- internal/service/redirector.go -------------------------------------------------------

  class Redirector {
    const cfg: Config
    const repo: URLRepository
    const cache: RedisURLCache?

    constructor (cfg: Config, repo: URLRepository, cache: RedisURLCache?)
      ensures this.cfg == cfg && this.repo == repo && this.cache == cache
    {
      this.cfg, this.repo, this.cache := cfg, repo, cache;
    }

    method Resolve(h: string, now: int, f: ResolveFaults) returns (a: Answer)
      requires repo.Valid()
      modifies if cache != null then {cache} else {}
      ensures cache == null ==> a == ResolveUncached(cfg, repo.table, h, now, f)
      ensures cache != null ==> (a, cache.c) == ResolveCached(cfg, repo.table, old(cache.c), h, now, f)
      // without a live url entry the rows decide
      ensures cache == null || f.getFails || h !in old(cache.c.urls) || old(cache.c.urls)[h].deadline <= now ==>
                && (a == Broken <==> f.findFails)
                && (a == Unknown <==> !f.findFails && forall id | id in repo.table.rows :: repo.table.rows[id].hash != h)
                && (forall id | id in repo.table.rows && repo.table.rows[id].hash == h && !f.findFails ::
                      var row := repo.table.rows[id];
                      a == if row.expiresAt.Some? && row.expiresAt.value < now then Gone
                           else if !cfg.web(row.url) then BadScheme
                           else if row.status == Malicious then Refused
                           else Served(row.url, id, row.status))
    {
      hide WellFormed, Lookup, Filled, Evicted;
      if cache != null && !f.getFails {
        var hit := cache.Get(h, now);
        if hit.Some? {
          if hit.value.status == Malicious {
            var _ := cache.Delete(h, f.delLost);
            return Refused;
          }
          return Served(hit.value.url, hit.value.id, hit.value.status);
        }
      }
      if f.findFails {
        return Broken;
      }
      var found := repo.FindByHash(h);
      if found.None? {
        return Unknown;
      }
      var (id, u) := found.value;
      OnlyRow(repo.table, id, h);
      if u.expiresAt.Some? && u.expiresAt.value < now {
        return Gone;
      }
      if !cfg.web(u.url) {
        return BadScheme;
      }
      if u.status == Malicious {
        if cache != null {
          var _ := cache.Delete(h, f.delLost);
        }
        return Refused;
      }
      if cache != null {
        var _ := cache.Set(h, u.url, u.status, id, now + cfg.cacheTTL, f.urlLost, f.metaLost);
      }
      return Served(u.url, id, u.status);
    }
  }

  // ----- internal/service/shortener.go --------------------------------------------------------

  class Shortener {
    const cfg: Config
    const repo: URLRepository
    const cache: RedisURLCache?

    constructor (cfg: Config, repo: URLRepository, cache: RedisURLCache?)
      ensures this.cfg == cfg && this.repo == repo && this.cache == cache
    {
      this.cfg, this.repo, this.cache := cfg, repo, cache;
    }

    /** pick is the row that the dedup query happened to return. */
    method Shorten(raw: string, now: int, scan: Status, f: ShortenFaults) returns (a: ShortenAnswer, pick: Option<nat>)
      requires repo.Valid()
      modifies repo, if cache != null then {cache} else {}
      ensures cfg.accept(raw).Some? && !f.dedupFails ==>
                IsDedupPick(old(repo.table), cfg.accept(raw).value, now, pick)
      ensures cache == null ==>
                var r := ShortenResult(cfg, old(repo.table), EMPTY_CACHE, raw, now, pick, scan, f);
                a == r.0 && repo.table == r.1
      ensures cache != null ==>
                (a, repo.table, cache.c) == ShortenResult(cfg, old(repo.table), old(cache.c), raw, now, pick, scan, f)
      ensures a.Created? ==>
                && cfg.accept(raw).Some? && a.id < TWO_64 && a.hash == Encoded(a.id) && a.status == scan
                && a.id in repo.table.rows && repo.table.rows[a.id].hash == a.hash
                && repo.table.rows[a.id].url == cfg.accept(raw).value
                && repo.table.rows[a.id].expiresAt == Some(now + cfg.linkTTL)
    {
      pick := None;
      var url := cfg.accept(raw);
      if url.None? {
        return Rejected, pick;
      }
      if f.dedupFails {
        return DedupFailed, pick;
      }
      pick := repo.FindByOriginalURL(url.value, now);
      if pick.Some? {
        return Existing(pick.value), pick;
      }
      if scan == Malicious {
        return Flagged, pick;
      }
      var id := repo.Create(url.value, now + cfg.linkTTL, now, f.create);
      if id.None? {
        return CreateFailed, pick;
      }
      var h := LinkOf(id.value);
      var stored := repo.UpdateHash(id.value, h, f.hash);
      if !stored {
        return HashFailed, pick;
      }
      var _ := repo.UpdateStatus(id.value, scan, f.statusFails);
      if cache != null {
        var _ := cache.Set(h, url.value, scan, id.value, now + cfg.linkTTL, f.urlLost, f.metaLost);
      }
      return Created(id.value, h, scan), pick;
    }
  }

  // ----- internal/service/report.go -----------------------------------------------------------

  class Reporting {
    const cfg: Config
    const repo: URLRepository
    const reports: ReportRepository
    const cache: RedisURLCache

    constructor (cfg: Config, repo: URLRepository, reports: ReportRepository, cache: RedisURLCache)
      ensures this.cfg == cfg && this.repo == repo && this.reports == reports && this.cache == cache
    {
      this.cfg, this.repo, this.reports, this.cache := cfg, repo, reports, cache;
    }

    method Report(h: string, address: Option<Address>, reason: string, f: ReportFaults) returns (a: ReportAnswer)
      requires repo.Valid()
      modifies repo, reports, cache
      ensures (a, repo.table, cache.c, reports.reports)
              == ReportResult(cfg, old(repo.table), old(cache.c), old(reports.reports), h, address, reason, f)
      ensures a == NoSuchLink <==> !f.findFails && forall id | id in old(repo.table.rows) :: old(repo.table.rows)[id].hash != h
      ensures forall id | id in old(repo.table.rows) && old(repo.table.rows)[id].hash == h && !f.findFails ::
                var key := (id, Masked(address));
                && (a == Accepted ==> key !in old(reports.reports) && reports.reports == old(reports.reports) + {key})
                && (a == Duplicate ==> key in old(reports.reports) && reports.reports == old(reports.reports))
                && (a == InvalidReason <==> reason !in {"phishing", "malware", "spam", "illegal", "other"})
    {
      hide WellFormed, Masked, ReportersOf, AfterStatus, Evicted;
      if f.findFails {
        return FindFailed;
      }
      var found := repo.FindByHash(h);
      if found.None? {
        return NoSuchLink;
      }
      var id := found.value.0;
      OnlyRow(repo.table, id, h);
      if !IsValidReason(reason) {
        return InvalidReason;
      }
      var inserted := reports.Insert(id, Masked(address), f.insert);
      if inserted.Err? {
        return if inserted.error then Duplicate else InsertFailed;
      }
      if f.countFails {
        return Accepted;
      }
      var count := reports.CountDistinctIPs(id);
      if count >= cfg.threshold {
        var _ := repo.UpdateStatus(id, Malicious, f.statusFails);
        var _ := cache.Delete(h, f.delLost);
      }
      return Accepted;
    }
  }
}
