/** What every interleaving keeps: row hashes, the empty-hash lock, and where cache entries come from. */
module Provenance {
  import opened Wrappers
  import opened Base62
  import opened Store
  import opened Links

  // ----- The invariant ------------------------------------------------------------------------

  /** A row and a snapshot of it agree on everything but status (and, in a snapshot, a hash not yet assigned). */
  predicate SameLink(a: Row, b: Row) {
    a.url == b.url && a.createdAt == b.createdAt && a.expiresAt == b.expiresAt
  }

  predicate JobOk(cfg: Config, t: Table, now: int, j: FillJob) {
    && j.h != "" && RowOf(t, j.id, j.h)
    && j.url == t.rows[j.id].url && cfg.web(j.url) && j.status != Malicious
    && j.since <= now
    && (j.ttl == cfg.cacheTTL || j.ttl == cfg.linkTTL)
    && (t.rows[j.id].expiresAt.Some? ==> j.since + j.ttl <= t.rows[j.id].expiresAt.value + cfg.cacheTTL)
  }

  predicate OwnRow(cfg: Config, t: Table, now: int, url: string, status: Status, at: int, id: nat, h: string) {
    && RowOf(t, id, h)
    && t.rows[id].url == url && t.rows[id].expiresAt == Some(at + cfg.linkTTL)
    && cfg.web(url) && status != Malicious && at <= now
  }

  predicate ListOk(t: Table, list: seq<Item>) {
    && list != []
    && forall i | 0 <= i < |list| ::
      && list[i].id in t.rows
      && SameLink(list[i].row, t.rows[list[i].id])
      && (list[i].row.hash == "" || list[i].row.hash == t.rows[list[i].id].hash)
  }

  predicate ProcOk(cfg: Config, t: Table, now: int, q: Proc) {
    match q
    case ResGet(h) => h != ""
    case ResFind(h) => h != ""
    case ResCheck(h, id, row, readAt) =>
      h != "" && RowOf(t, id, h) && row.hash == h && SameLink(row, t.rows[id]) && readAt <= now
    case ShDedup(url) => cfg.web(url)
    case ShScan(url) => cfg.web(url)
    case ShCreate(url, status, at) => cfg.web(url) && status != Malicious && at <= now
    case ShHash(url, status, at, id) => OwnRow(cfg, t, now, url, status, at, id, "")
    case ShStatus(url, status, at, id) => id < TWO_64 && OwnRow(cfg, t, now, url, status, at, id, LinkOf(id))
    case FillUrl(j) => JobOk(cfg, t, now, j)
    case FillMeta(j) => JobOk(cfg, t, now, j)
    case Evict(_) => true
    case RpFind(h, _, _) => h != ""
    case RpInsert(h, id, _) => h != "" && RowOf(t, id, h)
    case RpCount(h, id) => h != "" && RowOf(t, id, h)
    case RpBlock(h, id) => h != "" && RowOf(t, id, h)
    case RsFetch => true
    case RsScan(list) => ListOk(t, list)
    case RsWrite(list, _) => ListOk(t, list)
    case RsEvict(list) => ListOk(t, list)
  }

  ghost predicate ProcsOk(cfg: Config, s: Sys) {
    && (forall p | p in s.procs :: ProcOk(cfg, s.table, s.now, s.procs[p]))
    && (forall p, q | p in s.procs && q in s.procs && s.procs[p].ShHash? && s.procs[q].ShHash? :: p == q)
  }

  ghost predicate UrlEntryOk(cfg: Config, t: Table, h: string, e: UrlEntry, id: nat) {
    RowOf(t, id, h) && e.url == t.rows[id].url && cfg.web(e.url) && e.status != Malicious
  }

  ghost predicate CacheOk(cfg: Config, t: Table, c: Cache) {
    && (forall h | h in c.urls :: h != "" && exists id :: UrlEntryOk(cfg, t, h, c.urls[h], id))
    && (forall h | h in c.metas :: h != "" && RowOf(t, c.metas[h].id, h))
  }

  ghost predicate Inv(cfg: Config, s: Sys) {
    WellFormed(s.table) && ProcsOk(cfg, s) && CacheOk(cfg, s.table, s.cache)
  }

  // ----- Stability under other requests' steps ------------------------------------------------

  lemma ProcStable(cfg: Config, t: Table, u: Table, now: int, later: int, q: Proc)
    requires Extends(t, u) && now <= later && ProcOk(cfg, t, now, q)
    requires q.ShHash? && q.id in u.rows ==> u.rows[q.id].hash == ""
    requires WellFormed(t)
    ensures ProcOk(cfg, u, later, q)
  {
    if q.ShStatus? {
      LinksDiffer(q.id, q.id);
    }
  }

  lemma CacheStable(cfg: Config, t: Table, u: Table, c: Cache)
    requires Extends(t, u) && CacheOk(cfg, t, c)
    ensures CacheOk(cfg, u, c)
  {
    forall h | h in c.urls ensures h != "" && exists id :: UrlEntryOk(cfg, u, h, c.urls[h], id) {
      var id :| UrlEntryOk(cfg, t, h, c.urls[h], id);
      assert UrlEntryOk(cfg, u, h, c.urls[h], id);
    }
  }

  // ----- One step -----------------------------------------------------------------------------

  /** What one request's step does to the table, and the shape of its next operation. */
  ghost predicate GoodStep(cfg: Config, s: Sys, s': Sys, p: nat) {
    && s'.now == s.now
    && WellFormed(s'.table) && Extends(s.table, s'.table)
    && CacheOk(cfg, s'.table, s'.cache)
    && s'.procs - {p} == s.procs - {p}
    && (p in s'.procs ==> ProcOk(cfg, s'.table, s'.now, s'.procs[p]))
    // the empty-hash row: taken only when there was none, released only by its owner
    && (forall id | id in s.table.rows && s.table.rows[id].hash == "" && s'.table.rows[id].hash != "" ::
          p in s.procs && s.procs[p].ShHash? && s.procs[p].id == id)
    && (p in s'.procs && s'.procs[p].ShHash? ==> !HashTaken(s.table, ""))
  }

  /** A step that leaves the table alone. */
  lemma TableKept(cfg: Config, s: Sys, s': Sys, p: nat)
    requires Inv(cfg, s) && s'.now == s.now && s'.table == s.table && CacheOk(cfg, s.table, s'.cache)
    requires s'.procs - {p} == s.procs - {p}
    requires p in s'.procs ==> ProcOk(cfg, s.table, s.now, s'.procs[p]) && !s'.procs[p].ShHash?
    ensures GoodStep(cfg, s, s', p)
  {
    hide CacheOk, WellFormed, ProcOk;
  }

  /** A step that sets the status of one row. */
  lemma StatusSet(cfg: Config, s: Sys, s': Sys, p: nat, id: nat, status: Status)
    requires Inv(cfg, s) && s'.now == s.now && s'.table == AfterStatus(s.table, id, status) && s'.cache == s.cache
    requires s'.procs - {p} == s.procs - {p}
    requires p in s'.procs ==> ProcOk(cfg, s'.table, s.now, s'.procs[p]) && !s'.procs[p].ShHash?
    ensures GoodStep(cfg, s, s', p)
  {
    hide CacheOk, WellFormed, Extends, ProcOk;
    StatusKeepsForm(s.table, id, status);
    CacheStable(cfg, s.table, s'.table, s.cache);
  }

  lemma ResolveStep(cfg: Config, s: Sys, p: nat, io: Io)
    requires ValidConfig(cfg) && Inv(cfg, s) && p in s.procs && IoAllowed(s, s.procs[p], io)
    requires var q := s.procs[p]; q.ResGet? || q.ResFind? || q.ResCheck?
    ensures GoodStep(cfg, s, RunResolve(cfg, s, p, s.procs[p], io), p)
  {
    hide GoodStep, CacheOk, WellFormed, Lookup, IoAllowed;
    assert ProcOk(cfg, s.table, s.now, s.procs[p]);
    TableKept(cfg, s, RunResolve(cfg, s, p, s.procs[p], io), p);
  }

  lemma CacheStep(cfg: Config, s: Sys, p: nat, io: Io)
    requires ValidConfig(cfg) && Inv(cfg, s) && p in s.procs && IoAllowed(s, s.procs[p], io)
    requires var q := s.procs[p]; q.FillUrl? || q.FillMeta? || q.Evict?
    ensures GoodStep(cfg, s, RunCache(s, p, s.procs[p], io), p)
  {
    var s' := RunCache(s, p, s.procs[p], io);
    forall h | h in s'.cache.urls ensures h != "" && exists id :: UrlEntryOk(cfg, s.table, h, s'.cache.urls[h], id) {
      if s.procs[p].FillUrl? && h == s.procs[p].job.h && io.applied {
        assert UrlEntryOk(cfg, s.table, h, s'.cache.urls[h], s.procs[p].job.id);
      } else {
        assert h in s.cache.urls && s'.cache.urls[h] == s.cache.urls[h];
      }
    }
  }

  lemma ScanSteps(cfg: Config, s: Sys, p: nat, io: Io)
    requires ValidConfig(cfg) && Inv(cfg, s) && p in s.procs && IoAllowed(s, s.procs[p], io)
    requires s.procs[p].ShDedup? || s.procs[p].ShScan?
    ensures GoodStep(cfg, s, RunShorten(cfg, s, p, s.procs[p], io), p)
  {
    hide GoodStep, CacheOk, WellFormed, IsDedupPick;
    assert ProcOk(cfg, s.table, s.now, s.procs[p]);
    TableKept(cfg, s, RunShorten(cfg, s, p, s.procs[p], io), p);
  }

  lemma InsertedStep(cfg: Config, s: Sys, p: nat, io: Io)
    requires ValidConfig(cfg) && Inv(cfg, s) && p in s.procs && s.procs[p].ShCreate?
    requires io.applied && CanInsert(s.table)
    ensures GoodStep(cfg, s, RunShorten(cfg, s, p, s.procs[p], io), p)
  {
    hide CacheOk, WellFormed, Extends, ProcOk, CanInsert;
    var q := s.procs[p];
    var u := Inserted(s.table, q.url, s.now, q.stampedAt + cfg.linkTTL);
    assert ProcOk(cfg, s.table, s.now, q);
    InsertKeepsForm(s.table, q.url, s.now, q.stampedAt + cfg.linkTTL);
    CacheStable(cfg, s.table, u, s.cache);
    NewRowOwned(cfg, s.table, s.now, q);
    assert !HashTaken(s.table, "") by { FreeToInsert(s.table); }
    NoneReleased(s.table, u);
  }

  lemma FreeToInsert(t: Table)
    requires CanInsert(t)
    ensures !HashTaken(t, "")
  {
  }

  lemma NoneReleased(t: Table, u: Table)
    requires !HashTaken(t, "")
    ensures forall id | id in t.rows && t.rows[id].hash == "" :: u.rows == t.rows
  {
  }

  lemma NewRowOwned(cfg: Config, t: Table, now: int, q: Proc)
    requires q.ShCreate? && ProcOk(cfg, t, now, q)
    ensures ProcOk(cfg, Inserted(t, q.url, now, q.stampedAt + cfg.linkTTL), now,
                   ShHash(q.url, q.status, q.stampedAt, t.nextId))
  {
  }

  lemma BurnedForm(t: Table)
    requires WellFormed(t)
    ensures WellFormed(Burned(t)) && Extends(t, Burned(t)) && Burned(t).rows == t.rows
  {
  }

  lemma NotInsertedStep(cfg: Config, s: Sys, p: nat, io: Io)
    requires ValidConfig(cfg) && Inv(cfg, s) && p in s.procs && s.procs[p].ShCreate?
    requires !io.applied || !CanInsert(s.table)
    ensures GoodStep(cfg, s, RunShorten(cfg, s, p, s.procs[p], io), p)
  {
    hide CacheOk, ProcOk, CanInsert, WellFormed, Burned, Extends;
    BurnedForm(s.table);
    SelfExtends(s.table);
    CacheStable(cfg, s.table, Burned(s.table), s.cache);
  }

  lemma SelfExtends(t: Table)
    ensures Extends(t, t)
  {
  }

  lemma CreateStep(cfg: Config, s: Sys, p: nat, io: Io)
    requires ValidConfig(cfg) && Inv(cfg, s) && p in s.procs && s.procs[p].ShCreate?
    ensures GoodStep(cfg, s, RunShorten(cfg, s, p, s.procs[p], io), p)
  {
    hide ValidConfig, Inv, GoodStep, RunShorten, CanInsert;
    if io.applied && CanInsert(s.table) {
      InsertedStep(cfg, s, p, io);
    } else {
      NotInsertedStep(cfg, s, p, io);
    }
  }

  /** Assigning the blank row its link: the owner moves on to the status write. */
  lemma NamedRow(cfg: Config, t: Table, now: int, q: Proc)
    requires WellFormed(t) && q.ShHash? && ProcOk(cfg, t, now, q)
    ensures var u := AfterHash(t, q.id, LinkOf(q.id));
            && WellFormed(u) && Extends(t, u)
            && ProcOk(cfg, u, now, ShStatus(q.url, q.status, q.stampedAt, q.id))
            && forall id | id in t.rows && t.rows[id].hash == "" && u.rows[id].hash != "" :: id == q.id
  {
    HashKeepsForm(t, q.id);
    LinksDiffer(q.id, q.id);
    hide WellFormed, CanSetHash, LinkOf;
  }

  lemma HashStep(cfg: Config, s: Sys, p: nat, io: Io)
    requires ValidConfig(cfg) && Inv(cfg, s) && p in s.procs && s.procs[p].ShHash?
    ensures GoodStep(cfg, s, RunShorten(cfg, s, p, s.procs[p], io), p)
  {
    hide CacheOk, WellFormed, Extends, ProcOk, CanSetHash, LinkOf, AfterHash;
    var q, s' := s.procs[p], RunShorten(cfg, s, p, s.procs[p], io);
    NamedRow(cfg, s.table, s.now, q);
    SelfExtends(s.table);
    CacheStable(cfg, s.table, s'.table, s.cache);
  }

  lemma FirstStatusStep(cfg: Config, s: Sys, p: nat, io: Io)
    requires ValidConfig(cfg) && Inv(cfg, s) && p in s.procs && s.procs[p].ShStatus?
    ensures GoodStep(cfg, s, RunShorten(cfg, s, p, s.procs[p], io), p)
  {
    hide GoodStep, CacheOk, WellFormed, LinkOf;
    var q, s' := s.procs[p], RunShorten(cfg, s, p, s.procs[p], io);
    assert ProcOk(cfg, s.table, s.now, q);
    assert LinkOf(q.id) != "" by { LinksDiffer(q.id, q.id); }
    assert JobOk(cfg, s'.table, s.now, s'.procs[p].job);
    if io.applied {
      StatusSet(cfg, s, s', p, q.id, q.status);
    } else {
      TableKept(cfg, s, s', p);
    }
  }

  lemma ShortenStep(cfg: Config, s: Sys, p: nat, io: Io)
    requires ValidConfig(cfg) && Inv(cfg, s) && p in s.procs && IoAllowed(s, s.procs[p], io)
    requires var q := s.procs[p]; q.ShDedup? || q.ShScan? || q.ShCreate? || q.ShHash? || q.ShStatus?
    ensures GoodStep(cfg, s, RunShorten(cfg, s, p, s.procs[p], io), p)
  {
    hide ValidConfig, Inv, IoAllowed, GoodStep, RunShorten;
    if s.procs[p].ShCreate? {
      CreateStep(cfg, s, p, io);
    } else if s.procs[p].ShHash? {
      HashStep(cfg, s, p, io);
    } else if s.procs[p].ShStatus? {
      FirstStatusStep(cfg, s, p, io);
    } else {
      ScanSteps(cfg, s, p, io);
    }
  }

  lemma ReportStep(cfg: Config, s: Sys, p: nat, io: Io)
    requires ValidConfig(cfg) && Inv(cfg, s) && p in s.procs && IoAllowed(s, s.procs[p], io)
    requires var q := s.procs[p]; q.RpFind? || q.RpInsert? || q.RpCount? || q.RpBlock?
    ensures GoodStep(cfg, s, RunReport(cfg, s, p, s.procs[p], io), p)
  {
    hide GoodStep, CacheOk, WellFormed, IsValidReason, ReportersOf, IoAllowed, AfterStatus;
    var q, s' := s.procs[p], RunReport(cfg, s, p, s.procs[p], io);
    assert ProcOk(cfg, s.table, s.now, q);
    if q.RpBlock? && io.applied {
      StatusSet(cfg, s, s', p, q.id, Malicious);
    } else {
      TableKept(cfg, s, s', p);
    }
  }

  lemma ListTail(t: Table, u: Table, list: seq<Item>)
    requires Extends(t, u) && ListOk(t, list)
    ensures ListOk(u, list) && (|list| > 1 ==> ListOk(u, list[1..]))
  {
  }

  lemma RescanWriteStep(cfg: Config, s: Sys, p: nat, io: Io)
    requires ValidConfig(cfg) && Inv(cfg, s) && p in s.procs && IoAllowed(s, s.procs[p], io) && s.procs[p].RsWrite?
    ensures GoodStep(cfg, s, RunRescan(s, p, s.procs[p], io), p)
  {
    hide GoodStep, CacheOk, WellFormed, Extends, ListOk, AfterStatus;
    var q, s' := s.procs[p], RunRescan(s, p, s.procs[p], io);
    assert ProcOk(cfg, s.table, s.now, q);
    StatusKeepsForm(s.table, q.list[0].id, q.status);
    SelfExtends(s.table);
    ListTail(s.table, s'.table, q.list);
    if io.applied {
      StatusSet(cfg, s, s', p, q.list[0].id, q.status);
    } else {
      TableKept(cfg, s, s', p);
    }
  }

  lemma DroppedOk(cfg: Config, t: Table, c: Cache, h: string)
    requires CacheOk(cfg, t, c)
    ensures CacheOk(cfg, t, Dropped(c, h))
  {
    forall g | g in Dropped(c, h).urls ensures exists id :: UrlEntryOk(cfg, t, g, Dropped(c, h).urls[g], id) {
      assert g in c.urls && Dropped(c, h).urls[g] == c.urls[g];
    }
  }

  lemma FetchedOk(t: Table, now: int, list: seq<Item>)
    requires IsFetch(t, now, list) && list != []
    ensures ListOk(t, list)
  {
  }

  lemma RescanOtherStep(cfg: Config, s: Sys, p: nat, io: Io)
    requires ValidConfig(cfg) && Inv(cfg, s) && p in s.procs && IoAllowed(s, s.procs[p], io)
    requires var q := s.procs[p]; q.RsFetch? || q.RsScan? || q.RsEvict?
    ensures GoodStep(cfg, s, RunRescan(s, p, s.procs[p], io), p)
  {
    hide GoodStep, CacheOk, WellFormed, Extends, ListOk, IsFetch, Dropped;
    assert ProcOk(cfg, s.table, s.now, s.procs[p]);
    SelfExtends(s.table);
    if s.procs[p].RsEvict? {
      ListTail(s.table, s.table, s.procs[p].list);
      DroppedOk(cfg, s.table, s.cache, s.procs[p].list[0].row.hash);
    } else if s.procs[p].RsFetch? && io.acked && io.list != [] {
      FetchedOk(s.table, s.now, io.list);
    }
    TableKept(cfg, s, RunRescan(s, p, s.procs[p], io), p);
  }

  lemma RescanStep(cfg: Config, s: Sys, p: nat, io: Io)
    requires ValidConfig(cfg) && Inv(cfg, s) && p in s.procs && IoAllowed(s, s.procs[p], io)
    requires var q := s.procs[p]; q.RsFetch? || q.RsScan? || q.RsWrite? || q.RsEvict?
    ensures GoodStep(cfg, s, RunRescan(s, p, s.procs[p], io), p)
  {
    hide ValidConfig, Inv, GoodStep, RunRescan;
    if s.procs[p].RsWrite? {
      RescanWriteStep(cfg, s, p, io);
    } else {
      RescanOtherStep(cfg, s, p, io);
    }
  }

  lemma RunStep(cfg: Config, s: Sys, p: nat, io: Io)
    requires ValidConfig(cfg) && Inv(cfg, s) && p in s.procs && IoAllowed(s, s.procs[p], io)
    ensures GoodStep(cfg, s, RunProc(cfg, s, p, s.procs[p], io), p)
  {
    hide Inv, ValidConfig, GoodStep, IoAllowed, RunResolve, RunCache, RunShorten, RunReport, RunRescan;
    var q := s.procs[p];
    if q.ResGet? || q.ResFind? || q.ResCheck? {
      ResolveStep(cfg, s, p, io);
    } else if q.FillUrl? || q.FillMeta? || q.Evict? {
      CacheStep(cfg, s, p, io);
    } else if q.ShDedup? || q.ShScan? || q.ShCreate? || q.ShHash? || q.ShStatus? {
      ShortenStep(cfg, s, p, io);
    } else if q.RpFind? || q.RpInsert? || q.RpCount? || q.RpBlock? {
      ReportStep(cfg, s, p, io);
    } else {
      RescanStep(cfg, s, p, io);
    }
  }

  lemma OthersKept(s: Sys, s': Sys, p: nat, q: nat)
    requires s'.procs - {p} == s.procs - {p} && q != p
    ensures q in s'.procs <==> q in s.procs
    ensures q in s.procs ==> s'.procs[q] == s.procs[q]
  {
    assert q in s.procs <==> q in s.procs - {p};
    assert q in s'.procs <==> q in s'.procs - {p};
    if q in s.procs {
      assert s'.procs[q] == (s'.procs - {p})[q] == (s.procs - {p})[q];
    }
  }

  lemma GoodStepKeepsInv(cfg: Config, s: Sys, s': Sys, p: nat)
    requires Inv(cfg, s) && GoodStep(cfg, s, s', p)
    ensures Inv(cfg, s')
  {
    forall q | q in s'.procs ensures ProcOk(cfg, s'.table, s'.now, s'.procs[q]) {
      if q != p {
        OthersKept(s, s', p, q);
        ProcStable(cfg, s.table, s'.table, s.now, s'.now, s.procs[q]);
      }
    }
    forall a, b | a in s'.procs && b in s'.procs && s'.procs[a].ShHash? && s'.procs[b].ShHash? ensures a == b {
      forall q | q in s'.procs && q != p && s'.procs[q].ShHash?
        ensures q in s.procs && s.procs[q] == s'.procs[q] && HashTaken(s.table, "")
      {
        OthersKept(s, s', p, q);
        assert ProcOk(cfg, s.table, s.now, s.procs[q]);
        assert RowOf(s.table, s.procs[q].id, "");
      }
    }
  }

  lemma AbandonIsGood(cfg: Config, s: Sys, p: nat)
    requires Inv(cfg, s)
    ensures GoodStep(cfg, s, Finish(s, p), p)
  {
  }

  lemma BeginIsGood(cfg: Config, s: Sys, p: nat, r: Request)
    requires ValidConfig(cfg) && Inv(cfg, s) && p !in s.procs && CanStart(cfg, r)
    ensures GoodStep(cfg, s, Goto(s, p, Start(cfg, r)), p)
  {
  }

  lemma AdvanceKeepsInv(cfg: Config, s: Sys, d: nat)
    requires Inv(cfg, s)
    ensures Inv(cfg, s.(now := s.now + d))
  {
    forall p | p in s.procs ensures ProcOk(cfg, s.table, s.now + d, s.procs[p]) {
      ProcStable(cfg, s.table, s.table, s.now, s.now + d, s.procs[p]);
    }
  }

  lemma InvNext(cfg: Config, s: Sys, a: Action)
    requires ValidConfig(cfg) && Inv(cfg, s) && Enabled(cfg, s, a)
    ensures Inv(cfg, Next(cfg, s, a)) && Extends(s.table, Next(cfg, s, a).table)
  {
    hide Inv, ValidConfig, IoAllowed, RunProc;
    match a
    case Advance(d) => AdvanceKeepsInv(cfg, s, d);
    case Begin(p, r) =>
      BeginIsGood(cfg, s, p, r);
      GoodStepKeepsInv(cfg, s, Next(cfg, s, a), p);
    case Run(p, io) =>
      RunStep(cfg, s, p, io);
      GoodStepKeepsInv(cfg, s, Next(cfg, s, a), p);
    case Abandon(p) =>
      AbandonIsGood(cfg, s, p);
      GoodStepKeepsInv(cfg, s, Next(cfg, s, a), p);
  }

  lemma {:induction false} InvRun(cfg: Config, s: Sys, acts: seq<Action>)
    requires ValidConfig(cfg) && Inv(cfg, s) && Legal(cfg, s, acts)
    ensures Inv(cfg, End(cfg, s, acts)) && Extends(s.table, End(cfg, s, acts).table)
    decreases |acts|
  {
    hide Inv, ValidConfig, Enabled, Next;
    if acts != [] {
      InvNext(cfg, s, acts[0]);
      InvRun(cfg, Next(cfg, s, acts[0]), acts[1..]);
    }
  }

  lemma InitialInv(cfg: Config, s: Sys)
    requires Initial(s)
    ensures Inv(cfg, s)
  {
  }

  // ----- Theorems -----------------------------------------------------------------------------

  lemma ReachableInv(cfg: Config, s: Sys)
    requires ValidConfig(cfg) && Reachable(cfg, s)
    ensures Inv(cfg, s)
  {
    hide ValidConfig, Inv, Enabled, Next;
    var s0, acts :| EndsIn(cfg, s0, acts, s);
    InitialInv(cfg, s0);
    InvRun(cfg, s0, acts);
  }

  /**
   * Whatever interleaves, fails or tears: a cache hit for h returns the original URL of the one row whose id encodes
   * to h, its id is that row's or 0, and no entry, live or not, says malicious.
   */
  lemma HitProvenance(cfg: Config, s: Sys, h: string)
    requires ValidConfig(cfg) && Reachable(cfg, s)
    ensures forall g | g in s.cache.urls :: s.cache.urls[g].status != Malicious
    ensures Lookup(s.cache, h, s.now).Some? ==>
              var hit := Lookup(s.cache, h, s.now).value;
              exists id: nat | id in s.table.rows && id < TWO_64 && LinkOf(id) == h ::
                && hit.url == s.table.rows[id].url
                && (hit.id == id || hit.id == 0)
                && hit.status != Malicious
                && cfg.web(hit.url)
                && (forall other: nat | other < TWO_64 && LinkOf(other) == h :: other == id)
  {
    ReachableInv(cfg, s);
    if Lookup(s.cache, h, s.now).Some? {
      HitOwner(cfg, s, h);
    }
  }

  lemma HitOwner(cfg: Config, s: Sys, h: string)
    requires Inv(cfg, s) && Lookup(s.cache, h, s.now).Some?
    ensures var hit := Lookup(s.cache, h, s.now).value;
            exists id: nat | id in s.table.rows && id < TWO_64 && LinkOf(id) == h ::
              && hit.url == s.table.rows[id].url
              && (hit.id == id || hit.id == 0)
              && hit.status != Malicious
              && cfg.web(hit.url)
              && (forall other: nat | other < TWO_64 && LinkOf(other) == h :: other == id)
  {
    var id :| UrlEntryOk(cfg, s.table, h, s.cache.urls[h], id);
    HashNamesRow(s.table, id, h);
    forall other: nat | other < TWO_64 && LinkOf(other) == h ensures other == id {
      LinksDiffer(id, other);
    }
  }

  /** Hashes in every reachable state, and the lock that the UNIQUE empty hash amounts to. */
  lemma HashDiscipline(cfg: Config, s: Sys)
    requires ValidConfig(cfg) && Reachable(cfg, s)
    ensures forall id | id in s.table.rows :: s.table.rows[id].hash == "" || s.table.rows[id].hash == LinkOf(id)
    ensures forall a, b | a in s.table.rows && b in s.table.rows && a != b :: s.table.rows[a].hash != s.table.rows[b].hash
    ensures forall p, q | p in s.procs && q in s.procs && s.procs[p].ShHash? && s.procs[q].ShHash? :: p == q
    ensures forall p | p in s.procs && s.procs[p].ShHash? :: RowOf(s.table, s.procs[p].id, "")
  {
    ReachableInv(cfg, s);
    forall a, b | a in s.table.rows && b in s.table.rows && a != b ensures s.table.rows[a].hash != s.table.rows[b].hash {
      LinksDiffer(a, b);
    }
    forall p | p in s.procs && s.procs[p].ShHash? ensures RowOf(s.table, s.procs[p].id, "") {
      assert ProcOk(cfg, s.table, s.now, s.procs[p]);
    }
  }

  /** While a row has the empty hash, no step of any request adds a row. */
  lemma EmptyHashBlocksCreate(cfg: Config, s: Sys, a: Action)
    requires HashTaken(s.table, "") && Enabled(cfg, s, a)
    ensures Next(cfg, s, a).table.rows.Keys == s.table.rows.Keys
  {
  }

  /** An empty-hash row whose Shorten is gone: it ended, failed or was abandoned before the hash was assigned. */
  ghost predicate Orphaned(s: Sys, id: nat) {
    RowOf(s.table, id, "") && forall p | p in s.procs :: !s.procs[p].ShHash?
  }

  lemma OrphanNext(cfg: Config, s: Sys, a: Action, id: nat)
    requires ValidConfig(cfg) && Inv(cfg, s) && Enabled(cfg, s, a) && Orphaned(s, id)
    ensures Orphaned(Next(cfg, s, a), id)
  {
    hide ValidConfig, Inv, RunProc, WellFormed, CacheOk, ProcOk, IoAllowed;
    var s' := Next(cfg, s, a);
    assert HashTaken(s.table, "");
    if !a.Advance? {
      match a {
        case Begin(p, r) => BeginIsGood(cfg, s, p, r);
        case Run(p, io) => RunStep(cfg, s, p, io);
        case Abandon(p) => AbandonIsGood(cfg, s, p);
      }
      forall q | q in s'.procs ensures !s'.procs[q].ShHash? {
        if q != a.p {
          OthersKept(s, s', a.p, q);
        }
      }
    }
  }

  /** The lock is then permanent: in every continuation the row keeps the empty hash and no link is ever created again. */
  lemma {:induction false} OrphanLocksForever(cfg: Config, s: Sys, acts: seq<Action>, id: nat)
    requires ValidConfig(cfg) && Inv(cfg, s) && Legal(cfg, s, acts) && Orphaned(s, id)
    ensures Orphaned(End(cfg, s, acts), id)
    ensures End(cfg, s, acts).table.rows.Keys == s.table.rows.Keys
    decreases |acts|
  {
    hide ValidConfig, Inv, Enabled, Next;
    if acts != [] {
      assert HashTaken(s.table, "");
      InvNext(cfg, s, acts[0]);
      OrphanNext(cfg, s, acts[0], id);
      EmptyHashBlocksCreate(cfg, s, acts[0]);
      OrphanLocksForever(cfg, Next(cfg, s, acts[0]), acts[1..], id);
    }
  }
}
