/** Deduplication when Shorten calls overlap: which step makes a duplicate, and a run in which two calls make one. */
module Duplicates {
  import opened Wrappers
  import opened Base62
  import opened Store
  import opened Links
  import opened Requests
  import opened Provenance
  import opened Bridge

  /** An insert that succeeds although an unexpired row for the URL has appeared since the dedup check. */
  ghost predicate LateInsert(cfg: Config, s: Sys, a: Action) {
    && a.Run? && a.p in s.procs && a.io.applied && s.procs[a.p].ShCreate?
    && CanInsert(s.table)
    && s.procs[a.p].stampedAt + cfg.linkTTL > s.now
    && exists id | id in s.table.rows :: IsDuplicateOf(s.table, s.procs[a.p].url, s.now, id)
  }

  lemma InsertTwins(t: Table, url: string, now: int, expiresAt: int)
    requires WellFormed(t) && NoTwins(t, now)
    ensures NoTwins(Inserted(t, url, now, expiresAt), now)
            <==> !(expiresAt > now && exists id | id in t.rows :: IsDuplicateOf(t, url, now, id))
  {
    var u := Inserted(t, url, now, expiresAt);
    assert t.nextId !in t.rows;
    if id :| id in t.rows && IsDuplicateOf(t, url, now, id) {
      assert u.rows[id] == t.rows[id] && u.rows[t.nextId].url == u.rows[id].url;
    }
  }

  lemma CreateTable(cfg: Config, s: Sys, a: Action)
    requires Enabled(cfg, s, a) && a.Run? && s.procs[a.p].ShCreate?
    ensures var q, s' := s.procs[a.p], Next(cfg, s, a);
            && s'.now == s.now
            && (a.io.applied && CanInsert(s.table) ==>
                  s'.table == Inserted(s.table, q.url, s.now, q.stampedAt + cfg.linkTTL))
            && (!a.io.applied || !CanInsert(s.table) ==> s'.table.rows == s.table.rows)
  {
    hide CanInsert, Inserted;
  }

  lemma StatusKeepsLinks(t: Table, id: nat, h: string, status: Status)
    ensures SameLinks(t, t) && SameLinks(t, AfterStatus(t, id, status)) && SameLinks(t, AfterHash(t, id, h))
  {
  }

  ghost predicate SameLinks(t: Table, u: Table) {
    u.rows.Keys == t.rows.Keys && forall id | id in t.rows :: SameLink(u.rows[id], t.rows[id])
  }

  lemma RunKeepsLinks(cfg: Config, s: Sys, p: nat, q: Proc, io: Io)
    requires IoAllowed(s, q, io) && !q.ShCreate?
    ensures SameLinks(s.table, RunProc(cfg, s, p, q, io).table) && RunProc(cfg, s, p, q, io).now == s.now
  {
    hide FindByHash, CanInsert, CanSetHash, Lookup, LinkOf, IsFetch, IsDedupPick, ReportersOf, IsValidReason;
    hide SameLinks, AfterStatus, AfterHash;
    StatusKeepsLinks(s.table, 0, "", Clean);
    if q.ShHash? {
      StatusKeepsLinks(s.table, q.id, LinkOf(q.id), Clean);
    } else if q.ShStatus? {
      StatusKeepsLinks(s.table, q.id, "", q.status);
    } else if q.RpBlock? {
      StatusKeepsLinks(s.table, q.id, "", Malicious);
    } else if q.RsWrite? {
      StatusKeepsLinks(s.table, q.list[0].id, "", q.status);
    }
  }

  /** Every other step keeps each row's URL and expiry, adds no row, and only moves the clock forward. */
  lemma OthersKeepLinks(cfg: Config, s: Sys, a: Action)
    requires Enabled(cfg, s, a) && (a.Run? ==> !s.procs[a.p].ShCreate?)
    ensures Next(cfg, s, a).now >= s.now && SameLinks(s.table, Next(cfg, s, a).table)
  {
    hide RunProc, IoAllowed;
    if a.Run? {
      RunKeepsLinks(cfg, s, a.p, s.procs[a.p], a.io);
    }
  }

  /** In any reachable state, two unexpired rows for one URL arise on exactly these steps. */
  lemma TwinsArise(cfg: Config, s: Sys, a: Action)
    requires Inv(cfg, s) && Enabled(cfg, s, a) && NoTwins(s.table, s.now)
    ensures NoTwins(Next(cfg, s, a).table, Next(cfg, s, a).now) <==> !LateInsert(cfg, s, a)
  {
    hide Next, CacheOk, ProcsOk, IoAllowed, CanStart, WellFormed, CanInsert, Inserted, IsDuplicateOf;
    if a.Run? && s.procs[a.p].ShCreate? {
      CreateTable(cfg, s, a);
      var q := s.procs[a.p];
      InsertTwins(s.table, q.url, s.now, q.stampedAt + cfg.linkTTL);
    } else {
      OthersKeepLinks(cfg, s, a);
    }
  }

  // ----- Two overlapping calls ----------------------------------------------------------------

  /** The call p, whose dedup check finds nothing, gets as far as its insert without touching the table. */
  lemma ReachesInsert(cfg: Config, s: Sys, p: nat, raw: string, scan: Status)
    requires p !in s.procs && cfg.accept(raw).Some? && scan != Pending && scan != Malicious
    requires IsDedupPick(s.table, cfg.accept(raw).value, s.now, None)
    ensures Reaches(cfg, s, Goto(s, p, ShCreate(cfg.accept(raw).value, scan, s.now)))
  {
    hide IsDedupPick;
    var url := cfg.accept(raw).value;
    var io := Io(true, true, scan, None, []);
    OneStep(cfg, s, Begin(p, Shorten(raw)));
    Overwrite(s, p, ShDedup(url), ShScan(url));
    Moves(cfg, s, p, ShDedup(url), io, Goto(s, p, ShScan(url)));
    Then(cfg, s, Goto(s, p, ShDedup(url)), Goto(s, p, ShScan(url)));
    Overwrite(s, p, ShScan(url), ShCreate(url, scan, s.now));
    Moves(cfg, s, p, ShScan(url), io, Goto(s, p, ShCreate(url, scan, s.now)));
    Then(cfg, s, Goto(s, p, ShScan(url)), Goto(s, p, ShCreate(url, scan, s.now)));
  }

  function Created(cfg: Config, s: Sys, url: string): Table {
    Inserted(s.table, url, s.now, s.now + cfg.linkTTL)
  }

  function Linked(cfg: Config, s: Sys, url: string): Table {
    AfterHash(Created(cfg, s, url), s.table.nextId, LinkOf(s.table.nextId))
  }

  lemma LinkedRows(cfg: Config, s: Sys, url: string)
    ensures var id := s.table.nextId;
            Linked(cfg, s, url)
            == Table(s.table.rows[id := Row(LinkOf(id), url, s.now, Some(s.now + cfg.linkTTL), Pending)], id + 1)
  {
    hide LinkOf;
  }

  /** Once the new row has its link, the empty hash is free again. */
  lemma LinkedForm(cfg: Config, s: Sys, url: string)
    requires WellFormed(s.table) && CanInsert(s.table)
    ensures CanSetHash(Created(cfg, s, url), s.table.nextId, LinkOf(s.table.nextId))
    ensures WellFormed(Linked(cfg, s, url)) && !HashTaken(Linked(cfg, s, url), "")
  {
    hide LinkOf, WellFormed, CanSetHash;
    var id, t := s.table.nextId, Linked(cfg, s, url);
    InsertKeepsForm(s.table, url, s.now, s.now + cfg.linkTTL);
    NewRowForm(s.table, url, s.now, s.now + cfg.linkTTL);
    HashKeepsForm(Created(cfg, s, url), id);
    LinksDiffer(id, id);
    LinkedRows(cfg, s, url);
    forall other | other in t.rows ensures !RowOf(t, other, "") {
      assert other != id ==> !RowOf(s.table, other, "");
    }
  }

  lemma NewRowForm(t: Table, url: string, now: int, expiresAt: int)
    requires CanInsert(t)
    ensures RowOf(Inserted(t, url, now, expiresAt), t.nextId, "") && t.nextId < TWO_64
  {
  }

  /** The call p, about to insert, creates its row and gives it its hash. */
  lemma InsertsAndHashes(cfg: Config, s: Sys, p: nat, url: string, scan: Status)
    requires p !in s.procs && CanInsert(s.table)
    requires CanSetHash(Created(cfg, s, url), s.table.nextId, LinkOf(s.table.nextId))
    ensures Reaches(cfg, Goto(s, p, ShCreate(url, scan, s.now)),
                    Goto(s.(table := Linked(cfg, s, url)), p, ShStatus(url, scan, s.now, s.table.nextId)))
  {
    hide CanInsert, CanSetHash, Inserted, AfterHash, LinkOf;
    var id := s.table.nextId;
    var q0, q1, q2 := ShCreate(url, scan, s.now), ShHash(url, scan, s.now, id), ShStatus(url, scan, s.now, id);
    var s1 := s.(table := Created(cfg, s, url));
    var s2 := s.(table := Linked(cfg, s, url));
    Overwrite(s1, p, q0, q1);
    Moves(cfg, s, p, q0, Does(true, true), Goto(s1, p, q1));
    Overwrite(s2, p, q1, q2);
    Moves(cfg, s1, p, q1, Does(true, true), Goto(s2, p, q2));
    Then(cfg, Goto(s, p, q0), Goto(s1, p, q1), Goto(s2, p, q2));
  }

  /**
   * From every state that has room for two rows and none for the URL yet, two overlapping Shorten calls with no fault
   * at all reach a state with two unexpired rows for it, each under its own link.
   */
  lemma OverlappingShortens(cfg: Config, s: Sys, p: nat, q: nat, raw: string) returns (t: Sys)
    requires ValidConfig(cfg) && cfg.accept(raw).Some? && p != q && p !in s.procs && q !in s.procs
    requires WellFormed(s.table) && CanInsert(s.table) && s.table.nextId + 1 < TWO_64
    requires IsDedupPick(s.table, cfg.accept(raw).value, s.now, None)
    ensures Reaches(cfg, s, t) && !NoTwins(t.table, t.now)
    ensures var a, b := s.table.nextId, s.table.nextId + 1;
            && RowOf(t.table, a, LinkOf(a)) && RowOf(t.table, b, LinkOf(b)) && LinkOf(a) != LinkOf(b)
            && t.table.rows[a].url == t.table.rows[b].url == cfg.accept(raw).value
            && Unexpired(t.table.rows[a], t.now) && Unexpired(t.table.rows[b], t.now)
  {
    hide WellFormed, HashTaken, CanSetHash, IsDedupPick, LinkOf, Linked, Created;
    var url := cfg.accept(raw).value;
    var a, b := s.table.nextId, s.table.nextId + 1;
    var ready, done := ShCreate(url, Clean, s.now), ShStatus(url, Clean, s.now, a);
    var s1 := Goto(s, p, ready);
    ReachesInsert(cfg, s, p, raw, Clean);
    ReachesInsert(cfg, s1, q, raw, Clean);
    Then(cfg, s, s1, Goto(s1, q, ready));
    // q inserts first, then p
    LinkedForm(cfg, s1, url);
    LinkedRows(cfg, s1, url);
    InsertsAndHashes(cfg, s1, q, url, Clean);
    var s2 := Goto(s1.(table := Linked(cfg, s1, url)), q, done);
    Then(cfg, s, Goto(s1, q, ready), s2);
    var rest := s.(table := Linked(cfg, s1, url), procs := s.procs[q := done]);
    assert s2.procs == Goto(rest, p, ready).procs;
    LinkedRows(cfg, rest, url);
    LinkedForm(cfg, rest, url);
    InsertsAndHashes(cfg, rest, p, url, Clean);
    t := Goto(rest.(table := Linked(cfg, rest, url)), p, ShStatus(url, Clean, s.now, b));
    Then(cfg, s, s2, t);
    LinksDiffer(a, b);
    assert Unexpired(t.table.rows[a], t.now) && Unexpired(t.table.rows[b], t.now);
  }
}
