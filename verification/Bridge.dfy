/**
 * The two views of a request are one program: a whole service call, with any combination of faults, is a run of the
 * interleaved machine in which the other requests do not move. So every invariant of the machine covers the services,
 * and every effect of a service call can occur in the machine.
 */
module Bridge {
  import opened Wrappers
  import opened Anonymize
  import opened Store
  import opened Links
  import opened Requests

  ghost predicate RunsTo(cfg: Config, s: Sys, t: Sys, acts: seq<Action>) {
    Legal(cfg, s, acts) && End(cfg, s, acts) == t
  }

  ghost predicate Reaches(cfg: Config, s: Sys, t: Sys) {
    exists acts :: RunsTo(cfg, s, t, acts)
  }

  lemma {:induction false} Joined(cfg: Config, s: Sys, a: seq<Action>, b: seq<Action>)
    requires Legal(cfg, s, a) && Legal(cfg, End(cfg, s, a), b)
    ensures Legal(cfg, s, a + b) && End(cfg, s, a + b) == End(cfg, End(cfg, s, a), b)
    decreases |a|
  {
    hide Enabled, Next;
    if a == [] {
      assert a + b == b;
    } else {
      assert (a + b)[0] == a[0] && (a + b)[1..] == a[1..] + b;
      Joined(cfg, Next(cfg, s, a[0]), a[1..], b);
    }
  }

  lemma Then(cfg: Config, s: Sys, t: Sys, u: Sys)
    requires Reaches(cfg, s, t) && Reaches(cfg, t, u)
    ensures Reaches(cfg, s, u)
  {
    var a :| RunsTo(cfg, s, t, a);
    var b :| RunsTo(cfg, t, u, b);
    Joined(cfg, s, a, b);
    assert RunsTo(cfg, s, u, a + b);
  }

  lemma OneStep(cfg: Config, s: Sys, a: Action)
    requires Enabled(cfg, s, a)
    ensures Reaches(cfg, s, Next(cfg, s, a))
  {
    hide Enabled, Next;
    var t := Next(cfg, s, a);
    assert [a][0] == a && [a][1..] == [];
    assert Legal(cfg, t, []) && End(cfg, t, []) == t;
    assert Legal(cfg, s, [a]);
    assert RunsTo(cfg, s, t, [a]);
  }

  lemma Overwrite(s: Sys, p: nat, q: Proc, r: Proc)
    ensures Goto(Goto(s, p, q), p, r) == Goto(s, p, r)
    ensures p !in s.procs ==> Finish(Goto(s, p, q), p) == s
  {
    assert s.procs[p := q][p := r] == s.procs[p := r];
    if p !in s.procs {
      assert s.procs[p := q] - {p} == s.procs;
    }
  }

  /** Request p, now at q, performs one operation. */
  lemma Moves(cfg: Config, s: Sys, p: nat, q: Proc, io: Io, t: Sys)
    requires IoAllowed(Goto(s, p, q), q, io) && RunProc(cfg, Goto(s, p, q), p, q, io) == t
    ensures Reaches(cfg, Goto(s, p, q), t)
  {
    hide RunProc, IoAllowed;
    OneStep(cfg, Goto(s, p, q), Run(p, io));
  }

  function Does(applied: bool, acked: bool): Io { Io(applied, acked, Clean, None, []) }

  lemma FillRuns(cfg: Config, s: Sys, p: nat, j: FillJob, urlLost: bool, metaLost: bool)
    requires p !in s.procs
    ensures Reaches(cfg, Goto(s, p, FillUrl(j)),
                    s.(cache := Filled(s.cache, j.h, j.url, j.status, j.id, s.now + j.ttl, urlLost, metaLost)))
  {
    hide RunResolve, RunShorten, RunReport, RunRescan, IsFetch, IsDedupPick;
    var c1 := if urlLost then s.cache else PutUrl(s.cache, j.h, j.url, j.status, s.now + j.ttl);
    var s1 := s.(cache := c1);
    var s2 := s.(cache := Filled(s.cache, j.h, j.url, j.status, j.id, s.now + j.ttl, urlLost, metaLost));
    Overwrite(s1, p, FillUrl(j), FillMeta(j));
    Moves(cfg, s, p, FillUrl(j), Does(!urlLost, true), Goto(s1, p, FillMeta(j)));
    Overwrite(s2, p, FillMeta(j), FillMeta(j));
    Moves(cfg, s1, p, FillMeta(j), Does(!metaLost, true), s2);
    Then(cfg, Goto(s, p, FillUrl(j)), Goto(s1, p, FillMeta(j)), s2);
  }

  lemma EvictRuns(cfg: Config, s: Sys, p: nat, h: string, lost: bool)
    requires p !in s.procs
    ensures Reaches(cfg, Goto(s, p, Proc.Evict(h)), s.(cache := Evicted(s.cache, h, lost)))
  {
    var s1 := s.(cache := Evicted(s.cache, h, lost));
    Overwrite(s1, p, Proc.Evict(h), Proc.Evict(h));
    Moves(cfg, s, p, Proc.Evict(h), Does(!lost, true), s1);
  }

  // ----- Resolve ------------------------------------------------------------------------------

  lemma CheckRuns(cfg: Config, s: Sys, p: nat, h: string, id: nat, f: ResolveFaults)
    requires p !in s.procs && !f.findFails && FindByHash(s.table, h) == Some(id)
    requires f.getFails || Lookup(s.cache, h, s.now).None?
    ensures Reaches(cfg, Goto(s, p, ResCheck(h, id, s.table.rows[id], s.now)),
                    s.(cache := ResolveCached(cfg, s.table, s.cache, h, s.now, f).1))
  {
    hide FindByHash, Lookup, RunShorten, RunReport, RunRescan, IsFetch, IsDedupPick;
    var row := s.table.rows[id];
    var q := ResCheck(h, id, row, s.now);
    if Expired(row, s.now) || !cfg.web(row.url) {
      Overwrite(s, p, q, q);
      Moves(cfg, s, p, q, Does(true, true), s);
    } else if row.status == Malicious {
      Overwrite(s, p, q, Proc.Evict(h));
      Moves(cfg, s, p, q, Does(true, true), Goto(s, p, Proc.Evict(h)));
      EvictRuns(cfg, s, p, h, f.delLost);
      Then(cfg, Goto(s, p, q), Goto(s, p, Proc.Evict(h)), s.(cache := Evicted(s.cache, h, f.delLost)));
    } else {
      var j := FillJob(h, row.url, row.status, id, cfg.cacheTTL, s.now, true);
      Overwrite(s, p, q, FillUrl(j));
      Moves(cfg, s, p, q, Does(true, true), Goto(s, p, FillUrl(j)));
      FillRuns(cfg, s, p, j, f.urlLost, f.metaLost);
      Then(cfg, Goto(s, p, q), Goto(s, p, FillUrl(j)),
           s.(cache := Filled(s.cache, h, row.url, row.status, id, s.now + cfg.cacheTTL, f.urlLost, f.metaLost)));
    }
  }

  lemma FindRuns(cfg: Config, s: Sys, p: nat, h: string, f: ResolveFaults)
    requires p !in s.procs && (f.getFails || Lookup(s.cache, h, s.now).None?)
    ensures Reaches(cfg, Goto(s, p, ResFind(h)), s.(cache := ResolveCached(cfg, s.table, s.cache, h, s.now, f).1))
  {
    var found := FindByHash(s.table, h);
    var u := s.(cache := ResolveCached(cfg, s.table, s.cache, h, s.now, f).1);
    if f.findFails || found.None? {
      Overwrite(s, p, ResFind(h), ResFind(h));
      Moves(cfg, s, p, ResFind(h), Does(true, !f.findFails), s);
    } else {
      hide FindByHash, Lookup, ResolveCached;
      var q := ResCheck(h, found.value, s.table.rows[found.value], s.now);
      Overwrite(s, p, ResFind(h), q);
      Moves(cfg, s, p, ResFind(h), Does(true, true), Goto(s, p, q));
      CheckRuns(cfg, s, p, h, found.value, f);
      Then(cfg, Goto(s, p, ResFind(h)), Goto(s, p, q), u);
    }
  }

  /** Redirector.Resolve as a run of the machine. */
  lemma ResolveRuns(cfg: Config, s: Sys, p: nat, h: string, f: ResolveFaults)
    requires p !in s.procs && h != ""
    ensures Reaches(cfg, s, s.(cache := ResolveCached(cfg, s.table, s.cache, h, s.now, f).1))
  {
    var u := s.(cache := ResolveCached(cfg, s.table, s.cache, h, s.now, f).1);
    var q := ResGet(h);
    OneStep(cfg, s, Begin(p, Resolve(h)));
    var hit := Lookup(s.cache, h, s.now);
    var io := Does(true, !f.getFails);
    if f.getFails || hit.None? {
      hide Lookup, ResolveCached;
      Overwrite(s, p, q, ResFind(h));
      Moves(cfg, s, p, q, io, Goto(s, p, ResFind(h)));
      FindRuns(cfg, s, p, h, f);
      Then(cfg, Goto(s, p, q), Goto(s, p, ResFind(h)), u);
    } else if hit.value.status == Malicious {
      Overwrite(s, p, q, Proc.Evict(h));
      Moves(cfg, s, p, q, io, Goto(s, p, Proc.Evict(h)));
      EvictRuns(cfg, s, p, h, f.delLost);
      Then(cfg, Goto(s, p, q), Goto(s, p, Proc.Evict(h)), u);
    } else {
      Overwrite(s, p, q, q);
      Moves(cfg, s, p, q, io, s);
    }
    Then(cfg, s, Goto(s, p, q), u);
  }

  // ----- Shorten ------------------------------------------------------------------------------

  function Applies(f: Fault): Io { Does(f != Fails, f == Fine) }

  lemma StatusRuns(cfg: Config, s: Sys, p: nat, url: string, scan: Status, id: nat, f: ShortenFaults)
    requires p !in s.procs
    ensures Reaches(cfg, Goto(s, p, ShStatus(url, scan, s.now, id)),
                    s.(table := if f.statusFails then s.table else AfterStatus(s.table, id, scan),
                       cache := Filled(s.cache, LinkOf(id), url, scan, id, s.now + cfg.linkTTL, f.urlLost, f.metaLost)))
  {
    hide AfterStatus, LinkOf;
    var q := ShStatus(url, scan, s.now, id);
    var j := FillJob(LinkOf(id), url, scan, id, cfg.linkTTL, s.now, false);
    var s1 := s.(table := if f.statusFails then s.table else AfterStatus(s.table, id, scan));
    Overwrite(s1, p, q, FillUrl(j));
    Moves(cfg, s, p, q, Does(!f.statusFails, true), Goto(s1, p, FillUrl(j)));
    FillRuns(cfg, s1, p, j, f.urlLost, f.metaLost);
    Then(cfg, Goto(s, p, q), Goto(s1, p, FillUrl(j)),
         s1.(cache := Filled(s.cache, LinkOf(id), url, scan, id, s.now + cfg.linkTTL, f.urlLost, f.metaLost)));
  }

  lemma HashRuns(cfg: Config, s: Sys, p: nat, url: string, scan: Status, id: nat, f: ShortenFaults)
    requires p !in s.procs
    ensures var h := LinkOf(id);
            var t := AfterHash(s.table, id, h);
            Reaches(cfg, Goto(s, p, ShHash(url, scan, s.now, id)),
                    if f.hash == Fails || !CanSetHash(s.table, id, h) then s
                    else if f.hash == AckLost then s.(table := t)
                    else s.(table := if f.statusFails then t else AfterStatus(t, id, scan),
                            cache := Filled(s.cache, h, url, scan, id, s.now + cfg.linkTTL, f.urlLost, f.metaLost)))
  {
    hide AfterStatus, LinkOf, AfterHash, CanSetHash, Filled;
    var q, r := ShHash(url, scan, s.now, id), ShStatus(url, scan, s.now, id);
    var s1 := s.(table := AfterHash(s.table, id, LinkOf(id)));
    Overwrite(s, p, q, r);
    Overwrite(s1, p, q, r);
    if f.hash == Fails || !CanSetHash(s.table, id, LinkOf(id)) {
      Moves(cfg, s, p, q, Applies(f.hash), s);
    } else if f.hash == AckLost {
      Moves(cfg, s, p, q, Applies(f.hash), s1);
    } else {
      Moves(cfg, s, p, q, Applies(f.hash), Goto(s1, p, r));
      StatusRuns(cfg, s1, p, url, scan, id, f);
      Then(cfg, Goto(s, p, q), Goto(s1, p, r),
           s1.(table := if f.statusFails then s1.table else AfterStatus(s1.table, id, scan),
               cache := Filled(s.cache, LinkOf(id), url, scan, id, s.now + cfg.linkTTL, f.urlLost, f.metaLost)));
    }
  }

  lemma CreateRuns(cfg: Config, s: Sys, p: nat, url: string, scan: Status, f: ShortenFaults)
    requires p !in s.procs
    ensures var r := ShortenNew(cfg, s.table, s.cache, url, s.now, scan, f);
            Reaches(cfg, Goto(s, p, ShCreate(url, scan, s.now)), s.(table := r.1, cache := r.2))
  {
    hide AfterStatus, LinkOf, AfterHash, CanSetHash, Filled, CanInsert, Inserted, Burned;
    var q := ShCreate(url, scan, s.now);
    var r := ShortenNew(cfg, s.table, s.cache, url, s.now, scan, f);
    var u := s.(table := r.1, cache := r.2);
    Overwrite(u, p, q, q);
    if f.create == Fails || !CanInsert(s.table) || f.create == AckLost {
      Moves(cfg, s, p, q, Applies(f.create), u);
    } else {
      var id := s.table.nextId;
      var s1 := s.(table := Inserted(s.table, url, s.now, s.now + cfg.linkTTL));
      Overwrite(s1, p, q, ShHash(url, scan, s.now, id));
      Moves(cfg, s, p, q, Applies(f.create), Goto(s1, p, ShHash(url, scan, s.now, id)));
      HashRuns(cfg, s1, p, url, scan, id, f);
      Then(cfg, Goto(s, p, q), Goto(s1, p, ShHash(url, scan, s.now, id)), u);
    }
  }

  /** Shortener.Shorten of an accepted URL as a run of the machine; a rejected one touches nothing. */
  lemma ShortenRuns(cfg: Config, s: Sys, p: nat, raw: string, pick: Option<nat>, scan: Status, f: ShortenFaults)
    requires p !in s.procs && cfg.accept(raw).Some? && scan != Pending
    requires !f.dedupFails ==> IsDedupPick(s.table, cfg.accept(raw).value, s.now, pick)
    ensures var r := ShortenResult(cfg, s.table, s.cache, raw, s.now, pick, scan, f);
            Reaches(cfg, s, s.(table := r.1, cache := r.2))
  {
    hide ShortenNew, IsDedupPick;
    var url := cfg.accept(raw).value;
    var r := ShortenResult(cfg, s.table, s.cache, raw, s.now, pick, scan, f);
    var u := s.(table := r.1, cache := r.2);
    OneStep(cfg, s, Begin(p, Shorten(raw)));
    var q := ShDedup(url);
    var io := Io(true, !f.dedupFails, scan, pick, []);
    if f.dedupFails || pick.Some? {
      Overwrite(s, p, q, q);
      Moves(cfg, s, p, q, io, s);
    } else {
      Overwrite(s, p, q, ShScan(url));
      Moves(cfg, s, p, q, io, Goto(s, p, ShScan(url)));
      if scan == Malicious {
        Overwrite(s, p, ShScan(url), q);
        Moves(cfg, s, p, ShScan(url), io, s);
      } else {
        Overwrite(s, p, ShScan(url), ShCreate(url, scan, s.now));
        Moves(cfg, s, p, ShScan(url), io, Goto(s, p, ShCreate(url, scan, s.now)));
        CreateRuns(cfg, s, p, url, scan, f);
        Then(cfg, Goto(s, p, ShScan(url)), Goto(s, p, ShCreate(url, scan, s.now)), u);
      }
      Then(cfg, Goto(s, p, q), Goto(s, p, ShScan(url)), u);
    }
    Then(cfg, s, Goto(s, p, q), u);
  }

  // ----- Report -------------------------------------------------------------------------------

  lemma CountRuns(cfg: Config, s: Sys, p: nat, h: string, id: nat, f: ReportFaults)
    requires p !in s.procs
    ensures var due := !f.countFails && |ReportersOf(s.reports, id)| >= cfg.threshold;
            Reaches(cfg, Goto(s, p, RpCount(h, id)),
                    if !due then s
                    else s.(table := if f.statusFails then s.table else AfterStatus(s.table, id, Malicious),
                            blocked := if f.statusFails then s.blocked else s.blocked + {id},
                            cache := Evicted(s.cache, h, f.delLost)))
  {
    hide ReportersOf, AfterStatus, RunResolve, RunShorten, RunRescan, IsFetch, IsDedupPick;
    var q, r, e := RpCount(h, id), RpBlock(h, id), Proc.Evict(h);
    if f.countFails || |ReportersOf(s.reports, id)| < cfg.threshold {
      Overwrite(s, p, q, q);
      Moves(cfg, s, p, q, Does(true, !f.countFails), s);
    } else {
      var s1 := s.(table := if f.statusFails then s.table else AfterStatus(s.table, id, Malicious),
                   blocked := if f.statusFails then s.blocked else s.blocked + {id});
      Overwrite(s, p, q, r);
      Moves(cfg, s, p, q, Does(true, true), Goto(s, p, r));
      Overwrite(s1, p, r, e);
      Moves(cfg, s, p, r, Does(!f.statusFails, true), Goto(s1, p, e));
      EvictRuns(cfg, s1, p, h, f.delLost);
      var u := s1.(cache := Evicted(s.cache, h, f.delLost));
      Then(cfg, Goto(s, p, r), Goto(s1, p, e), u);
      Then(cfg, Goto(s, p, q), Goto(s, p, r), u);
    }
  }

  lemma InsertRuns(cfg: Config, s: Sys, p: nat, h: string, id: nat, address: Option<Address>, reason: string, f: ReportFaults)
    returns (blocked: set<nat>)
    requires p !in s.procs && !f.findFails && FindByHash(s.table, h) == Some(id) && IsValidReason(reason)
    ensures var r := ReportResult(cfg, s.table, s.cache, s.reports, h, address, reason, f);
            Reaches(cfg, Goto(s, p, RpInsert(h, id, Masked(address))),
                    s.(table := r.1, cache := r.2, reports := r.3, blocked := blocked))
  {
    hide ReportersOf, AfterStatus, Masked, FindByHash, IsValidReason;
    var q := RpInsert(h, id, Masked(address));
    var key := (id, Masked(address));
    blocked := s.blocked;
    Overwrite(s, p, q, RpCount(h, id));
    if f.insert == Fails || key in s.reports {
      Moves(cfg, s, p, q, Applies(f.insert), s);
    } else {
      var s1 := s.(reports := s.reports + {key});
      Overwrite(s1, p, q, RpCount(h, id));
      if f.insert == AckLost {
        Moves(cfg, s, p, q, Applies(f.insert), s1);
      } else {
        Moves(cfg, s, p, q, Applies(f.insert), Goto(s1, p, RpCount(h, id)));
        CountRuns(cfg, s1, p, h, id, f);
        if !f.countFails && |ReportersOf(s1.reports, id)| >= cfg.threshold && !f.statusFails {
          blocked := s.blocked + {id};
        }
        var r := ReportResult(cfg, s.table, s.cache, s.reports, h, address, reason, f);
        Then(cfg, Goto(s, p, q), Goto(s1, p, RpCount(h, id)),
             s.(table := r.1, cache := r.2, reports := r.3, blocked := blocked));
      }
    }
  }

  /** Reporting.Report as a run of the machine; blocked is the machine's history of blocks. */
  lemma ReportRuns(cfg: Config, s: Sys, p: nat, h: string, address: Option<Address>, reason: string, f: ReportFaults)
    returns (blocked: set<nat>)
    requires p !in s.procs && h != ""
    ensures var r := ReportResult(cfg, s.table, s.cache, s.reports, h, address, reason, f);
            Reaches(cfg, s, s.(table := r.1, cache := r.2, reports := r.3, blocked := blocked))
  {
    hide ReportersOf, AfterStatus, Masked, IsValidReason;
    OneStep(cfg, s, Begin(p, Request.Report(h, address, reason)));
    var q := RpFind(h, Masked(address), reason);
    var found := FindByHash(s.table, h);
    var r := ReportResult(cfg, s.table, s.cache, s.reports, h, address, reason, f);
    blocked := s.blocked;
    if f.findFails || found.None? || !IsValidReason(reason) {
      Overwrite(s, p, q, q);
      Moves(cfg, s, p, q, Does(true, !f.findFails), s);
    } else {
      hide FindByHash, ReportResult;
      var next := RpInsert(h, found.value, Masked(address));
      Overwrite(s, p, q, next);
      Moves(cfg, s, p, q, Does(true, true), Goto(s, p, next));
      blocked := InsertRuns(cfg, s, p, h, found.value, address, reason, f);
      Then(cfg, Goto(s, p, q), Goto(s, p, next), s.(table := r.1, cache := r.2, reports := r.3, blocked := blocked));
    }
    Then(cfg, s, Goto(s, p, q), s.(table := r.1, cache := r.2, reports := r.3, blocked := blocked));
  }

  // ----- processOne ---------------------------------------------------------------------------

  /** The query of a rescan cycle that finds something. */
  lemma FetchRuns(cfg: Config, s: Sys, p: nat, list: seq<Item>)
    requires p !in s.procs && list != [] && IsFetch(s.table, s.now, list)
    ensures Reaches(cfg, s, Goto(s, p, RsScan(list)))
  {
    hide IsFetch, RunResolve, RunCache, RunShorten, RunReport;
    OneStep(cfg, s, Begin(p, Rescan));
    Overwrite(s, p, RsFetch, RsScan(list));
    Moves(cfg, s, p, RsFetch, Io(true, true, Clean, None, list), Goto(s, p, RsScan(list)));
    Then(cfg, s, Goto(s, p, RsFetch), Goto(s, p, RsScan(list)));
  }

  /** The rest of a cycle, after its current item. */
  function Onward(s: Sys, p: nat, list: seq<Item>): Sys
    requires list != []
  {
    if |list| == 1 then s else Goto(s, p, RsScan(list[1..]))
  }

  lemma OnwardIsNext(s: Sys, p: nat, q: Proc, list: seq<Item>)
    requires p !in s.procs && list != []
    ensures NextItem(Goto(s, p, q), p, list) == Onward(s, p, list)
  {
    Overwrite(s, p, q, RsScan(list[1..]));
  }

  lemma ScanRuns(cfg: Config, s: Sys, p: nat, list: seq<Item>, scan: Status)
    requires p !in s.procs && list != [] && scan != Pending
    ensures Reaches(cfg, Goto(s, p, RsScan(list)), Goto(s, p, RsWrite(list, scan)))
  {
    hide IsFetch, RunResolve, RunCache, RunShorten, RunReport;
    Overwrite(s, p, RsScan(list), RsWrite(list, scan));
    Moves(cfg, s, p, RsScan(list), Io(true, true, scan, None, []), Goto(s, p, RsWrite(list, scan)));
  }

  lemma WriteRuns(cfg: Config, s: Sys, p: nat, list: seq<Item>, scan: Status, f: RescanFaults)
    requires p !in s.procs && list != []
    ensures var s1 := s.(table := ProcessedTable(s.table, list[0], scan, f));
            Reaches(cfg, Goto(s, p, RsWrite(list, scan)),
                    if scan == Malicious then Goto(s1, p, RsEvict(list)) else Onward(s1, p, list))
  {
    hide IsFetch, RunResolve, RunCache, RunShorten, RunReport, AfterStatus, NextItem, Onward;
    var s1 := s.(table := ProcessedTable(s.table, list[0], scan, f));
    var done := if scan == Malicious then Goto(s1, p, RsEvict(list)) else Onward(s1, p, list);
    Overwrite(s1, p, RsWrite(list, scan), RsEvict(list));
    OnwardIsNext(s1, p, RsWrite(list, scan), list);
    Moves(cfg, s, p, RsWrite(list, scan), Does(!f.updateFails, true), done);
  }

  lemma EvictItemRuns(cfg: Config, s: Sys, p: nat, list: seq<Item>, lost: bool)
    requires p !in s.procs && list != []
    ensures Reaches(cfg, Goto(s, p, RsEvict(list)), Onward(s.(cache := Evicted(s.cache, list[0].row.hash, lost)), p, list))
  {
    hide IsFetch, RunResolve, RunCache, RunShorten, RunReport, Dropped, NextItem, Onward;
    var u := s.(cache := Evicted(s.cache, list[0].row.hash, lost));
    OnwardIsNext(u, p, RsEvict(list), list);
    Moves(cfg, s, p, RsEvict(list), Does(!lost, true), Onward(u, p, list));
  }

  /** Rescanner.ProcessOne on the head of the list as a run of the machine. */
  lemma ProcessRuns(cfg: Config, s: Sys, p: nat, list: seq<Item>, scan: Status, f: RescanFaults)
    requires p !in s.procs && list != [] && scan != Pending
    ensures var u := s.(table := ProcessedTable(s.table, list[0], scan, f), cache := ProcessedCache(s.cache, list[0], scan, f));
            Reaches(cfg, Goto(s, p, RsScan(list)), Onward(u, p, list))
  {
    hide Reaches, AfterStatus, Dropped, Onward;
    var w := Goto(s, p, RsWrite(list, scan));
    var s1 := s.(table := ProcessedTable(s.table, list[0], scan, f));
    ScanRuns(cfg, s, p, list, scan);
    WriteRuns(cfg, s, p, list, scan, f);
    if scan == Malicious {
      var u := s1.(cache := Evicted(s.cache, list[0].row.hash, f.delLost));
      EvictItemRuns(cfg, s1, p, list, f.delLost);
      Then(cfg, w, Goto(s1, p, RsEvict(list)), Onward(u, p, list));
      Then(cfg, Goto(s, p, RsScan(list)), w, Onward(u, p, list));
    } else {
      Then(cfg, Goto(s, p, RsScan(list)), w, Onward(s1, p, list));
    }
  }
}
