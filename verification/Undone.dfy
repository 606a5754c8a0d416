/** The other way to lose a block: the status write of the very Shorten that created the link. */
module Undone {
  import opened Wrappers
  import opened Anonymize
  import opened Store
  import opened Links
  import opened Requests
  import opened Provenance
  import opened Staleness
  import opened Bridge
  import opened Duplicates

  /** A Report that brings the count of a link to the threshold, as a run. */
  lemma ReportBlocks(cfg: Config, s: Sys, p: nat, id: nat, address: Option<Address>, reason: string) returns (t: Sys)
    requires WellFormed(s.table) && p !in s.procs && RowOf(s.table, id, LinkOf(id)) && LinkOf(id) != ""
    requires |ReportersOf(s.reports, id)| + 1 >= cfg.threshold && (id, Masked(address)) !in s.reports && IsValidReason(reason)
    ensures Reaches(cfg, s, t) && t.now == s.now && t.procs == s.procs
    ensures t.table == AfterStatus(s.table, id, Malicious)
  {
    hide Reaches, LinkOf, WellFormed, ReportersOf, Masked, IsValidReason, ReportResult, AfterStatus;
    var f := ReportFaults(false, Fine, false, false, false);
    var blocked := ReportRuns(cfg, s, p, LinkOf(id), address, reason, f);
    DecidingReport(cfg, Atom(s.now, s.table, s.cache, s.reports, []), id, address, reason);
    var r := ReportResult(cfg, s.table, s.cache, s.reports, LinkOf(id), address, reason, f);
    t := s.(table := r.1, cache := r.2, reports := r.3, blocked := blocked);
  }

  /** Every accepted URL without an unexpired row can bring a Shorten to the point before its status write. */
  lemma ReachesStatusWrite(cfg: Config, s: Sys, o: nat, raw: string, scan: Status) returns (t: Sys)
    requires WellFormed(s.table) && CanInsert(s.table) && o !in s.procs && (scan == Clean || scan == Unverified)
    requires cfg.accept(raw).Some? && IsDedupPick(s.table, cfg.accept(raw).value, s.now, None)
    ensures Reaches(cfg, s, t) && t.reports == s.reports && t.now == s.now && WellFormed(t.table)
    ensures t.procs == s.procs[o := ShStatus(cfg.accept(raw).value, scan, s.now, s.table.nextId)]
    ensures RowOf(t.table, s.table.nextId, LinkOf(s.table.nextId)) && LinkOf(s.table.nextId) != ""
  {
    hide Reaches, LinkOf, WellFormed, CanInsert, CanSetHash, IsDedupPick, Linked, Duplicates.Created;
    var url, id := cfg.accept(raw).value, s.table.nextId;
    ReachesInsert(cfg, s, o, raw, scan);
    LinkedForm(cfg, s, url);
    LinkedRows(cfg, s, url);
    assert LinkOf(id) != "" by { FreshLink(s.table); }
    InsertsAndHashes(cfg, s, o, url, scan);
    t := Goto(s.(table := Linked(cfg, s, url)), o, ShStatus(url, scan, s.now, id));
    Then(cfg, s, Goto(s, o, ShCreate(url, scan, s.now)), t);
  }

  lemma FreshLink(t: Table)
    requires CanInsert(t)
    ensures LinkOf(t.nextId) != ""
  {
    LinksDiffer(t.nextId, t.nextId);
  }

  lemma StatusWritten(cfg: Config, t: Sys, o: nat, q: Proc)
    requires o in t.procs && t.procs[o] == q && q.ShStatus?
    ensures Enabled(cfg, t, Run(o, Does(true, true)))
    ensures Next(cfg, t, Run(o, Does(true, true))).table == AfterStatus(t.table, q.id, q.status)
  {
    hide LinkOf, AfterStatus;
  }

  /**
   * Whenever a Shorten is about to write its scan status, and threshold - 1 reporters of its link are on record, one
   * more Report blocks the link and the status write then takes the block back: no fault, no rescan.
   */
  lemma CreatorUndoesBlock(cfg: Config, s: Sys, o: nat, p: nat, address: Option<Address>, reason: string)
    returns (t: Sys, u: Sys)
    requires Inv(cfg, s) && o in s.procs && s.procs[o].ShStatus? && p !in s.procs && IsValidReason(reason)
    requires var id := s.procs[o].id;
             |ReportersOf(s.reports, id)| + 1 >= cfg.threshold && (id, Masked(address)) !in s.reports
    ensures Reaches(cfg, s, t) && IsMalicious(t.table, s.procs[o].id)
    ensures Reaches(cfg, t, u) && !IsMalicious(u.table, s.procs[o].id) && u.now == s.now
  {
    var q := s.procs[o];
    OwnerAtStatus(cfg, s, o);
    hide Inv, Reaches, LinkOf, WellFormed, ReportersOf, Masked, IsValidReason, Next, Enabled;
    t := ReportBlocks(cfg, s, p, q.id, address, reason);
    StatusWritten(cfg, t, o, q);
    OneStep(cfg, t, Run(o, Does(true, true)));
    u := Next(cfg, t, Run(o, Does(true, true)));
    ClockForward(cfg, t, Run(o, Does(true, true)));
  }

  lemma OwnerAtStatus(cfg: Config, s: Sys, o: nat)
    requires Inv(cfg, s) && o in s.procs && s.procs[o].ShStatus?
    ensures var q := s.procs[o];
            WellFormed(s.table) && RowOf(s.table, q.id, LinkOf(q.id)) && LinkOf(q.id) != "" && q.status != Malicious
  {
    hide WellFormed, CacheOk, LinkOf;
    assert ProcOk(cfg, s.table, s.now, s.procs[o]);
    LinksDiffer(s.procs[o].id, s.procs[o].id);
  }
}
