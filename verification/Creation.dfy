/** When links can still be created: the blank row of an interrupted Shorten, how it arises, and what it costs. */
module Creation {
  import opened Wrappers
  import opened Base62
  import opened Store
  import opened Links
  import opened Requests
  import opened Provenance
  import opened Bridge

  /** A Shorten that has inserted its row and will not assign its hash: the INSERT's success or the UPDATE is lost. */
  predicate Interrupted(f: ShortenFaults) {
    !f.dedupFails && (f.create == AckLost || (f.create == Fine && f.hash == Fails))
  }

  lemma OwnerHoldsBlank(cfg: Config, s: Sys, p: nat)
    requires Inv(cfg, s) && p in s.procs && s.procs[p].ShHash?
    ensures RowOf(s.table, s.procs[p].id, "")
  {
    assert ProcOk(cfg, s.table, s.now, s.procs[p]);
  }

  lemma NoOwner(cfg: Config, s: Sys)
    requires Inv(cfg, s) && CanInsert(s.table)
    ensures forall p | p in s.procs :: !s.procs[p].ShHash?
  {
    forall p | p in s.procs ensures !s.procs[p].ShHash? {
      if s.procs[p].ShHash? {
        OwnerHoldsBlank(cfg, s, p);
      }
    }
  }

  lemma InterruptedTable(cfg: Config, s: Sys, raw: string, scan: Status, f: ShortenFaults)
    requires Interrupted(f) && cfg.accept(raw).Some? && scan != Malicious && CanInsert(s.table)
    ensures var r := ShortenResult(cfg, s.table, s.cache, raw, s.now, None, scan, f);
            && r.1 == Inserted(s.table, cfg.accept(raw).value, s.now, s.now + cfg.linkTTL) && r.2 == s.cache
  {
    hide CanInsert, Inserted, LinkOf, CanSetHash;
  }

  lemma BlankRow(t: Table, url: string, now: int, expiresAt: int)
    requires CanInsert(t)
    ensures RowOf(Inserted(t, url, now, expiresAt), t.nextId, "")
  {
  }

  /** From every state that can take a row, one interrupted Shorten leads to a blank row without an owner. */
  lemma OrphanArises(cfg: Config, s: Sys, p: nat, raw: string, scan: Status, f: ShortenFaults) returns (t: Sys)
    requires Inv(cfg, s) && CanInsert(s.table) && p !in s.procs
    requires cfg.accept(raw).Some? && IsDedupPick(s.table, cfg.accept(raw).value, s.now, None)
    requires (scan == Clean || scan == Unverified) && Interrupted(f)
    ensures Reaches(cfg, s, t) && Orphaned(t, s.table.nextId)
    ensures cfg.accept(raw).Some? && t.table.rows[s.table.nextId].url == cfg.accept(raw).value
  {
    hide Inv, CanInsert, IsDedupPick, Interrupted, ShortenResult, Reaches;
    var url := cfg.accept(raw).value;
    ShortenRuns(cfg, s, p, raw, None, scan, f);
    InterruptedTable(cfg, s, raw, scan, f);
    BlankRow(s.table, url, s.now, s.now + cfg.linkTTL);
    NoOwner(cfg, s);
    t := s.(table := Inserted(s.table, url, s.now, s.now + cfg.linkTTL));
  }

  // ----- When creation is possible ------------------------------------------------------------

  ghost predicate HasOrphan(s: Sys) { exists id :: Orphaned(s, id) }

  ghost predicate NewLink(t: Table, u: Table, id: nat) { id !in t.rows && RowOf(u, id, LinkOf(id)) && LinkOf(id) != "" }

  /** Some continuation creates a link: a new row with its hash assigned. */
  ghost predicate CanCreate(cfg: Config, s: Sys) {
    exists t, id: nat :: Reaches(cfg, s, t) && NewLink(s.table, t.table, id)
  }

  lemma OrphanMeansNone(cfg: Config, s: Sys, t: Sys, id: nat)
    requires ValidConfig(cfg) && Inv(cfg, s) && Orphaned(s, id) && Reaches(cfg, s, t)
    ensures forall k: nat :: !NewLink(s.table, t.table, k)
  {
    hide ValidConfig, Inv, Orphaned, Legal, End;
    var acts :| RunsTo(cfg, s, t, acts);
    OrphanLocksForever(cfg, s, acts, id);
  }

  lemma FreshRow(cfg: Config, t: Table, c: Cache, url: string, now: int)
    requires WellFormed(t) && CanInsert(t)
    ensures NewLink(t, ShortenNew(cfg, t, c, url, now, Clean, ShortenFaults(false, Fine, Fine, false, false, false)).1, t.nextId)
  {
    NewIdIsNew(t);
    AddThenHash(t, url, now, now + cfg.linkTTL, Clean);
    LinksDiffer(t.nextId, t.nextId);
    hide WellFormed, LinkOf, CanInsert, CanSetHash, AddsAtMost;
  }

  /** With the empty hash free, a Shorten that meets no fault creates a link. */
  lemma FreeCreates(cfg: Config, s: Sys, p: nat, raw: string) returns (t: Sys)
    requires Inv(cfg, s) && CanInsert(s.table) && p !in s.procs
    requires cfg.accept(raw).Some? && IsDedupPick(s.table, cfg.accept(raw).value, s.now, None)
    ensures Reaches(cfg, s, t) && NewLink(s.table, t.table, s.table.nextId)
  {
    hide CanInsert, IsDedupPick, Reaches, WellFormed, ProcsOk, CacheOk, ShortenNew, NewLink;
    var f := ShortenFaults(false, Fine, Fine, false, false, false);
    ShortenRuns(cfg, s, p, raw, None, Clean, f);
    FreshRow(cfg, s.table, s.cache, cfg.accept(raw).value, s.now);
    var r := ShortenResult(cfg, s.table, s.cache, raw, s.now, None, Clean, f);
    t := s.(table := r.1, cache := r.2);
  }

  /** The owner of a blank row assigns its hash, which frees the empty hash. */
  lemma OwnerReleases(cfg: Config, s: Sys, o: nat) returns (t: Sys)
    requires ValidConfig(cfg) && Inv(cfg, s) && o in s.procs && s.procs[o].ShHash? && s.table.nextId < TWO_64
    ensures Reaches(cfg, s, t) && Inv(cfg, t) && CanInsert(t.table)
    ensures t.now == s.now && t.table == AfterHash(s.table, s.procs[o].id, LinkOf(s.procs[o].id))
    ensures t.procs.Keys == s.procs.Keys
  {
    var q := s.procs[o];
    OwnerHoldsBlank(cfg, s, o);
    HashKeepsForm(s.table, q.id);
    LinkFrees(s.table, q.id);
    hide ValidConfig, Inv, LinkOf, CanSetHash, AfterHash, CanInsert, RunProc;
    OneStep(cfg, s, Run(o, Does(true, true)));
    InvNext(cfg, s, Run(o, Does(true, true)));
    t := Next(cfg, s, Run(o, Does(true, true)));
    HashAssigned(cfg, s, o, q);
  }

  lemma HashAssigned(cfg: Config, s: Sys, o: nat, q: Proc)
    requires q.ShHash? && o in s.procs && s.procs[o] == q && CanSetHash(s.table, q.id, LinkOf(q.id))
    ensures var t := RunProc(cfg, s, o, q, Does(true, true));
            && t.now == s.now && t.table == AfterHash(s.table, q.id, LinkOf(q.id)) && t.procs.Keys == s.procs.Keys
  {
    hide LinkOf, CanSetHash, AfterHash;
  }

  lemma LinkFrees(t: Table, id: nat)
    requires WellFormed(t) && RowOf(t, id, "") && t.nextId < TWO_64
    ensures CanInsert(AfterHash(t, id, LinkOf(id)))
  {
    LinksDiffer(id, id);
    hide LinkOf;
    var u := AfterHash(t, id, LinkOf(id));
    forall other | other in u.rows ensures !RowOf(u, other, "") {
      assert other != id ==> !RowOf(t, other, "");
    }
  }

  lemma SameDuplicates(t: Table, id: nat, h: string, url: string, now: int)
    requires IsDedupPick(t, url, now, None)
    ensures IsDedupPick(AfterHash(t, id, h), url, now, None)
    ensures AfterHash(t, id, h).rows.Keys == t.rows.Keys && AfterHash(t, id, h).nextId == t.nextId
  {
  }

  lemma NewIdIsNew(t: Table)
    requires WellFormed(t)
    ensures t.nextId !in t.rows
  {
  }

  lemma StillFree(cfg: Config, s: Sys, p: nat, raw: string)
    requires ValidConfig(cfg) && Inv(cfg, s) && p !in s.procs && s.table.nextId < TWO_64
    requires cfg.accept(raw).Some? && IsDedupPick(s.table, cfg.accept(raw).value, s.now, None)
    requires !HasOrphan(s)
    ensures CanCreate(cfg, s)
  {
    hide ValidConfig, IsDedupPick, Reaches, WellFormed, ProcsOk, CacheOk, LinkOf;
    NewIdIsNew(s.table);
    if CanInsert(s.table) {
      var t := FreeCreates(cfg, s, p, raw);
    } else {
      var id := BlankId(s.table);
      assert !Orphaned(s, id);
      var o :| o in s.procs && s.procs[o].ShHash?;
      hide Inv, CanInsert, AfterHash;
      var h := LinkOf(s.procs[o].id);
      var u := OwnerReleases(cfg, s, o);
      SameDuplicates(s.table, s.procs[o].id, h, cfg.accept(raw).value, s.now);
      var t := FreeCreates(cfg, u, p, raw);
      Then(cfg, s, u, t);
      assert NewLink(s.table, t.table, s.table.nextId);
    }
  }

  lemma BlankId(t: Table) returns (id: nat)
    requires !CanInsert(t) && t.nextId < TWO_64
    ensures RowOf(t, id, "")
  {
    id :| id in t.rows && RowOf(t, id, "");
  }

  /**
   * In every reachable state with ids left and an accepted URL that has no unexpired row, a link can still be created,
   * by some continuation, exactly when no blank row has lost its owner.
   */
  lemma CreationTheorem(cfg: Config, s: Sys, p: nat, raw: string)
    requires ValidConfig(cfg) && Inv(cfg, s) && p !in s.procs && s.table.nextId < TWO_64
    requires cfg.accept(raw).Some? && IsDedupPick(s.table, cfg.accept(raw).value, s.now, None)
    ensures CanCreate(cfg, s) <==> !HasOrphan(s)
  {
    hide ValidConfig, Inv, IsDedupPick, Reaches, Orphaned;
    if id :| Orphaned(s, id) {
      forall t | Reaches(cfg, s, t) ensures forall k: nat :: !NewLink(s.table, t.table, k) {
        OrphanMeansNone(cfg, s, t, id);
      }
    } else {
      StillFree(cfg, s, p, raw);
    }
  }
}
