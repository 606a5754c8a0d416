/**
 * What the callers of Resolve, Shorten and Report are told, and what becomes of the shared state, in terms of the rows,
 * the cache entries and the reports themselves: every answer with the exact condition under which it is given.
 */
module Outcomes {
  import opened Wrappers
  import opened Base62
  import opened Anonymize
  import opened Store
  import opened Requests
  import opened Provenance

  // ----- Resolve ------------------------------------------------------------------------------

  /** Resolve without a cache, for a hash that a row has. */
  lemma ResolveRow(cfg: Config, t: Table, h: string, now: int, f: ResolveFaults, id: nat)
    requires WellFormed(t) && id in t.rows && t.rows[id].hash == h && !f.findFails
    ensures var a, row := ResolveUncached(cfg, t, h, now, f), t.rows[id];
            var expired := row.expiresAt.Some? && row.expiresAt.value < now;
            && (a == Gone <==> expired)
            && (a == BadScheme <==> !expired && !cfg.web(row.url))
            && (a == Refused <==> !expired && cfg.web(row.url) && row.status == Malicious)
            && (a == Served(row.url, id, row.status) <==> !expired && cfg.web(row.url) && row.status != Malicious)
            && (a.Served? ==> a == Served(row.url, id, row.status))
  {
    HashIsUnique(t, id, h);
  }

  /** Resolve without a cache, for a hash that no row has or that the database cannot look up. */
  lemma ResolveUnfound(cfg: Config, t: Table, h: string, now: int, f: ResolveFaults)
    ensures var a := ResolveUncached(cfg, t, h, now, f);
            && (a == Broken <==> f.findFails)
            && (a == Unknown <==> !f.findFails && forall id | id in t.rows :: t.rows[id].hash != h)
  {
    var found := FindByHash(t, h);
    if found.None? {
      forall id | id in t.rows ensures t.rows[id].hash != h {
        assert !RowOf(t, id, h);
      }
    }
  }

  /**
   * Resolve with a cache: a live url entry decides by itself; a miss or a failed read gives the answer of a nil cache.
   * Served on a miss fills both keys for cacheTTL, Refused drops both, everything else leaves the cache alone.
   */
  lemma CacheOutcome(cfg: Config, t: Table, c: Cache, h: string, now: int, f: ResolveFaults)
    ensures var (a, d) := ResolveCached(cfg, t, c, h, now, f);
            var hit := !f.getFails && h in c.urls && now < c.urls[h].deadline;
            && (hit && c.urls[h].status == Malicious ==> a == Refused)
            && (hit && c.urls[h].status != Malicious ==>
                  && d == c
                  && a == Served(c.urls[h].url, if h in c.metas && now < c.metas[h].deadline then c.metas[h].id else 0,
                                 c.urls[h].status))
            && (!hit ==> a == ResolveUncached(cfg, t, h, now, f))
            && (a == Refused ==> d == if f.delLost then c else Cache(c.urls - {h}, c.metas - {h}))
            && (!hit && a.Served? ==>
                  && d.urls == (if f.urlLost then c.urls else c.urls[h := UrlEntry(a.url, a.status, now + cfg.cacheTTL)])
                  && d.metas == (if f.metaLost then c.metas else c.metas[h := MetaEntry(a.id, now + cfg.cacheTTL)]))
            && (a != Refused && !a.Served? ==> d == c)
  {
    hide FindByHash;
  }

  // ----- Shorten ------------------------------------------------------------------------------

  /** Each answer of Shorten with the exact condition for it. */
  lemma ShortenAnswers(
    cfg: Config, t: Table, c: Cache, raw: string, now: int, pick: Option<nat>, scan: Status, f: ShortenFaults)
    requires WellFormed(t)
    requires cfg.accept(raw).Some? && !f.dedupFails ==> IsDedupPick(t, cfg.accept(raw).value, now, pick)
    ensures var a := ShortenResult(cfg, t, c, raw, now, pick, scan, f).0;
            var looked := cfg.accept(raw).Some? && !f.dedupFails;
            var duplicate := looked && exists id | id in t.rows ::
                               && t.rows[id].url == cfg.accept(raw).value
                               && (t.rows[id].expiresAt.Some? ==> t.rows[id].expiresAt.value > now);
            var creates := looked && !duplicate && scan != Malicious;
            var locked := t.nextId == TWO_64 || exists id | id in t.rows :: t.rows[id].hash == "";
            && (a == Rejected <==> cfg.accept(raw).None?)
            && (a == DedupFailed <==> cfg.accept(raw).Some? && f.dedupFails)
            && (a.Existing? <==> duplicate)
            && (a.Existing? ==>
                  && a.id in t.rows && t.rows[a.id].url == cfg.accept(raw).value
                  && (t.rows[a.id].expiresAt.Some? ==> t.rows[a.id].expiresAt.value > now))
            && (a == Flagged <==> looked && !duplicate && scan == Malicious)
            && (a == CreateFailed <==> creates && (f.create != Fine || locked))
            && (a == HashFailed <==> creates && f.create == Fine && !locked && f.hash != Fine)
            && (a.Created? <==> creates && f.create == Fine && !locked && f.hash == Fine)
  {
    hide LinkOf, CanSetHash, Filled, AfterStatus, AfterHash, IsDedupPick, WellFormed, CanInsert, Inserted, Burned;
    if cfg.accept(raw).Some? && !f.dedupFails {
      var url := cfg.accept(raw).value;
      PickDecides(t, url, now, pick);
      LockDecides(t);
      LinkIsFree(t, url, now, now + cfg.linkTTL);
    }
  }

  lemma PickDecides(t: Table, url: string, now: int, pick: Option<nat>)
    requires IsDedupPick(t, url, now, pick)
    ensures pick.Some? <==> exists id | id in t.rows ::
              t.rows[id].url == url && (t.rows[id].expiresAt.Some? ==> t.rows[id].expiresAt.value > now)
    ensures pick.Some? ==>
              && pick.value in t.rows && t.rows[pick.value].url == url
              && (t.rows[pick.value].expiresAt.Some? ==> t.rows[pick.value].expiresAt.value > now)
  {
    if id :| id in t.rows && t.rows[id].url == url && (t.rows[id].expiresAt.Some? ==> t.rows[id].expiresAt.value > now) {
      assert IsDuplicateOf(t, url, now, id);
    }
  }

  lemma LockDecides(t: Table)
    requires WellFormed(t)
    ensures CanInsert(t) <==> t.nextId != TWO_64 && forall id | id in t.rows :: t.rows[id].hash != ""
  {
    if !HashTaken(t, "") {
      forall id | id in t.rows ensures t.rows[id].hash != "" {
        assert !RowOf(t, id, "");
      }
    }
  }

  /** What Shorten leaves behind when it does not create a row at all. */
  lemma ShortenRefusals(
    cfg: Config, t: Table, c: Cache, raw: string, now: int, pick: Option<nat>, scan: Status, f: ShortenFaults)
    ensures var (a, u, d) := ShortenResult(cfg, t, c, raw, now, pick, scan, f);
            && (!a.Created? ==> d == c)
            && (!a.Created? && a != CreateFailed && a != HashFailed ==> u == t)
  {
    hide LinkOf, CanSetHash, Filled, AfterStatus, AfterHash, CanInsert, Inserted, Burned;
  }

  /** What a failed Shorten leaves behind: nothing, or a row that is still blank or has a link its caller never hears of. */
  lemma ShortenFailures(
    cfg: Config, t: Table, c: Cache, raw: string, now: int, pick: Option<nat>, scan: Status, f: ShortenFaults)
    requires WellFormed(t)
    ensures var (a, u, d) := ShortenResult(cfg, t, c, raw, now, pick, scan, f);
            var locked := t.nextId == TWO_64 || exists id | id in t.rows :: t.rows[id].hash == "";
            && (a == CreateFailed && f.create == Fails ==> u == t)
            && (a == CreateFailed && (f.create != AckLost || locked) ==> u.rows == t.rows)
            && (a == CreateFailed && f.create == AckLost && !locked ==>
                  u.rows == t.rows[t.nextId := Row("", cfg.accept(raw).value, now, Some(now + cfg.linkTTL), Pending)])
            && (a == HashFailed ==>
                  var h := if f.hash == Fails then "" else LinkOf(t.nextId);
                  u.rows == t.rows[t.nextId := Row(h, cfg.accept(raw).value, now, Some(now + cfg.linkTTL), Pending)])
  {
    hide WellFormed, LinkOf, ShortenNew, CanInsert;
    LockDecides(t);
    if cfg.accept(raw).Some? {
      CreateFailures(cfg, t, c, cfg.accept(raw).value, now, scan, f);
      HashFailures(cfg, t, c, cfg.accept(raw).value, now, scan, f);
    }
  }

  lemma CreateFailures(cfg: Config, t: Table, c: Cache, url: string, now: int, scan: Status, f: ShortenFaults)
    ensures var r := ShortenNew(cfg, t, c, url, now, scan, f);
            && (r.0 == CreateFailed && f.create == Fails ==> r.1 == t)
            && (r.0 == CreateFailed && (f.create != AckLost || !CanInsert(t)) ==> r.1.rows == t.rows)
            && (r.0 == CreateFailed && f.create == AckLost && CanInsert(t) ==>
                  r.1.rows == t.rows[t.nextId := Row("", url, now, Some(now + cfg.linkTTL), Pending)])
  {
    hide LinkOf, CanSetHash, CanInsert, AfterStatus, AfterHash, Filled;
  }

  lemma HashFailures(cfg: Config, t: Table, c: Cache, url: string, now: int, scan: Status, f: ShortenFaults)
    requires WellFormed(t)
    ensures var r := ShortenNew(cfg, t, c, url, now, scan, f);
            var h := if f.hash == Fails then "" else LinkOf(t.nextId);
            r.0 == HashFailed ==> r.1.rows == t.rows[t.nextId := Row(h, url, now, Some(now + cfg.linkTTL), Pending)]
  {
    hide WellFormed, LinkOf, CanSetHash, CanInsert, Inserted, AfterHash, AfterStatus, Filled;
    LinkIsFree(t, url, now, now + cfg.linkTTL);
    NewRows(t, url, now, now + cfg.linkTTL, LinkOf(t.nextId), scan);
  }

  /** The UNIQUE key never refuses a new row its own link. */
  lemma LinkIsFree(t: Table, url: string, now: int, expiresAt: int)
    requires WellFormed(t)
    ensures CanInsert(t) ==> CanSetHash(Inserted(t, url, now, expiresAt), t.nextId, LinkOf(t.nextId))
  {
    if CanInsert(t) {
      AddThenHash(t, url, now, expiresAt, Clean);
    }
  }

  /** The table after each of the three writes of Shorten. */
  lemma NewRows(t: Table, url: string, now: int, expiresAt: int, h: string, scan: Status)
    ensures var id, created := t.nextId, Inserted(t, url, now, expiresAt);
            && created.rows == t.rows[id := Row("", url, now, Some(expiresAt), Pending)]
            && AfterHash(created, id, h).rows == t.rows[id := Row(h, url, now, Some(expiresAt), Pending)]
            && AfterStatus(AfterHash(created, id, h), id, scan).rows
               == t.rows[id := Row(h, url, now, Some(expiresAt), scan)]
  {
  }

  /** A link that Shorten reports as created: a new row under the link of its id, and the cache entries for it. */
  lemma ShortenCreates(
    cfg: Config, t: Table, c: Cache, raw: string, now: int, pick: Option<nat>, scan: Status, f: ShortenFaults)
    requires WellFormed(t) && ShortenResult(cfg, t, c, raw, now, pick, scan, f).0.Created?
    ensures var (a, u, d) := ShortenResult(cfg, t, c, raw, now, pick, scan, f);
            && cfg.accept(raw).Some? && a.id < TWO_64 && a.id !in t.rows
            && a.hash == Encoded(a.id) && a.status == scan
            && u.rows == t.rows[a.id := Row(a.hash, cfg.accept(raw).value, now, Some(now + cfg.linkTTL),
                                            if f.statusFails then Pending else scan)]
            && d.urls == (if f.urlLost then c.urls
                          else c.urls[a.hash := UrlEntry(cfg.accept(raw).value, scan, now + cfg.linkTTL)])
            && d.metas == (if f.metaLost then c.metas else c.metas[a.hash := MetaEntry(a.id, now + cfg.linkTTL)])
  {
    NextIsNew(t);
    NewRows(t, cfg.accept(raw).value, now, now + cfg.linkTTL, LinkOf(t.nextId), scan);
    hide Encoded, CanSetHash, WellFormed, Inserted, AfterHash, AfterStatus;
  }

  lemma NextIsNew(t: Table)
    requires WellFormed(t)
    ensures t.nextId !in t.rows
  {
  }

  /** In a cache that holds rows' hashes only, a new id's link has no entry. */
  lemma NewLinkUncached(cfg: Config, t: Table, c: Cache, id: nat)
    requires WellFormed(t) && CacheOk(cfg, t, c) && id !in t.rows && id < TWO_64
    ensures Encoded(id) !in c.urls && Encoded(id) !in c.metas
  {
    var h := Encoded(id);
    if h in c.urls {
      var k :| UrlEntryOk(cfg, t, h, c.urls[h], k);
      HashNamesRow(t, k, h);
      LinksDiffer(k, id);
    }
    if h in c.metas {
      HashNamesRow(t, c.metas[h].id, h);
      LinksDiffer(c.metas[h].id, id);
    }
  }

  /**
   * The round trip. The hash that Shorten returns resolves to the URL it was given, until its expiry, with the cache that
   * Shorten leaves and with none, whatever cache writes were lost; the id is the row's, or 0 when only the meta key was.
   */
  lemma ShortenThenResolve(
    cfg: Config, t: Table, c: Cache, raw: string, now: int, pick: Option<nat>, scan: Status, f: ShortenFaults,
    later: int, g: ResolveFaults)
    requires ValidConfig(cfg) && WellFormed(t) && CacheOk(cfg, t, c) && scan != Malicious
    requires ShortenResult(cfg, t, c, raw, now, pick, scan, f).0.Created?
    requires now <= later <= now + cfg.linkTTL && !g.findFails
    ensures var (a, u, d) := ShortenResult(cfg, t, c, raw, now, pick, scan, f);
            var cached, uncached := ResolveCached(cfg, u, d, a.hash, later, g).0, ResolveUncached(cfg, u, a.hash, later, g);
            && cfg.accept(raw).Some?
            && uncached == Served(cfg.accept(raw).value, a.id, if f.statusFails then Pending else scan)
            && cached.Served? && cached.url == cfg.accept(raw).value
            && (cached.id == a.id || (cached.id == 0 && f.metaLost && !f.urlLost))
  {
    var (a, u, d) := ShortenResult(cfg, t, c, raw, now, pick, scan, f);
    ShortenForm(cfg, t, c, cfg.accept(raw).value, now, scan, f);
    ShortenCreates(cfg, t, c, raw, now, pick, scan, f);
    NewLinkUncached(cfg, t, c, a.id);
    hide Encoded, WellFormed, CacheOk, ShortenResult, ShortenNew;
    ResolveRow(cfg, u, a.hash, later, g, a.id);
    CacheOutcome(cfg, u, d, a.hash, later, g);
  }

  // ----- Report -------------------------------------------------------------------------------

  /** A report of a hash that no row has, or that the database cannot look up. */
  lemma ReportUnfound(
    cfg: Config, t: Table, c: Cache, reports: Reports, h: string, address: Option<Address>, reason: string, f: ReportFaults)
    ensures var (a, u, d, r) := ReportResult(cfg, t, c, reports, h, address, reason, f);
            && (a == FindFailed <==> f.findFails)
            && (a == NoSuchLink <==> !f.findFails && forall id | id in t.rows :: t.rows[id].hash != h)
            && (a == FindFailed || a == NoSuchLink ==> u == t && d == c && r == reports)
  {
    hide ReportersOf, AfterStatus, IsValidReason, Masked;
    var found := FindByHash(t, h);
    if found.None? {
      forall id | id in t.rows ensures t.rows[id].hash != h {
        assert !RowOf(t, id, h);
      }
    }
  }

  /** A report of an existing link: each answer with the exact condition for it, and the state it leaves. */
  lemma ReportOutcome(
    cfg: Config, t: Table, c: Cache, reports: Reports, h: string, address: Option<Address>, reason: string, f: ReportFaults,
    id: nat)
    requires WellFormed(t) && id in t.rows && t.rows[id].hash == h && !f.findFails
    ensures var (a, u, d, r) := ReportResult(cfg, t, c, reports, h, address, reason, f);
            var key := (id, Masked(address));
            var valid := reason in {"phishing", "malware", "spam", "illegal", "other"};
            var due := !f.countFails && |set p | p in r && p.0 == id :: p.1| >= cfg.threshold;
            && (a == InvalidReason <==> !valid)
            && (a == Duplicate <==> valid && f.insert != Fails && key in reports)
            && (a == InsertFailed <==> valid && (f.insert == Fails || (f.insert == AckLost && key !in reports)))
            && (a == Accepted <==> valid && f.insert == Fine && key !in reports)
            && (a == Accepted || (a == InsertFailed && f.insert == AckLost) ==> key !in reports && r == reports + {key})
            && (a == Duplicate || a == InvalidReason || (a == InsertFailed && f.insert == Fails) ==> r == reports)
            && (a != Accepted || !due ==> u == t && d == c)
            && (a == Accepted && due ==>
                  && u == (if f.statusFails then t else t.(rows := t.rows[id := t.rows[id].(status := Malicious)]))
                  && d == (if f.delLost then c else Cache(c.urls - {h}, c.metas - {h})))
  {
    HashIsUnique(t, id, h);
    hide WellFormed, FindByHash, Masked;
  }

  /**
   * Two reports in a row. After one from a was accepted, one from b is a duplicate exactly when b is of the same IPv4
   * /24 or IPv6 /64 as a, or was on record before, and is accepted otherwise.
   */
  lemma SecondReport(
    cfg: Config, t: Table, c: Cache, reports: Reports, h: string, id: nat,
    a: Address, reason: string, f: ReportFaults, b: Address, again: string, g: ReportFaults)
    requires WellFormed(t) && id in t.rows && t.rows[id].hash == h
    requires ReportResult(cfg, t, c, reports, h, Some(a), reason, f).0 == Accepted
    requires again in {"phishing", "malware", "spam", "illegal", "other"} && !g.findFails && g.insert == Fine
    ensures var (_, u, d, r) := ReportResult(cfg, t, c, reports, h, Some(a), reason, f);
            var second := ReportResult(cfg, u, d, r, h, Some(b), again, g).0;
            var sameNetwork := (IsV4(a) <==> IsV4(b)) && (if IsV4(a) then a[..15] == b[..15] else a[..8] == b[..8]);
            && (second == Duplicate <==> sameNetwork || (id, Masked(Some(b))) in reports)
            && (second == Accepted <==> !sameNetwork && (id, Masked(Some(b))) !in reports)
  {
    ReportUnfound(cfg, t, c, reports, h, Some(a), reason, f);
    assert !f.findFails;
    ReportOutcome(cfg, t, c, reports, h, Some(a), reason, f, id);
    var (_, u, d, r) := ReportResult(cfg, t, c, reports, h, Some(a), reason, f);
    StatusKeepsForm(t, id, Malicious);
    assert WellFormed(u) && id in u.rows && u.rows[id].hash == h;
    ReportOutcome(cfg, u, d, r, h, Some(b), again, g, id);
    SameReporter(a, b);
  }
}
