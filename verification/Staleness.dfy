/** How long the cache can outlive the truth: bounds on serving a blocked link and on serving an expired one. */
module Staleness {
  import opened Wrappers
  import opened Store
  import opened Links
  import opened Provenance

  /** When the snapshot that a request will write into the cache was taken, if it holds one. */
  function Since(q: Proc): Option<int> {
    match q
    case ResCheck(_, _, _, readAt) => Some(readAt)
    case ShCreate(_, _, at) => Some(at)
    case ShHash(_, _, at, _) => Some(at)
    case ShStatus(_, _, at, _) => Some(at)
    case FillUrl(j) => Some(j.since)
    case FillMeta(j) => Some(j.since)
    case _ => None
  }

  /** No request is older than delta, counted from its row read or expiry stamp until its cache fill has ended. */
  ghost predicate Prompt(s: Sys, delta: int) {
    forall p | p in s.procs && Since(s.procs[p]).Some? :: s.now <= Since(s.procs[p]).value + delta
  }

  ghost predicate AllPrompt(cfg: Config, s: Sys, acts: seq<Action>, delta: int)
    requires Legal(cfg, s, acts)
  {
    Along(cfg, s, acts, (x: Sys) => Prompt(x, delta))
  }

  ghost predicate StaysMalicious(cfg: Config, s: Sys, acts: seq<Action>, id: nat)
    requires Legal(cfg, s, acts)
  {
    Along(cfg, s, acts, (x: Sys) => IsMalicious(x.table, id))
  }

  // ----- Deadlines never run ahead of the clock by more than the larger TTL --------------------

  ghost predicate Bounded(cfg: Config, s: Sys) {
    forall h | h in s.cache.urls :: s.cache.urls[h].deadline <= s.now + MaxTTL(cfg)
  }

  /** The only step that gives a url key a new value. */
  lemma OnlyFillWrites(cfg: Config, s: Sys, a: Action, h: string)
    requires Enabled(cfg, s, a) && h in Next(cfg, s, a).cache.urls
    requires h !in s.cache.urls || Next(cfg, s, a).cache.urls[h] != s.cache.urls[h]
    ensures a.Run? && a.p in s.procs && a.io.applied && s.procs[a.p].FillUrl?
    ensures var j := s.procs[a.p].job;
            j.h == h && Next(cfg, s, a).cache.urls[h] == UrlEntry(j.url, j.status, s.now + j.ttl)
  {
  }

  lemma BoundedNext(cfg: Config, s: Sys, a: Action)
    requires ValidConfig(cfg) && Inv(cfg, s) && Enabled(cfg, s, a) && Bounded(cfg, s)
    ensures Bounded(cfg, Next(cfg, s, a))
  {
    hide RunProc, IoAllowed, CanStart;
    var s' := Next(cfg, s, a);
    ClockForward(cfg, s, a);
    forall h | h in s'.cache.urls ensures s'.cache.urls[h].deadline <= s'.now + MaxTTL(cfg) {
      if h !in s.cache.urls || s'.cache.urls[h] != s.cache.urls[h] {
        OnlyFillWrites(cfg, s, a, h);
        assert ProcOk(cfg, s.table, s.now, s.procs[a.p]);
      }
    }
  }

  lemma ClockForward(cfg: Config, s: Sys, a: Action)
    requires Enabled(cfg, s, a)
    ensures s.now <= Next(cfg, s, a).now
    ensures a.Run? ==> s.now == Next(cfg, s, a).now
  {
  }

  lemma {:induction false} BoundedRun(cfg: Config, s: Sys, acts: seq<Action>)
    requires ValidConfig(cfg) && Inv(cfg, s) && Legal(cfg, s, acts) && Bounded(cfg, s)
    ensures Bounded(cfg, End(cfg, s, acts))
    decreases |acts|
  {
    hide ValidConfig, Inv, Enabled, Next, Bounded;
    if acts != [] {
      InvNext(cfg, s, acts[0]);
      BoundedNext(cfg, s, acts[0]);
      BoundedRun(cfg, Next(cfg, s, acts[0]), acts[1..]);
    }
  }

  lemma ReachableBounded(cfg: Config, s: Sys)
    requires ValidConfig(cfg) && Reachable(cfg, s)
    ensures Inv(cfg, s) && Bounded(cfg, s)
  {
    hide ValidConfig, Inv, Enabled, Next;
    var s0, acts :| EndsIn(cfg, s0, acts, s);
    InitialInv(cfg, s0);
    InvRun(cfg, s0, acts);
    BoundedRun(cfg, s0, acts);
  }

  // ----- A blocked link -----------------------------------------------------------------------

  /** A request that may still write row id into the cache as harmless took its snapshot no later than since. */
  predicate OldNews(q: Proc, id: nat, since: int) {
    match q
    case ResCheck(_, k, row, readAt) => k == id && row.status != Malicious ==> readAt <= since
    case ShHash(_, _, at, k) => k == id ==> at <= since
    case ShStatus(_, _, at, k) => k == id ==> at <= since
    case FillUrl(j) => j.id == id ==> j.since <= since
    case FillMeta(j) => j.id == id ==> j.since <= since
    case _ => true
  }

  ghost predicate Contained(s: Sys, id: nat, since: int, limit: int) {
    && (forall p | p in s.procs :: OldNews(s.procs[p], id, since))
    && (LinkOf(id) in s.cache.urls ==> s.cache.urls[LinkOf(id)].deadline <= limit)
  }

  lemma ContainedAtBlock(cfg: Config, s: Sys, id: nat, delta: int)
    requires Inv(cfg, s) && Bounded(cfg, s) && delta >= 0
    ensures Contained(s, id, s.now, s.now + delta + MaxTTL(cfg))
  {
    forall p | p in s.procs ensures OldNews(s.procs[p], id, s.now) {
      assert ProcOk(cfg, s.table, s.now, s.procs[p]);
    }
  }

  /** A request's own step leaves it with old news or none, once the row is malicious. */
  lemma OldNewsResolve(cfg: Config, s: Sys, p: nat, q: Proc, io: Io, id: nat, since: int)
    requires q.ResGet? || q.ResFind? || q.ResCheck?
    requires IsMalicious(s.table, id) && OldNews(q, id, since)
    ensures var s' := RunResolve(cfg, s, p, q, io); p in s'.procs ==> OldNews(s'.procs[p], id, since)
  {
    hide Lookup;
  }

  lemma OldNewsShorten(cfg: Config, s: Sys, p: nat, q: Proc, io: Io, id: nat, since: int)
    requires q.ShDedup? || q.ShScan? || q.ShCreate? || q.ShHash? || q.ShStatus?
    requires IsMalicious(s.table, id) && OldNews(q, id, since) && s.table.nextId !in s.table.rows
    ensures var s' := RunShorten(cfg, s, p, q, io); p in s'.procs ==> OldNews(s'.procs[p], id, since)
  {
    hide CanInsert, CanSetHash, LinkOf;
  }

  lemma OldNewsOther(cfg: Config, s: Sys, p: nat, q: Proc, io: Io, id: nat, since: int)
    requires IoAllowed(s, q, io) && OldNews(q, id, since)
    requires !q.ResGet? && !q.ResFind? && !q.ResCheck?
    requires !q.ShDedup? && !q.ShScan? && !q.ShCreate? && !q.ShHash? && !q.ShStatus?
    ensures var s' := RunProc(cfg, s, p, q, io); p in s'.procs ==> OldNews(s'.procs[p], id, since)
  {
    hide FindByHash, ReportersOf, IsValidReason, IsFetch, IsDedupPick;
  }

  lemma OldNewsStep(cfg: Config, s: Sys, p: nat, io: Io, id: nat, since: int)
    requires Inv(cfg, s) && p in s.procs && IoAllowed(s, s.procs[p], io)
    requires IsMalicious(s.table, id) && OldNews(s.procs[p], id, since)
    ensures var s' := RunProc(cfg, s, p, s.procs[p], io); p in s'.procs ==> OldNews(s'.procs[p], id, since)
  {
    hide CacheOk, ProcsOk, IoAllowed, OldNews, IsMalicious, RunResolve, RunShorten, RunCache, RunReport, RunRescan;
    var q := s.procs[p];
    if q.ResGet? || q.ResFind? || q.ResCheck? {
      OldNewsResolve(cfg, s, p, q, io, id, since);
    } else if q.ShDedup? || q.ShScan? || q.ShCreate? || q.ShHash? || q.ShStatus? {
      OldNewsShorten(cfg, s, p, q, io, id, since);
    } else {
      OldNewsOther(cfg, s, p, q, io, id, since);
    }
  }

  lemma JobOwner(cfg: Config, s: Sys, p: nat, id: nat)
    requires Inv(cfg, s) && p in s.procs && (s.procs[p].FillUrl? || s.procs[p].FillMeta?)
    requires id in s.table.rows && s.procs[p].job.h == LinkOf(id)
    ensures s.procs[p].job.id == id
  {
    var j := s.procs[p].job;
    assert ProcOk(cfg, s.table, s.now, s.procs[p]);
    HashNamesRow(s.table, j.id, j.h);
    LinksDiffer(j.id, id);
  }

  lemma ContainedNext(cfg: Config, s: Sys, a: Action, id: nat, since: int, delta: int)
    requires ValidConfig(cfg) && Inv(cfg, s) && Enabled(cfg, s, a) && Prompt(s, delta)
    requires IsMalicious(s.table, id) && Contained(s, id, since, since + delta + MaxTTL(cfg))
    ensures Contained(Next(cfg, s, a), id, since, since + delta + MaxTTL(cfg))
  {
    hide RunProc, IoAllowed, ValidConfig, Inv;
    var s', h := Next(cfg, s, a), LinkOf(id);
    if !a.Advance? {
      StepFrame(cfg, s, a);
      forall q | q in s'.procs ensures OldNews(s'.procs[q], id, since) {
        if q == a.p && a.Run? {
          OldNewsStep(cfg, s, a.p, a.io, id, since);
        }
      }
    }
    if h in s'.cache.urls && (h !in s.cache.urls || s'.cache.urls[h] != s.cache.urls[h]) {
      OnlyFillWrites(cfg, s, a, h);
      JobOwner(cfg, s, a.p, id);
      JobTTL(cfg, s, a.p);
    }
  }

  lemma JobTTL(cfg: Config, s: Sys, p: nat)
    requires Inv(cfg, s) && p in s.procs && s.procs[p].FillUrl?
    ensures s.procs[p].job.ttl <= MaxTTL(cfg)
  {
    assert ProcOk(cfg, s.table, s.now, s.procs[p]);
  }

  lemma {:induction false} ContainedRun(cfg: Config, s: Sys, acts: seq<Action>, id: nat, since: int, delta: int)
    requires ValidConfig(cfg) && Inv(cfg, s) && Legal(cfg, s, acts)
    requires AllPrompt(cfg, s, acts, delta) && StaysMalicious(cfg, s, acts, id)
    requires Contained(s, id, since, since + delta + MaxTTL(cfg))
    ensures Contained(End(cfg, s, acts), id, since, since + delta + MaxTTL(cfg))
    ensures Prompt(End(cfg, s, acts), delta) && IsMalicious(End(cfg, s, acts).table, id)
    decreases |acts|
  {
    hide ValidConfig, Inv, Enabled, Next, Contained;
    if acts != [] {
      InvNext(cfg, s, acts[0]);
      ContainedNext(cfg, s, acts[0], id, since, delta);
      ContainedRun(cfg, Next(cfg, s, acts[0]), acts[1..], id, since, delta);
    }
  }

  lemma ServedSoon(cfg: Config, s: Sys, a: Action, id: nat, since: int, delta: int)
    requires ValidConfig(cfg) && Inv(cfg, s) && Enabled(cfg, s, a) && Prompt(s, delta) && IsMalicious(s.table, id)
    requires Contained(s, id, since, since + delta + MaxTTL(cfg)) && Serves(s, a, LinkOf(id))
    ensures s.now < since + delta + MaxTTL(cfg)
  {
    hide Inv, Next, IoAllowed;
    if s.procs[a.p].FillMeta? {
      JobOwner(cfg, s, a.p, id);
    }
  }

  /**
   * Blocking takes hold. If row id is malicious from some moment on, then whatever interleaves and however many cache
   * deletes are lost, every later success of a Resolve of its link comes before that moment plus delta plus the larger
   * TTL, where delta bounds how long a request takes from its row read (or expiry stamp) to the end of its cache fill.
   */
  lemma BlockedWithin(cfg: Config, s: Sys, acts: seq<Action>, a: Action, id: nat, delta: int)
    requires ValidConfig(cfg) && delta >= 0 && Reachable(cfg, s)
    requires Legal(cfg, s, acts) && AllPrompt(cfg, s, acts, delta) && StaysMalicious(cfg, s, acts, id)
    requires Enabled(cfg, End(cfg, s, acts), a) && Serves(End(cfg, s, acts), a, LinkOf(id))
    ensures End(cfg, s, acts).now < s.now + delta + MaxTTL(cfg)
  {
    hide ValidConfig, Inv, Enabled, Next, Contained, Prompt, Serves, IsMalicious;
    ReachableBounded(cfg, s);
    ContainedAtBlock(cfg, s, id, delta);
    ContainedRun(cfg, s, acts, id, s.now, delta);
    InvRun(cfg, s, acts);
    ServedSoon(cfg, End(cfg, s, acts), a, id, s.now, delta);
  }

  // ----- Which steps undo a block -------------------------------------------------------------

  /** The writes that can take a row out of malicious: a rescan's, and the creating Shorten's own. */
  predicate Unblocks(s: Sys, a: Action, id: nat) {
    && a.Run? && a.p in s.procs && a.io.applied
    && ((s.procs[a.p].RsWrite? && s.procs[a.p].list != [] && s.procs[a.p].list[0].id == id
         && s.procs[a.p].status != Malicious)
        || (s.procs[a.p].ShStatus? && s.procs[a.p].id == id))
  }

  predicate WritesTable(q: Proc) { q.ShCreate? || q.ShHash? || q.ShStatus? || q.RpBlock? || q.RsWrite? }

  lemma OthersLeaveTable(cfg: Config, s: Sys, a: Action)
    requires Enabled(cfg, s, a) && (a.Run? ==> !WritesTable(s.procs[a.p]))
    ensures Next(cfg, s, a).table == s.table
  {
  }

  lemma TableWrites(cfg: Config, s: Sys, a: Action, id: nat)
    requires Inv(cfg, s) && Enabled(cfg, s, a) && IsMalicious(s.table, id)
    requires a.Run? && WritesTable(s.procs[a.p])
    ensures IsMalicious(Next(cfg, s, a).table, id) <==> !Unblocks(s, a, id)
  {
    hide CacheOk;
    assert ProcOk(cfg, s.table, s.now, s.procs[a.p]);
  }

  /** A malicious row stops being malicious on exactly these steps, in any reachable state. */
  lemma UnblockingSteps(cfg: Config, s: Sys, a: Action, id: nat)
    requires Inv(cfg, s) && Enabled(cfg, s, a) && IsMalicious(s.table, id)
    ensures IsMalicious(Next(cfg, s, a).table, id) <==> !Unblocks(s, a, id)
  {
    hide Inv, Next;
    if a.Run? && WritesTable(s.procs[a.p]) {
      TableWrites(cfg, s, a, id);
    } else {
      OthersLeaveTable(cfg, s, a);
    }
  }

  // ----- An expired link ----------------------------------------------------------------------

  /** Entries lapse at most delta + cacheTTL after their row expires. */
  ghost predicate Lapsing(cfg: Config, s: Sys, delta: int) {
    forall h, id: nat | h in s.cache.urls && RowOf(s.table, id, h) && s.table.rows[id].expiresAt.Some? ::
      s.cache.urls[h].deadline <= s.table.rows[id].expiresAt.value + delta + cfg.cacheTTL
  }

  /** The row behind a cached hash is the same before and after a step. */
  lemma CachedRowKept(cfg: Config, s: Sys, a: Action, h: string, id: nat)
    requires ValidConfig(cfg) && Inv(cfg, s) && Enabled(cfg, s, a)
    requires h in s.cache.urls && RowOf(Next(cfg, s, a).table, id, h)
    ensures RowOf(s.table, id, h) && s.table.rows[id].expiresAt == Next(cfg, s, a).table.rows[id].expiresAt
  {
    hide Next, Enabled;
    InvNext(cfg, s, a);
    var k :| UrlEntryOk(cfg, s.table, h, s.cache.urls[h], k);
    assert RowOf(Next(cfg, s, a).table, k, h);
    HashNamesRow(Next(cfg, s, a).table, id, h);
  }

  lemma FillBeforeLapse(cfg: Config, s: Sys, p: nat, delta: int, id: nat)
    requires Inv(cfg, s) && p in s.procs && Prompt(s, delta) && (s.procs[p].FillUrl? || s.procs[p].FillMeta?)
    requires RowOf(s.table, id, s.procs[p].job.h) && s.table.rows[id].expiresAt.Some?
    ensures s.now + s.procs[p].job.ttl <= s.table.rows[id].expiresAt.value + delta + cfg.cacheTTL
  {
    var j := s.procs[p].job;
    assert ProcOk(cfg, s.table, s.now, s.procs[p]);
    HashNamesRow(s.table, j.id, j.h);
  }

  lemma LapsingNext(cfg: Config, s: Sys, a: Action, delta: int)
    requires ValidConfig(cfg) && Inv(cfg, s) && Enabled(cfg, s, a) && Prompt(s, delta) && Lapsing(cfg, s, delta)
    ensures Lapsing(cfg, Next(cfg, s, a), delta)
  {
    hide Inv, Next, Enabled, IoAllowed, Prompt;
    var s' := Next(cfg, s, a);
    forall h, id: nat | h in s'.cache.urls && RowOf(s'.table, id, h) && s'.table.rows[id].expiresAt.Some?
      ensures s'.cache.urls[h].deadline <= s'.table.rows[id].expiresAt.value + delta + cfg.cacheTTL
    {
      if h !in s.cache.urls || s'.cache.urls[h] != s.cache.urls[h] {
        OnlyFillWrites(cfg, s, a, h);
        FillKeepsTable(cfg, s, a);
        FillBeforeLapse(cfg, s, a.p, delta, id);
      } else {
        CachedRowKept(cfg, s, a, h, id);
      }
    }
  }

  lemma FillKeepsTable(cfg: Config, s: Sys, a: Action)
    requires Enabled(cfg, s, a) && a.Run? && s.procs[a.p].FillUrl?
    ensures Next(cfg, s, a).table == s.table
  {
  }

  lemma {:induction false} LapsingRun(cfg: Config, s: Sys, acts: seq<Action>, delta: int)
    requires ValidConfig(cfg) && Inv(cfg, s) && Legal(cfg, s, acts) && AllPrompt(cfg, s, acts, delta)
    requires Lapsing(cfg, s, delta)
    ensures Lapsing(cfg, End(cfg, s, acts), delta) && Prompt(End(cfg, s, acts), delta)
    decreases |acts|
  {
    hide ValidConfig, Inv, Enabled, Next, Lapsing;
    if acts != [] {
      InvNext(cfg, s, acts[0]);
      LapsingNext(cfg, s, acts[0], delta);
      LapsingRun(cfg, Next(cfg, s, acts[0]), acts[1..], delta);
    }
  }

  lemma ServedBeforeLapse(cfg: Config, s: Sys, a: Action, id: nat, delta: int)
    requires ValidConfig(cfg) && Inv(cfg, s) && Enabled(cfg, s, a) && Prompt(s, delta) && Lapsing(cfg, s, delta)
    requires id in s.table.rows && s.table.rows[id].hash != "" && s.table.rows[id].expiresAt.Some?
    requires Serves(s, a, s.table.rows[id].hash)
    ensures s.now < s.table.rows[id].expiresAt.value + delta + cfg.cacheTTL
  {
    hide Inv, Next, IoAllowed, Prompt;
    if s.procs[a.p].FillMeta? {
      FillBeforeLapse(cfg, s, a.p, delta, id);
      JobTTLPositive(cfg, s, a.p);
    }
  }

  lemma JobTTLPositive(cfg: Config, s: Sys, p: nat)
    requires ValidConfig(cfg) && Inv(cfg, s) && p in s.procs && s.procs[p].FillMeta?
    ensures s.procs[p].job.ttl > 0
  {
    assert ProcOk(cfg, s.table, s.now, s.procs[p]);
  }

  /** Cache hits never check expiry, yet no link is served at or after its expiry plus delta plus the cache TTL. */
  lemma ExpiredWithin(cfg: Config, s0: Sys, acts: seq<Action>, a: Action, id: nat, delta: int)
    requires ValidConfig(cfg) && Initial(s0) && Legal(cfg, s0, acts) && AllPrompt(cfg, s0, acts, delta)
    requires var s := End(cfg, s0, acts);
             && Enabled(cfg, s, a)
             && id in s.table.rows && s.table.rows[id].hash != "" && s.table.rows[id].expiresAt.Some?
             && Serves(s, a, s.table.rows[id].hash)
    ensures var s := End(cfg, s0, acts); s.now < s.table.rows[id].expiresAt.value + delta + cfg.cacheTTL
  {
    hide ValidConfig, Inv, Enabled, Next, Prompt, Serves;
    InitialInv(cfg, s0);
    InvRun(cfg, s0, acts);
    LapsingRun(cfg, s0, acts, delta);
    ServedBeforeLapse(cfg, End(cfg, s0, acts), a, id, delta);
  }

  // ----- The expiry bound is reached up to one unit of time -----------------------------------

  const OK: Io := Io(true, true, Clean, None, [])

  /** A link read at its expiry, cached delta later, and asked for again when its entry has one unit to live. */
  function LateRun(cfg: Config, delta: nat): seq<Action>
    requires cfg.cacheTTL > 0
  {
    [Begin(0, Resolve(LinkOf(1))), Run(0, OK), Run(0, OK), Run(0, OK), Advance(delta), Run(0, OK), Run(0, OK),
     Advance(cfg.cacheTTL - 1), Begin(1, Resolve(LinkOf(1)))]
  }

  /** The state after the first k steps of LateRun, for one clean link to url that expires at e. */
  function LateState(cfg: Config, url: string, e: int, delta: nat, k: nat): Sys
    requires cfg.cacheTTL > 0
  {
    var h := LinkOf(1);
    var row := Row(h, url, e, Some(e), Clean);
    var job := FillJob(h, url, Clean, 1, cfg.cacheTTL, e, true);
    var lapse := e + delta + cfg.cacheTTL;
    Sys(if k < 5 then e else if k < 8 then e + delta else lapse - 1,
        Table(map[1 := row], 2),
        Cache(if k < 6 then map[] else map[h := UrlEntry(url, Clean, lapse)],
              if k < 7 then map[] else map[h := MetaEntry(1, lapse)]),
        {}, {},
        if k == 0 then map[]
        else if k == 1 then map[0 := ResGet(h)]
        else if k == 2 then map[0 := ResFind(h)]
        else if k == 3 then map[0 := ResCheck(h, 1, row, e)]
        else if k < 6 then map[0 := FillUrl(job)]
        else if k == 6 then map[0 := FillMeta(job)]
        else if k < 9 then map[]
        else map[1 := ResGet(h)])
  }

  lemma LateTable(cfg: Config, url: string, e: int, delta: nat, k: nat)
    requires cfg.cacheTTL > 0
    ensures WellFormed(LateState(cfg, url, e, delta, k).table) && LinkOf(1) != ""
    ensures FindByHash(LateState(cfg, url, e, delta, k).table, LinkOf(1)) == Some(1)
  {
    LinksDiffer(1, 1);
    HashNamesRow(LateState(cfg, url, e, delta, k).table, 1, LinkOf(1));
  }

  lemma LateRead(cfg: Config, url: string, e: int, delta: nat, k: nat)
    requires cfg.cacheTTL > 0 && cfg.web(url) && k < 4
    ensures var s, a := LateState(cfg, url, e, delta, k), LateRun(cfg, delta)[k];
            && Enabled(cfg, s, a)
            && Next(cfg, s, a) == LateState(cfg, url, e, delta, k + 1)
  {
    hide LinkOf, FindByHash, WellFormed, RunShorten, RunReport, RunRescan, RunCache, IsFetch, IsDedupPick;
    LateTable(cfg, url, e, delta, k);
    var s, s', a := LateState(cfg, url, e, delta, k), LateState(cfg, url, e, delta, k + 1), LateRun(cfg, delta)[k];
    assert Next(cfg, s, a).procs == s'.procs;
    assert Next(cfg, s, a).cache == s'.cache;
  }

  lemma LateFill(cfg: Config, url: string, e: int, delta: nat, k: nat)
    requires cfg.cacheTTL > 0 && cfg.web(url) && 4 <= k < 9
    ensures var s, a := LateState(cfg, url, e, delta, k), LateRun(cfg, delta)[k];
            && Enabled(cfg, s, a)
            && Next(cfg, s, a) == LateState(cfg, url, e, delta, k + 1)
  {
    hide LinkOf, FindByHash, WellFormed, RunShorten, RunReport, RunRescan, RunResolve, IsFetch, IsDedupPick;
    LateTable(cfg, url, e, delta, k);
    var s, s', a := LateState(cfg, url, e, delta, k), LateState(cfg, url, e, delta, k + 1), LateRun(cfg, delta)[k];
    assert Next(cfg, s, a).procs == s'.procs;
    assert Next(cfg, s, a).cache == s'.cache;
  }

  lemma LateStep(cfg: Config, url: string, e: int, delta: nat, k: nat)
    requires cfg.cacheTTL > 0 && cfg.web(url) && k < 9
    ensures var s, a := LateState(cfg, url, e, delta, k), LateRun(cfg, delta)[k];
            && Enabled(cfg, s, a)
            && Next(cfg, s, a) == LateState(cfg, url, e, delta, k + 1)
    ensures Prompt(LateState(cfg, url, e, delta, k + 1), delta)
  {
    hide LinkOf, Next, Enabled;
    if k < 4 {
      LateRead(cfg, url, e, delta, k);
    } else {
      LateFill(cfg, url, e, delta, k);
    }
  }

  lemma {:induction false} LatePrefix(cfg: Config, url: string, e: int, delta: nat, k: nat)
    requires cfg.cacheTTL > 0 && cfg.web(url) && k <= 9
    ensures Legal(cfg, LateState(cfg, url, e, delta, 0), LateRun(cfg, delta)[..k])
    ensures End(cfg, LateState(cfg, url, e, delta, 0), LateRun(cfg, delta)[..k]) == LateState(cfg, url, e, delta, k)
    ensures AllPrompt(cfg, LateState(cfg, url, e, delta, 0), LateRun(cfg, delta)[..k], delta)
  {
    if k == 0 {
      assert LateRun(cfg, delta)[..0] == [];
    } else {
      hide LateState, Next, Enabled, Prompt;
      var run := LateRun(cfg, delta);
      LatePrefix(cfg, url, e, delta, k - 1);
      LateStep(cfg, url, e, delta, k - 1);
      Grow(cfg, LateState(cfg, url, e, delta, 0), run[..k - 1], run[k - 1], (x: Sys) => Prompt(x, delta));
      assert run[..k] == run[..k - 1] + [run[k - 1]];
    }
  }

  /** For every setting, delta and expiry there is a run that serves a link one unit before ExpiredWithin's bound. */
  lemma ExpiredBoundReached(cfg: Config, url: string, e: int, delta: nat) returns (s0: Sys, acts: seq<Action>, a: Action)
    requires ValidConfig(cfg) && cfg.web(url)
    ensures Initial(s0) && Legal(cfg, s0, acts) && AllPrompt(cfg, s0, acts, delta)
    ensures var s := End(cfg, s0, acts);
            && Enabled(cfg, s, a) && Serves(s, a, LinkOf(1))
            && RowOf(s.table, 1, LinkOf(1)) && s.table.rows[1].expiresAt == Some(e)
            && s.now == e + delta + cfg.cacheTTL - 1
  {
    hide LinkOf, Legal, End, Along, WellFormed, RunProc;
    s0, acts, a := LateState(cfg, url, e, delta, 0), LateRun(cfg, delta), Run(1, OK);
    LatePrefix(cfg, url, e, delta, 9);
    assert acts[..9] == acts;
    LateTable(cfg, url, e, delta, 0);
  }

  lemma {:induction false} Grow(cfg: Config, s: Sys, acts: seq<Action>, a: Action, holds: Sys -> bool)
    requires Legal(cfg, s, acts) && Along(cfg, s, acts, holds)
    requires Enabled(cfg, End(cfg, s, acts), a) && holds(Next(cfg, End(cfg, s, acts), a))
    ensures Legal(cfg, s, acts + [a]) && End(cfg, s, acts + [a]) == Next(cfg, End(cfg, s, acts), a)
    ensures Along(cfg, s, acts + [a], holds)
    decreases |acts|
  {
    hide Enabled, Next;
    if acts == [] {
      assert acts + [a] == [a];
      assert [a][1..] == [];
      var s' := Next(cfg, s, a);
      assert Legal(cfg, s', []) && Along(cfg, s', [], holds);
    } else {
      assert (acts + [a])[0] == acts[0] && (acts + [a])[1..] == acts[1..] + [a];
      Grow(cfg, Next(cfg, s, acts[0]), acts[1..], a, holds);
    }
  }
}
