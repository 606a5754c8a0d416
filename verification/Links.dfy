/**
 * The link lifecycle as a machine over single database and cache operations. Requests of all four kinds are in
 * flight at once and their operations interleave freely; every operation may fail, may take effect without its
 * acknowledgement arriving, and any request may be abandoned at any point.
 */
module Links {
  import opened Wrappers
  import opened Anonymize
  import opened Store

  // A cache fill in progress. since: when the request read the row, or stamped the expiry of the row it created.
  datatype FillJob = FillJob(h: string, url: string, status: Status, id: nat, ttl: int, since: int, serving: bool)

  // Where a request is: the operation it performs next, with its local variables.
  datatype Proc =
    // Resolve
    | ResGet(h: string)
    | ResFind(h: string)
    | ResCheck(h: string, id: nat, row: Row, readAt: int)
    // Shorten
    | ShDedup(url: string)
    | ShScan(url: string)
    | ShCreate(url: string, status: Status, stampedAt: int)
    | ShHash(url: string, status: Status, stampedAt: int, id: nat)
    | ShStatus(url: string, status: Status, stampedAt: int, id: nat)
    // The two SETs of a cache fill, and the DEL of an eviction
    | FillUrl(job: FillJob)
    | FillMeta(job: FillJob)
    | Evict(h: string)
    // Report
    | RpFind(h: string, reporter: Reporter, reason: string)
    | RpInsert(h: string, id: nat, reporter: Reporter)
    | RpCount(h: string, id: nat)
    | RpBlock(h: string, id: nat)
    // Rescan cycle over a fetched list
    | RsFetch
    | RsScan(list: seq<Item>)
    | RsWrite(list: seq<Item>, status: Status)
    | RsEvict(list: seq<Item>)

  datatype Sys = Sys(
    now: int,
    table: Table,
    cache: Cache,
    reports: Reports,
    // history: the links that some Report has set to malicious
    blocked: set<nat>,
    procs: map<nat, Proc>)

  datatype Request =
    | Resolve(h: string)
    | Shorten(raw: string)
    | Report(h: string, address: Option<Address>, reason: string)
    | Rescan

  // What the environment decides about one operation: whether it takes effect, whether its success is seen, the
  // scanner's answer, and which of several matching rows a query returns.
  datatype Io = Io(applied: bool, acked: bool, scan: Status, pick: Option<nat>, list: seq<Item>)

  datatype Action =
    | Advance(d: nat)
    | Begin(p: nat, request: Request)
    | Run(p: nat, io: Io)
    | Abandon(p: nat)

  // ----- Steps --------------------------------------------------------------------------------

  /** Hashes reach the services through a non-empty route parameter. */
  predicate CanStart(cfg: Config, r: Request) {
    match r
    case Resolve(h) => h != ""
    case Shorten(raw) => cfg.accept(raw).Some?
    case Report(h, _, _) => h != ""
    case Rescan => true
  }

  function Start(cfg: Config, r: Request): Proc
    requires CanStart(cfg, r)
  {
    match r
    case Resolve(h) => ResGet(h)
    case Shorten(raw) => ShDedup(cfg.accept(raw).value)
    case Report(h, address, reason) => RpFind(h, Masked(address), reason)
    case Rescan => RsFetch
  }

  ghost predicate IoAllowed(s: Sys, q: Proc, io: Io) {
    && io.scan != Pending
    && (q.ShDedup? && io.acked ==> IsDedupPick(s.table, q.url, s.now, io.pick))
    && (q.RsFetch? && io.acked ==> IsFetch(s.table, s.now, io.list))
    && (q.RsScan? || q.RsWrite? || q.RsEvict? ==> q.list != [])
  }

  ghost predicate Enabled(cfg: Config, s: Sys, a: Action) {
    match a
    case Advance(_) => true
    case Begin(p, r) => p !in s.procs && CanStart(cfg, r)
    case Run(p, io) => p in s.procs && IoAllowed(s, s.procs[p], io)
    case Abandon(p) => p in s.procs
  }

  function Goto(s: Sys, p: nat, q: Proc): Sys { s.(procs := s.procs[p := q]) }

  function Finish(s: Sys, p: nat): Sys { s.(procs := s.procs - {p}) }

  function NextItem(s: Sys, p: nat, list: seq<Item>): Sys
    requires list != []
  {
    if |list| == 1 then Finish(s, p) else Goto(s, p, RsScan(list[1..]))
  }

  ghost function RunResolve(cfg: Config, s: Sys, p: nat, q: Proc, io: Io): Sys
    requires q.ResGet? || q.ResFind? || q.ResCheck?
  {
    match q
    case ResGet(h) =>
      var hit := Lookup(s.cache, h, s.now);
      if !io.acked || hit.None? then Goto(s, p, ResFind(h))
      else if hit.value.status == Malicious then Goto(s, p, Evict(h))
      else Finish(s, p)
    case ResFind(h) =>
      var found := FindByHash(s.table, h);
      if !io.acked || found.None? then Finish(s, p)
      else Goto(s, p, ResCheck(h, found.value, s.table.rows[found.value], s.now))
    case ResCheck(h, id, row, readAt) =>
      if Expired(row, s.now) || !cfg.web(row.url) then Finish(s, p)
      else if row.status == Malicious then Goto(s, p, Evict(h))
      else Goto(s, p, FillUrl(FillJob(h, row.url, row.status, id, cfg.cacheTTL, readAt, true)))
  }

  function RunCache(s: Sys, p: nat, q: Proc, io: Io): Sys
    requires q.FillUrl? || q.FillMeta? || q.Evict?
  {
    match q
    case FillUrl(j) =>
      var c := if io.applied then PutUrl(s.cache, j.h, j.url, j.status, s.now + j.ttl) else s.cache;
      Goto(s.(cache := c), p, FillMeta(j))
    case FillMeta(j) =>
      var c := if io.applied then PutMeta(s.cache, j.h, j.id, s.now + j.ttl) else s.cache;
      Finish(s.(cache := c), p)
    case Evict(h) =>
      Finish(s.(cache := if io.applied then Dropped(s.cache, h) else s.cache), p)
  }

  function RunShorten(cfg: Config, s: Sys, p: nat, q: Proc, io: Io): Sys
    requires q.ShDedup? || q.ShScan? || q.ShCreate? || q.ShHash? || q.ShStatus?
  {
    match q
    case ShDedup(url) =>
      if !io.acked || io.pick.Some? then Finish(s, p) else Goto(s, p, ShScan(url))
    case ShScan(url) =>
      if io.scan == Malicious then Finish(s, p) else Goto(s, p, ShCreate(url, io.scan, s.now))
    case ShCreate(url, status, at) =>
      if !io.applied then Finish(s, p)
      else if !CanInsert(s.table) then Finish(s.(table := Burned(s.table)), p)
      else
        var u := s.(table := Inserted(s.table, url, s.now, at + cfg.linkTTL));
        if io.acked then Goto(u, p, ShHash(url, status, at, s.table.nextId)) else Finish(u, p)
    case ShHash(url, status, at, id) =>
      if !io.applied || !CanSetHash(s.table, id, LinkOf(id)) then Finish(s, p)
      else
        var u := s.(table := AfterHash(s.table, id, LinkOf(id)));
        if io.acked then Goto(u, p, ShStatus(url, status, at, id)) else Finish(u, p)
    case ShStatus(url, status, at, id) =>
      var t := if io.applied then AfterStatus(s.table, id, status) else s.table;
      Goto(s.(table := t), p, FillUrl(FillJob(LinkOf(id), url, status, id, cfg.linkTTL, at, false)))
  }

  ghost function RunReport(cfg: Config, s: Sys, p: nat, q: Proc, io: Io): Sys
    requires q.RpFind? || q.RpInsert? || q.RpCount? || q.RpBlock?
  {
    match q
    case RpFind(h, reporter, reason) =>
      var found := FindByHash(s.table, h);
      if !io.acked || found.None? || !IsValidReason(reason) then Finish(s, p)
      else Goto(s, p, RpInsert(h, found.value, reporter))
    case RpInsert(h, id, reporter) =>
      if !io.applied || (id, reporter) in s.reports then Finish(s, p)
      else
        var u := s.(reports := s.reports + {(id, reporter)});
        if io.acked then Goto(u, p, RpCount(h, id)) else Finish(u, p)
    case RpCount(h, id) =>
      if io.acked && |ReportersOf(s.reports, id)| >= cfg.threshold then Goto(s, p, RpBlock(h, id)) else Finish(s, p)
    case RpBlock(h, id) =>
      var u := if io.applied then s.(table := AfterStatus(s.table, id, Malicious), blocked := s.blocked + {id}) else s;
      Goto(u, p, Evict(h))
  }

  function RunRescan(s: Sys, p: nat, q: Proc, io: Io): Sys
    requires q.RsFetch? || ((q.RsScan? || q.RsWrite? || q.RsEvict?) && q.list != [])
  {
    match q
    case RsFetch => if !io.acked || io.list == [] then Finish(s, p) else Goto(s, p, RsScan(io.list))
    case RsScan(list) => Goto(s, p, RsWrite(list, io.scan))
    case RsWrite(list, status) =>
      var u := s.(table := if io.applied then AfterStatus(s.table, list[0].id, status) else s.table);
      if status == Malicious then Goto(u, p, RsEvict(list)) else NextItem(u, p, list)
    case RsEvict(list) =>
      NextItem(s.(cache := if io.applied then Dropped(s.cache, list[0].row.hash) else s.cache), p, list)
  }

  ghost function RunProc(cfg: Config, s: Sys, p: nat, q: Proc, io: Io): Sys
    requires IoAllowed(s, q, io)
  {
    if q.ResGet? || q.ResFind? || q.ResCheck? then RunResolve(cfg, s, p, q, io)
    else if q.FillUrl? || q.FillMeta? || q.Evict? then RunCache(s, p, q, io)
    else if q.ShDedup? || q.ShScan? || q.ShCreate? || q.ShHash? || q.ShStatus? then RunShorten(cfg, s, p, q, io)
    else if q.RpFind? || q.RpInsert? || q.RpCount? || q.RpBlock? then RunReport(cfg, s, p, q, io)
    else RunRescan(s, p, q, io)
  }

  ghost function Next(cfg: Config, s: Sys, a: Action): Sys
    requires Enabled(cfg, s, a)
  {
    match a
    case Advance(d) => s.(now := s.now + d)
    case Begin(p, r) => Goto(s, p, Start(cfg, r))
    case Run(p, io) => RunProc(cfg, s, p, s.procs[p], io)
    case Abandon(p) => Finish(s, p)
  }

  lemma RunFrame(cfg: Config, s: Sys, p: nat, q: Proc, io: Io)
    requires IoAllowed(s, q, io)
    ensures RunProc(cfg, s, p, q, io).procs - {p} == s.procs - {p}
  {
    hide FindByHash, CanInsert, CanSetHash, Lookup, LinkOf;
  }

  /** A step leaves every other request where it is. */
  lemma StepFrame(cfg: Config, s: Sys, a: Action)
    requires Enabled(cfg, s, a) && !a.Advance?
    ensures forall q | q in s.procs && q != a.p :: q in Next(cfg, s, a).procs && Next(cfg, s, a).procs[q] == s.procs[q]
    ensures forall q | q in Next(cfg, s, a).procs && q != a.p :: q in s.procs && Next(cfg, s, a).procs[q] == s.procs[q]
    ensures a.Abandon? ==> a.p !in Next(cfg, s, a).procs
  {
    hide RunProc, IoAllowed;
    var s', p := Next(cfg, s, a), a.p;
    assert s'.procs - {p} == s.procs - {p} by {
      if a.Run? {
        RunFrame(cfg, s, p, s.procs[p], a.io);
      }
    }
    forall q | q != p
      ensures q in s.procs <==> q in s'.procs
      ensures q in s.procs ==> s'.procs[q] == s.procs[q]
    {
      assert q in s.procs <==> q in s.procs - {p};
      assert q in s'.procs <==> q in s'.procs - {p};
      if q in s.procs {
        assert (s'.procs - {p})[q] == (s.procs - {p})[q];
      }
    }
  }

  // ----- Runs ---------------------------------------------------------------------------------

  /** A start or restart: a well-formed table, any reports, an empty cache, no request in flight. */
  ghost predicate Initial(s: Sys) {
    WellFormed(s.table) && s.cache == EMPTY_CACHE && s.procs == map[]
  }

  ghost predicate Legal(cfg: Config, s: Sys, acts: seq<Action>)
    decreases |acts|
  {
    acts == [] || (Enabled(cfg, s, acts[0]) && Legal(cfg, Next(cfg, s, acts[0]), acts[1..]))
  }

  ghost function End(cfg: Config, s: Sys, acts: seq<Action>): Sys
    requires Legal(cfg, s, acts)
    decreases |acts|
  {
    if acts == [] then s else End(cfg, Next(cfg, s, acts[0]), acts[1..])
  }

  ghost predicate EndsIn(cfg: Config, s0: Sys, acts: seq<Action>, s: Sys) {
    Initial(s0) && Legal(cfg, s0, acts) && End(cfg, s0, acts) == s
  }

  ghost predicate Reachable(cfg: Config, s: Sys) {
    exists s0, acts :: EndsIn(cfg, s0, acts, s)
  }

  /** A condition that holds in every state a run passes through. */
  ghost predicate Along(cfg: Config, s: Sys, acts: seq<Action>, holds: Sys -> bool)
    requires Legal(cfg, s, acts)
    decreases |acts|
  {
    holds(s) && (acts == [] || Along(cfg, Next(cfg, s, acts[0]), acts[1..], holds))
  }

  /** The step on which a Resolve of h succeeds: a cache hit, or the end of the path through the database. */
  ghost predicate Serves(s: Sys, a: Action, h: string) {
    && a.Run?
    && a.p in s.procs
    && match s.procs[a.p]
       case ResGet(g) =>
         g == h && a.io.acked && Lookup(s.cache, h, s.now).Some? && Lookup(s.cache, h, s.now).value.status != Malicious
       case FillMeta(j) => j.serving && j.h == h
       case _ => false
  }
}
