/** The bound on serving a blocked link is reached up to one unit of time, whichever TTL is the larger. */
module Tightness {
  import opened Wrappers
  import opened Store
  import opened Links
  import opened Requests
  import opened Staleness
  import opened Bridge
  import opened Duplicates

  // One link, created at time e and not yet judged by the scanner; a request is about to cache it for ttl.
  datatype Scene = Scene(url: string, e: int, expiresAt: int, ttl: int, serving: bool)

  function LinkRow(c: Scene, status: Status): Row { Row(LinkOf(1), c.url, c.e, Some(c.expiresAt), status) }

  function LinkTable(c: Scene, status: Status): Table { Table(map[1 := LinkRow(c, status)], 2) }

  function Job(c: Scene): FillJob { FillJob(LinkOf(1), c.url, Unverified, 1, c.ttl, c.e, c.serving) }

  function Quiet(now: int, t: Table): Sys { Sys(now, t, EMPTY_CACHE, {}, {}, map[]) }

  /** The request holds its snapshot while the link is still unverified. */
  function Holding(c: Scene): Sys { Goto(Quiet(c.e, LinkTable(c, Unverified)), 0, FillUrl(Job(c))) }

  /** The same moment, after a rescan has found the link malicious. */
  function Blocked(c: Scene): Sys { Goto(Quiet(c.e, LinkTable(c, Malicious)), 0, FillUrl(Job(c))) }

  lemma LinkTableForm(c: Scene, status: Status)
    ensures WellFormed(LinkTable(c, status)) && LinkOf(1) != ""
    ensures FindByHash(LinkTable(c, status), LinkOf(1)) == Some(1)
  {
    LinksDiffer(1, 1);
    HashNamesRow(LinkTable(c, status), 1, LinkOf(1));
  }

  // ----- Two ways to hold a snapshot ----------------------------------------------------------

  /** A Resolve that has missed the cache and read the row. */
  lemma HeldByResolve(cfg: Config, c: Scene)
    requires c.ttl == cfg.cacheTTL && c.serving && c.expiresAt >= c.e && cfg.web(c.url)
    ensures Reaches(cfg, Quiet(c.e, LinkTable(c, Unverified)), Holding(c))
  {
    hide LinkOf, FindByHash, RunShorten, RunReport, RunRescan, IsFetch, IsDedupPick;
    LinkTableForm(c, Unverified);
    var s, h, io := Quiet(c.e, LinkTable(c, Unverified)), LinkOf(1), Does(true, true);
    var q := ResCheck(h, 1, LinkRow(c, Unverified), c.e);
    OneStep(cfg, s, Begin(0, Resolve(h)));
    Overwrite(s, 0, ResGet(h), ResFind(h));
    Moves(cfg, s, 0, ResGet(h), io, Goto(s, 0, ResFind(h)));
    Overwrite(s, 0, ResFind(h), q);
    Moves(cfg, s, 0, ResFind(h), io, Goto(s, 0, q));
    Overwrite(s, 0, q, FillUrl(Job(c)));
    Moves(cfg, s, 0, q, io, Holding(c));
    Then(cfg, s, Goto(s, 0, ResGet(h)), Goto(s, 0, ResFind(h)));
    Then(cfg, s, Goto(s, 0, ResFind(h)), Goto(s, 0, q));
    Then(cfg, s, Goto(s, 0, q), Holding(c));
  }

  /** A Shorten that has created the row and written its scan status. */
  lemma HeldByShorten(cfg: Config, c: Scene, raw: string)
    requires cfg.accept(raw) == Some(c.url)
    requires c.ttl == cfg.linkTTL && !c.serving && c.expiresAt == c.e + cfg.linkTTL
    ensures Reaches(cfg, Quiet(c.e, Table(map[], 1)), Holding(c))
  {
    hide LinkOf, Reaches, CanSetHash, Linked, Duplicates.Created, Inserted;
    LinkTableForm(c, Unverified);
    var s := Quiet(c.e, Table(map[], 1));
    var create, write := ShCreate(c.url, Unverified, c.e), ShStatus(c.url, Unverified, c.e, 1);
    var named := Goto(s.(table := Linked(cfg, s, c.url)), 0, write);
    ReachesInsert(cfg, s, 0, raw, Unverified);
    LinkedForm(cfg, s, c.url);
    LinkedRows(cfg, s, c.url);
    InsertsAndHashes(cfg, s, 0, c.url, Unverified);
    Then(cfg, s, Goto(s, 0, create), named);
    assert named == Goto(Quiet(c.e, LinkTable(c, Pending)), 0, write);
    HoldsAfterStatus(cfg, c);
    Then(cfg, s, named, Holding(c));
  }

  lemma HoldsAfterStatus(cfg: Config, c: Scene)
    requires c.ttl == cfg.linkTTL && !c.serving
    ensures Reaches(cfg, Goto(Quiet(c.e, LinkTable(c, Pending)), 0, ShStatus(c.url, Unverified, c.e, 1)), Holding(c))
  {
    hide LinkOf, RunResolve, RunCache, RunReport, RunRescan, IsFetch;
    var s, write := Quiet(c.e, LinkTable(c, Pending)), ShStatus(c.url, Unverified, c.e, 1);
    assert AfterStatus(s.table, 1, Unverified).rows == LinkTable(c, Unverified).rows;
    Overwrite(Quiet(c.e, LinkTable(c, Unverified)), 0, write, FillUrl(Job(c)));
    Moves(cfg, s, 0, write, Does(true, true), Holding(c));
  }

  /** A rescan finds the link malicious and evicts it, all before the snapshot is cached. */
  lemma BlockedByRescan(cfg: Config, c: Scene)
    requires c.expiresAt > c.e
    ensures Reaches(cfg, Holding(c), Blocked(c))
  {
    hide LinkOf;
    LinkTableForm(c, Unverified);
    var s, t := Holding(c), Blocked(c);
    var item := Item(1, LinkRow(c, Unverified));
    var list := [item];
    assert Backlog(s.table, s.now) == {1};
    OnlyItem(s.table, s.now, 1);
    hide Reaches, IsFetch, Backlog;
    FetchRuns(cfg, s, 1, list);
    assert AfterStatus(s.table, 1, Malicious).rows == t.table.rows;
    assert Dropped(t.cache, LinkOf(1)) == t.cache;
    ProcessRuns(cfg, s, 1, list, Malicious, RescanFaults(false, false));
    Then(cfg, s, Goto(s, 1, RsScan(list)), t);
  }

  // ----- From the block to the last success ---------------------------------------------------

  /** The held snapshot is cached delta later and asked for when its entry has one unit to live. */
  function Tail(c: Scene, delta: nat): seq<Action>
    requires c.ttl > 0
  {
    [Advance(delta), Run(0, OK), Run(0, OK), Advance(c.ttl - 1), Begin(1, Resolve(LinkOf(1)))]
  }

  /** The state after the first k steps of Tail. */
  function TailState(c: Scene, delta: nat, k: nat): Sys {
    var h := LinkOf(1);
    var lapse := c.e + delta + c.ttl;
    Sys(if k == 0 then c.e else if k < 4 then c.e + delta else lapse - 1,
        LinkTable(c, Malicious),
        Cache(if k < 2 then map[] else map[h := UrlEntry(c.url, Unverified, lapse)],
              if k < 3 then map[] else map[h := MetaEntry(1, lapse)]),
        {}, {},
        if k < 2 then map[0 := FillUrl(Job(c))]
        else if k == 2 then map[0 := FillMeta(Job(c))]
        else if k < 5 then map[]
        else map[1 := ResGet(h)])
  }

  lemma TailStep(cfg: Config, c: Scene, delta: nat, k: nat)
    requires c.ttl > 0 && k < 5
    ensures var s, a := TailState(c, delta, k), Tail(c, delta)[k];
            Enabled(cfg, s, a) && Next(cfg, s, a) == TailState(c, delta, k + 1)
    ensures Prompt(TailState(c, delta, k + 1), delta) && IsMalicious(TailState(c, delta, k + 1).table, 1)
  {
    hide LinkOf, FindByHash, WellFormed, RunResolve, RunShorten, RunReport, RunRescan, IsFetch, IsDedupPick;
    LinkTableForm(c, Malicious);
    var s, s', a := TailState(c, delta, k), TailState(c, delta, k + 1), Tail(c, delta)[k];
    assert Next(cfg, s, a).procs == s'.procs;
    assert Next(cfg, s, a).cache == s'.cache;
  }

  lemma {:induction false} TailPrefix(cfg: Config, c: Scene, delta: nat, k: nat)
    requires c.ttl > 0 && k <= 5
    ensures Legal(cfg, TailState(c, delta, 0), Tail(c, delta)[..k])
    ensures End(cfg, TailState(c, delta, 0), Tail(c, delta)[..k]) == TailState(c, delta, k)
    ensures AllPrompt(cfg, TailState(c, delta, 0), Tail(c, delta)[..k], delta)
    ensures StaysMalicious(cfg, TailState(c, delta, 0), Tail(c, delta)[..k], 1)
  {
    if k == 0 {
      assert Tail(c, delta)[..0] == [];
    } else {
      hide TailState, Next, Enabled, Prompt, IsMalicious;
      var run := Tail(c, delta);
      TailPrefix(cfg, c, delta, k - 1);
      TailStep(cfg, c, delta, k - 1);
      Grow(cfg, TailState(c, delta, 0), run[..k - 1], run[k - 1], (x: Sys) => Prompt(x, delta));
      Grow(cfg, TailState(c, delta, 0), run[..k - 1], run[k - 1], (x: Sys) => IsMalicious(x.table, 1));
      assert run[..k] == run[..k - 1] + [run[k - 1]];
    }
  }

  lemma Opening(cfg: Config, raw: string, e: int) returns (s0: Sys, c: Scene)
    requires ValidConfig(cfg) && cfg.accept(raw).Some?
    ensures Initial(s0) && s0.now == c.e == e && c.ttl == MaxTTL(cfg) && Reaches(cfg, s0, Blocked(c))
  {
    hide LinkOf;
    var url := cfg.accept(raw).value;
    if cfg.cacheTTL >= cfg.linkTTL {
      c := Scene(url, e, e + cfg.linkTTL, cfg.cacheTTL, true);
      s0 := Quiet(e, LinkTable(c, Unverified));
      LinkTableForm(c, Unverified);
      HeldByResolve(cfg, c);
    } else {
      c := Scene(url, e, e + cfg.linkTTL, cfg.linkTTL, false);
      s0 := Quiet(e, Table(map[], 1));
      HeldByShorten(cfg, c, raw);
    }
    BlockedByRescan(cfg, c);
    Then(cfg, s0, Holding(c), Blocked(c));
  }

  /**
   * For all settings, times and delta there is a run in which a link that has become malicious for good is served one
   * unit before the bound of BlockedWithin; no cache delete is lost in it.
   */
  lemma BlockBoundReached(cfg: Config, raw: string, e: int, delta: nat)
    returns (s: Sys, acts: seq<Action>, a: Action)
    requires ValidConfig(cfg) && cfg.accept(raw).Some?
    ensures Reachable(cfg, s) && s.now == e
    ensures Legal(cfg, s, acts) && AllPrompt(cfg, s, acts, delta) && StaysMalicious(cfg, s, acts, 1)
    ensures Enabled(cfg, End(cfg, s, acts), a) && Serves(End(cfg, s, acts), a, LinkOf(1))
    ensures End(cfg, s, acts).now == e + delta + MaxTTL(cfg) - 1
  {
    hide Legal, End, LinkOf, Next;
    var s0, c := Opening(cfg, raw, e);
    s, acts, a := Blocked(c), Tail(c, delta), Run(1, OK);
    var before :| RunsTo(cfg, s0, s, before);
    assert EndsIn(cfg, s0, before, s);
    assert s == TailState(c, delta, 0);
    TailPrefix(cfg, c, delta, 5);
    assert acts[..5] == acts;
  }
}
