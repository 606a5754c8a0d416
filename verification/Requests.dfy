/**
 * Whole service calls, one at a time: what each of Resolve, Shorten, Report, the rescan fetch and processOne returns
 * and does to the shared state when nothing else runs meanwhile, for every combination of faults.
 */
module Requests {
  import opened Wrappers
  import opened Anonymize
  import opened Store

  // ----- Resolve ------------------------------------------------------------------------------

  datatype Answer =
    | Served(url: string, id: nat, status: Status)
    | Refused            // ErrURLMalicious
    | Gone               // ErrURLExpired
    | Unknown            // ErrURLNotFound
    | BadScheme          // ErrInvalidURL
    | Broken             // a database error

  datatype ResolveFaults = ResolveFaults(getFails: bool, findFails: bool, urlLost: bool, metaLost: bool, delLost: bool)

  const NO_RESOLVE_FAULTS: ResolveFaults := ResolveFaults(false, false, false, false, false)

  /** Resolve with a nil cache. */
  ghost function ResolveUncached(cfg: Config, t: Table, h: string, now: int, f: ResolveFaults): Answer {
    if f.findFails then Broken
    else
      match FindByHash(t, h)
      case None => Unknown
      case Some(id) =>
        var row := t.rows[id];
        if Expired(row, now) then Gone
        else if !cfg.web(row.url) then BadScheme
        else if row.status == Malicious then Refused
        else Served(row.url, id, row.status)
  }

  /** The two SETs of a fill, either of which may be lost. */
  function Filled(c: Cache, h: string, url: string, status: Status, id: nat, deadline: int, urlLost: bool, metaLost: bool): Cache {
    var c1 := if urlLost then c else PutUrl(c, h, url, status, deadline);
    if metaLost then c1 else PutMeta(c1, h, id, deadline)
  }

  function Evicted(c: Cache, h: string, lost: bool): Cache { if lost then c else Dropped(c, h) }

  /** Resolve with a cache: the answer, and the cache afterwards. */
  ghost function ResolveCached(cfg: Config, t: Table, c: Cache, h: string, now: int, f: ResolveFaults): (Answer, Cache) {
    var hit := if f.getFails then None else Lookup(c, h, now);
    match hit
    case Some(e) =>
      if e.status == Malicious then (Refused, Evicted(c, h, f.delLost)) else (Served(e.url, e.id, e.status), c)
    case None =>
      var answer := ResolveUncached(cfg, t, h, now, f);
      match answer
      case Served(url, id, status) =>
        (answer, Filled(c, h, url, status, id, now + cfg.cacheTTL, f.urlLost, f.metaLost))
      case Refused => (answer, Evicted(c, h, f.delLost))
      case _ => (answer, c)
  }

  // ----- Shorten ------------------------------------------------------------------------------

  // A database write may be refused, or take effect without its success being seen.
  datatype Fault = Fine | Fails | AckLost

  datatype ShortenFaults =
    ShortenFaults(dedupFails: bool, create: Fault, hash: Fault, statusFails: bool, urlLost: bool, metaLost: bool)

  datatype ShortenAnswer =
    | Rejected           // normalisation or validation
    | DedupFailed
    | Existing(id: nat)
    | Flagged            // ErrURLMalicious
    | CreateFailed
    | HashFailed
    | Created(id: nat, hash: string, status: Status)

  /** Everything after the dedup check and the scan. */
  function ShortenNew(cfg: Config, t: Table, c: Cache, url: string, now: int, scan: Status, f: ShortenFaults)
    : (ShortenAnswer, Table, Cache)
  {
    if f.create == Fails then (CreateFailed, t, c)
    else if !CanInsert(t) then (CreateFailed, Burned(t), c)
    else
      var id := t.nextId;
      var t1 := Inserted(t, url, now, now + cfg.linkTTL);
      if f.create == AckLost then (CreateFailed, t1, c)
      else
        var h := LinkOf(id);
        if f.hash == Fails || !CanSetHash(t1, id, h) then (HashFailed, t1, c)
        else
          var t2 := AfterHash(t1, id, h);
          if f.hash == AckLost then (HashFailed, t2, c)
          else
            var t3 := if f.statusFails then t2 else AfterStatus(t2, id, scan);
            (Created(id, h, scan), t3, Filled(c, h, url, scan, id, now + cfg.linkTTL, f.urlLost, f.metaLost))
  }

  /** Shorten, given the row the dedup query returns and the scanner's answer. */
  function ShortenResult(
    cfg: Config, t: Table, c: Cache, raw: string, now: int, pick: Option<nat>, scan: Status, f: ShortenFaults)
    : (ShortenAnswer, Table, Cache)
  {
    match cfg.accept(raw)
    case None => (Rejected, t, c)
    case Some(url) =>
      if f.dedupFails then (DedupFailed, t, c)
      else if pick.Some? then (Existing(pick.value), t, c)
      else if scan == Malicious then (Flagged, t, c)
      else ShortenNew(cfg, t, c, url, now, scan, f)
  }

  // ----- Report -------------------------------------------------------------------------------

  datatype ReportFaults = ReportFaults(findFails: bool, insert: Fault, countFails: bool, statusFails: bool, delLost: bool)

  datatype ReportAnswer = NoSuchLink | FindFailed | InvalidReason | Duplicate | InsertFailed | Accepted

  ghost function ReportResult(
    cfg: Config, t: Table, c: Cache, reports: Reports, h: string, address: Option<Address>, reason: string, f: ReportFaults)
    : (ReportAnswer, Table, Cache, Reports)
  {
    if f.findFails then (FindFailed, t, c, reports)
    else
      match FindByHash(t, h)
      case None => (NoSuchLink, t, c, reports)
      case Some(id) =>
        var key := (id, Masked(address));
        if !IsValidReason(reason) then (InvalidReason, t, c, reports)
        else if f.insert == Fails then (InsertFailed, t, c, reports)
        else if key in reports then (Duplicate, t, c, reports)
        else
          var r := reports + {key};
          if f.insert == AckLost then (InsertFailed, t, c, r)
          else if f.countFails || |ReportersOf(r, id)| < cfg.threshold then (Accepted, t, c, r)
          else (Accepted, if f.statusFails then t else AfterStatus(t, id, Malicious), Evicted(c, h, f.delLost), r)
  }

  // ----- processOne ---------------------------------------------------------------------------

  datatype RescanFaults = RescanFaults(updateFails: bool, delLost: bool)

  /** processOne writes by id whatever the row has become since it was fetched. */
  function ProcessedTable(t: Table, item: Item, scan: Status, f: RescanFaults): Table {
    if f.updateFails then t else AfterStatus(t, item.id, scan)
  }

  function ProcessedCache(c: Cache, item: Item, scan: Status, f: RescanFaults): Cache {
    if scan == Malicious then Evicted(c, item.row.hash, f.delLost) else c
  }

  // ----- Sequential runs ----------------------------------------------------------------------

  datatype Atom = Atom(now: int, table: Table, cache: Cache, reports: Reports, work: seq<Item>)

  datatype Call =
    | Wait(d: nat)
    | CallResolve(h: string, rf: ResolveFaults)
    | CallShorten(raw: string, pick: Option<nat>, scan: Status, sf: ShortenFaults)
    | CallReport(h: string, address: Option<Address>, reason: string, pf: ReportFaults)
    | CallFetch(list: seq<Item>)
    | CallProcess(scan: Status, cf: RescanFaults)

  ghost predicate Allowed(cfg: Config, s: Atom, call: Call) {
    match call
    case Wait(_) => true
    case CallResolve(h, _) => h != ""
    case CallShorten(raw, pick, scan, _) =>
      scan != Pending && (cfg.accept(raw).Some? ==> IsDedupPick(s.table, cfg.accept(raw).value, s.now, pick))
    case CallReport(h, _, _, _) => h != ""
    case CallFetch(list) => IsFetch(s.table, s.now, list)
    case CallProcess(scan, _) => s.work != [] && scan != Pending
  }

  ghost function Step(cfg: Config, s: Atom, call: Call): Atom
    requires Allowed(cfg, s, call)
  {
    match call
    case Wait(d) => s.(now := s.now + d)
    case CallResolve(h, f) => s.(cache := ResolveCached(cfg, s.table, s.cache, h, s.now, f).1)
    case CallShorten(raw, pick, scan, f) =>
      var r := ShortenResult(cfg, s.table, s.cache, raw, s.now, pick, scan, f);
      s.(table := r.1, cache := r.2)
    case CallReport(h, address, reason, f) =>
      var r := ReportResult(cfg, s.table, s.cache, s.reports, h, address, reason, f);
      s.(table := r.1, cache := r.2, reports := r.3)
    case CallFetch(list) => s.(work := list)
    case CallProcess(scan, f) =>
      s.(table := ProcessedTable(s.table, s.work[0], scan, f), cache := ProcessedCache(s.cache, s.work[0], scan, f),
         work := s.work[1..])
  }

  ghost predicate LegalCalls(cfg: Config, s: Atom, calls: seq<Call>)
    decreases |calls|
  {
    calls == [] || (Allowed(cfg, s, calls[0]) && LegalCalls(cfg, Step(cfg, s, calls[0]), calls[1..]))
  }

  ghost function AfterCalls(cfg: Config, s: Atom, calls: seq<Call>): Atom
    requires LegalCalls(cfg, s, calls)
    decreases |calls|
  {
    if calls == [] then s else AfterCalls(cfg, Step(cfg, s, calls[0]), calls[1..])
  }

  ghost predicate StartAtom(s: Atom) {
    WellFormed(s.table) && s.cache == EMPTY_CACHE && s.work == []
  }

  // ----- The table under sequential calls -----------------------------------------------------

  ghost predicate WorkOk(t: Table, work: seq<Item>) {
    forall i | 0 <= i < |work| :: work[i].id in t.rows && work[i].row.hash == t.rows[work[i].id].hash
  }

  /** Old rows are untouched; the only new row is the next id's, for this url. */
  ghost predicate AddsAtMost(t: Table, u: Table, url: string, now: int) {
    && WellFormed(u) && Extends(t, u)
    && (forall id | id in t.rows :: u.rows[id] == t.rows[id])
    && (forall id | id in u.rows && id !in t.rows ::
          CanInsert(t) && id == t.nextId && u.rows[id].url == url && u.rows[id].createdAt == now)
  }

  lemma AddThenHash(t: Table, url: string, now: int, expiresAt: int, scan: Status)
    requires WellFormed(t) && CanInsert(t)
    ensures var id := t.nextId;
            var t1 := Inserted(t, url, now, expiresAt);
            var t2 := AfterHash(t1, id, LinkOf(id));
            && CanSetHash(t1, id, LinkOf(id))
            && AddsAtMost(t, t1, url, now) && AddsAtMost(t, t2, url, now)
            && AddsAtMost(t, AfterStatus(t2, id, scan), url, now)
  {
    var id := t.nextId;
    var t1 := Inserted(t, url, now, expiresAt);
    InsertKeepsForm(t, url, now, expiresAt);
    HashKeepsForm(t1, id);
    StatusKeepsForm(AfterHash(t1, id, LinkOf(id)), id, scan);
  }

  lemma ShortenForm(cfg: Config, t: Table, c: Cache, url: string, now: int, scan: Status, f: ShortenFaults)
    requires WellFormed(t)
    ensures AddsAtMost(t, ShortenNew(cfg, t, c, url, now, scan, f).1, url, now)
  {
    hide AddsAtMost, WellFormed, CanInsert, CanSetHash, Inserted, Burned, AfterHash, AfterStatus, LinkOf, Filled;
    NothingAdded(t, url, now);
    if CanInsert(t) {
      AddThenHash(t, url, now, now + cfg.linkTTL, scan);
    }
  }

  lemma NothingAdded(t: Table, url: string, now: int)
    requires WellFormed(t)
    ensures AddsAtMost(t, t, url, now) && AddsAtMost(t, Burned(t), url, now)
  {
  }

  /** The tables differ in the status of rows alone. */
  ghost predicate SameButStatus(t: Table, u: Table) {
    && u.nextId == t.nextId && u.rows.Keys == t.rows.Keys
    && forall id | id in t.rows :: u.rows[id].(status := t.rows[id].status) == t.rows[id]
  }

  lemma SameButStatusForm(t: Table, u: Table)
    requires WellFormed(t) && SameButStatus(t, u)
    ensures WellFormed(u) && Extends(t, u) && forall id | id in t.rows :: u.rows[id].hash == t.rows[id].hash
  {
    hide LinkOf;
  }

  lemma StatusWrite(t: Table, id: nat, status: Status)
    ensures SameButStatus(t, AfterStatus(t, id, status)) && SameButStatus(t, t)
  {
  }

  lemma OtherCalls(cfg: Config, s: Atom, call: Call)
    requires Allowed(cfg, s, call) && !call.CallShorten?
    ensures SameButStatus(s.table, Step(cfg, s, call).table)
  {
    hide SameButStatus, AfterStatus, ResolveCached, IsFetch, ReportersOf, IsValidReason;
    StatusWrite(s.table, 0, Clean);
    match call {
      case CallReport(h, _, _, _) =>
        var found := FindByHash(s.table, h);
        if found.Some? {
          StatusWrite(s.table, found.value, Malicious);
        }
      case CallProcess(scan, _) => StatusWrite(s.table, s.work[0].id, scan);
      case _ =>
    }
  }

  function UrlOf(cfg: Config, raw: string): string {
    if cfg.accept(raw).Some? then cfg.accept(raw).value else ""
  }

  lemma ShortenCalls(cfg: Config, s: Atom, call: Call)
    requires WellFormed(s.table) && Allowed(cfg, s, call) && call.CallShorten?
    ensures AddsAtMost(s.table, Step(cfg, s, call).table, UrlOf(cfg, call.raw), s.now)
  {
    hide WellFormed, AddsAtMost, ShortenNew, IsDedupPick;
    var url := UrlOf(cfg, call.raw);
    NothingAdded(s.table, url, s.now);
    ShortenForm(cfg, s.table, s.cache, url, s.now, call.scan, call.sf);
  }

  lemma NextWork(cfg: Config, s: Atom, call: Call)
    requires Allowed(cfg, s, call) && WorkOk(s.table, s.work)
    ensures WorkOk(s.table, Step(cfg, s, call).work)
  {
    hide ResolveCached, ShortenResult, ReportResult, ProcessedTable, ProcessedCache, IsDedupPick;
  }

  /** One call keeps the table well-formed, adds at most Shorten's row, and changes nothing else but a status. */
  lemma StepTable(cfg: Config, s: Atom, call: Call)
    requires WellFormed(s.table) && WorkOk(s.table, s.work) && Allowed(cfg, s, call)
    ensures WellFormed(Step(cfg, s, call).table) && Extends(s.table, Step(cfg, s, call).table)
    ensures forall id | id in s.table.rows :: Step(cfg, s, call).table.rows[id].hash == s.table.rows[id].hash
    ensures WorkOk(Step(cfg, s, call).table, Step(cfg, s, call).work)
  {
    hide WellFormed, Allowed, Step, SameButStatus;
    NextWork(cfg, s, call);
    if call.CallShorten? {
      ShortenCalls(cfg, s, call);
    } else {
      OtherCalls(cfg, s, call);
      SameButStatusForm(s.table, Step(cfg, s, call).table);
    }
  }

  // ----- Malicious is absorbing, but for stale rescans ----------------------------------------

  /** A processOne that writes a harmless result over the row. */
  predicate Overwrites(s: Atom, call: Call, id: nat) {
    call.CallProcess? && s.work != [] && s.work[0].id == id && !call.cf.updateFails && call.scan != Malicious
  }

  /** Between whole calls, exactly the overwriting rescans take a row out of malicious. */
  lemma AbsorbingStep(cfg: Config, s: Atom, call: Call, id: nat)
    requires WellFormed(s.table) && WorkOk(s.table, s.work) && Allowed(cfg, s, call) && IsMalicious(s.table, id)
    ensures IsMalicious(Step(cfg, s, call).table, id) <==> !Overwrites(s, call, id)
  {
    hide WellFormed, WorkOk, ResolveCached, IsFetch, ReportersOf, IsValidReason;
    if call.CallShorten? {
      hide Step, Allowed;
      ShortenCalls(cfg, s, call);
    }
  }

  /** Every processOne of the run finds its row still unverified. */
  ghost predicate RescansCurrent(cfg: Config, s: Atom, calls: seq<Call>)
    requires LegalCalls(cfg, s, calls)
    decreases |calls|
  {
    calls == []
    || ((calls[0].CallProcess? && s.work[0].id in s.table.rows ==> s.table.rows[s.work[0].id].status == Unverified)
        && RescansCurrent(cfg, Step(cfg, s, calls[0]), calls[1..]))
  }

  lemma {:induction false} MaliciousAbsorbs(cfg: Config, s: Atom, calls: seq<Call>, id: nat)
    requires WellFormed(s.table) && WorkOk(s.table, s.work) && LegalCalls(cfg, s, calls)
    requires RescansCurrent(cfg, s, calls) && IsMalicious(s.table, id)
    ensures IsMalicious(AfterCalls(cfg, s, calls).table, id)
    decreases |calls|
  {
    hide WellFormed, Allowed, Step;
    if calls != [] {
      StepTable(cfg, s, calls[0]);
      AbsorbingStep(cfg, s, calls[0], id);
      WorkNonEmpty(cfg, s, calls[0]);
      MaliciousAbsorbs(cfg, Step(cfg, s, calls[0]), calls[1..], id);
    }
  }

  lemma WorkNonEmpty(cfg: Config, s: Atom, call: Call)
    requires Allowed(cfg, s, call)
    ensures call.CallProcess? ==> s.work != []
  {
  }

  function UndoingCalls(list: seq<Item>, id: nat, address: Option<Address>, reason: string): seq<Call> {
    [CallFetch(list),
     CallReport(LinkOf(id), address, reason, ReportFaults(false, Fine, false, false, false)),
     CallProcess(Clean, RescanFaults(false, false))]
  }

  lemma OnlyItem(t: Table, now: int, id: nat)
    requires Backlog(t, now) == {id}
    ensures IsFetch(t, now, [Item(id, t.rows[id])])
  {
    var list := [Item(id, t.rows[id])];
    assert list[0].id == id;
    assert Ids(list) == {id};
  }

  /** The report that brings the count of a link to the threshold blocks it. */
  lemma DecidingReport(cfg: Config, s: Atom, id: nat, address: Option<Address>, reason: string)
    requires WellFormed(s.table) && RowOf(s.table, id, LinkOf(id)) && LinkOf(id) != "" && IsValidReason(reason)
    requires |ReportersOf(s.reports, id)| + 1 >= cfg.threshold && (id, Masked(address)) !in s.reports
    ensures ReportResult(cfg, s.table, s.cache, s.reports, LinkOf(id), address, reason,
                         ReportFaults(false, Fine, false, false, false)).1 == AfterStatus(s.table, id, Malicious)
  {
    hide IsValidReason, ReportersOf, AfterStatus;
    HashNamesRow(s.table, id, LinkOf(id));
    ReportersGrow(s.reports, id, (id, Masked(address)));
  }

  lemma ThreeCalls(cfg: Config, s: Atom, s1: Atom, s2: Atom, s3: Atom, calls: seq<Call>)
    requires |calls| == 3
    requires Allowed(cfg, s, calls[0]) && s1 == Step(cfg, s, calls[0])
    requires Allowed(cfg, s1, calls[1]) && s2 == Step(cfg, s1, calls[1])
    requires Allowed(cfg, s2, calls[2]) && s3 == Step(cfg, s2, calls[2])
    ensures LegalCalls(cfg, s, calls[..2]) && AfterCalls(cfg, s, calls[..2]) == s2
    ensures LegalCalls(cfg, s, calls) && AfterCalls(cfg, s, calls) == s3
  {
    hide Allowed, Step;
    assert calls[..2][1..] == [calls[1]] && [calls[1]][1..] == [];
    assert calls[1..][1..] == [calls[2]] && [calls[2]][1..] == [];
    assert LegalCalls(cfg, s2, []) && LegalCalls(cfg, s3, []);
    assert LegalCalls(cfg, s1, [calls[1]]) && AfterCalls(cfg, s1, [calls[1]]) == s2;
    assert LegalCalls(cfg, s2, [calls[2]]) && AfterCalls(cfg, s2, [calls[2]]) == s3;
    assert LegalCalls(cfg, s1, calls[1..]) && AfterCalls(cfg, s1, calls[1..]) == s3;
  }

  /**
   * The run that shows the condition is needed: with threshold - 1 reporters on record, a new Report between a fetch
   * that returns the link first and the write of its scan result is undone.
   */
  lemma ReportUndone(cfg: Config, s: Atom, list: seq<Item>, id: nat, address: Option<Address>, reason: string)
    requires WellFormed(s.table) && RowOf(s.table, id, LinkOf(id)) && LinkOf(id) != "" && IsValidReason(reason)
    requires IsFetch(s.table, s.now, list) && list != [] && list[0].id == id
    requires |ReportersOf(s.reports, id)| + 1 >= cfg.threshold && (id, Masked(address)) !in s.reports
    ensures var calls := UndoingCalls(list, id, address, reason);
            && LegalCalls(cfg, s, calls)
            && LegalCalls(cfg, s, calls[..2])
            && IsMalicious(AfterCalls(cfg, s, calls[..2]).table, id)
            && !IsMalicious(AfterCalls(cfg, s, calls).table, id)
  {
    hide LegalCalls, AfterCalls, WellFormed, IsFetch, Backlog, ReportResult, LinkOf, ReportersOf, IsValidReason;
    var calls := UndoingCalls(list, id, address, reason);
    var s1 := Step(cfg, s, calls[0]);
    DecidingReport(cfg, s1, id, address, reason);
    var s2 := Step(cfg, s1, calls[1]);
    var s3 := Step(cfg, s2, calls[2]);
    ThreeCalls(cfg, s, s1, s2, s3, calls);
  }

  // ----- Deduplication ------------------------------------------------------------------------

  /** No two unexpired rows share an original URL. */
  ghost predicate NoTwins(t: Table, now: int) {
    forall a, b | a in t.rows && b in t.rows && a != b && t.rows[a].url == t.rows[b].url ::
      !(Unexpired(t.rows[a], now) && Unexpired(t.rows[b], now))
  }

  lemma NoTwinsLater(t: Table, u: Table, now: int, later: int)
    requires NoTwins(t, now) && now <= later && SameButStatus(t, u)
    ensures NoTwins(u, later)
  {
  }

  /** A row that the dedup check did not find is no duplicate. */
  lemma NoTwinsAdded(t: Table, u: Table, url: string, now: int)
    requires NoTwins(t, now) && AddsAtMost(t, u, url, now)
    requires u.rows != t.rows ==> IsDedupPick(t, url, now, None)
    ensures NoTwins(u, now)
  {
    hide WellFormed, CanInsert, Extends;
  }

  lemma AddsOnlyWhenNone(cfg: Config, s: Atom, call: Call)
    requires Allowed(cfg, s, call) && call.CallShorten?
    ensures Step(cfg, s, call).table.rows != s.table.rows ==> IsDedupPick(s.table, UrlOf(cfg, call.raw), s.now, None)
    ensures Step(cfg, s, call).now == s.now
  {
    hide ShortenNew, IsDedupPick;
    var f := call.sf;
    if cfg.accept(call.raw).Some? && !f.dedupFails && call.pick.None? {
      assert IsDedupPick(s.table, UrlOf(cfg, call.raw), s.now, None);
    }
  }

  lemma ClockOnward(cfg: Config, s: Atom, call: Call)
    requires Allowed(cfg, s, call)
    ensures Step(cfg, s, call).now >= s.now
  {
    hide ResolveCached, ShortenResult, ReportResult, ProcessedTable, ProcessedCache, IsDedupPick, IsFetch;
  }

  lemma NoTwinsStep(cfg: Config, s: Atom, call: Call)
    requires WellFormed(s.table) && WorkOk(s.table, s.work) && Allowed(cfg, s, call) && NoTwins(s.table, s.now)
    ensures NoTwins(Step(cfg, s, call).table, Step(cfg, s, call).now)
  {
    hide WellFormed, WorkOk, Allowed, Step, NoTwins, SameButStatus, AddsAtMost, IsDedupPick;
    if call.CallShorten? {
      ShortenCalls(cfg, s, call);
      AddsOnlyWhenNone(cfg, s, call);
      NoTwinsAdded(s.table, Step(cfg, s, call).table, UrlOf(cfg, call.raw), s.now);
    } else {
      OtherCalls(cfg, s, call);
      ClockOnward(cfg, s, call);
      NoTwinsLater(s.table, Step(cfg, s, call).table, s.now, Step(cfg, s, call).now);
    }
  }

  /** Shorten calls that do not overlap never make duplicates, whatever writes fail on the way. */
  lemma {:induction false} NoDuplicates(cfg: Config, s: Atom, calls: seq<Call>)
    requires WellFormed(s.table) && WorkOk(s.table, s.work) && LegalCalls(cfg, s, calls) && NoTwins(s.table, s.now)
    ensures NoTwins(AfterCalls(cfg, s, calls).table, AfterCalls(cfg, s, calls).now)
    decreases |calls|
  {
    hide WellFormed, Allowed, Step, NoTwins;
    if calls != [] {
      StepTable(cfg, s, calls[0]);
      NoTwinsStep(cfg, s, calls[0]);
      NoDuplicates(cfg, Step(cfg, s, calls[0]), calls[1..]);
    }
  }

  // ----- Cached and uncached answers agree ----------------------------------------------------

  predicate FaultFree(call: Call) {
    match call
    case Wait(_) => true
    case CallResolve(_, f) => f == NO_RESOLVE_FAULTS
    case CallShorten(_, _, _, f) => f == ShortenFaults(false, Fine, Fine, false, false, false)
    case CallReport(_, _, _, f) => f == ReportFaults(false, Fine, false, false, false)
    case CallFetch(_) => true
    case CallProcess(_, f) => f == RescanFaults(false, false)
  }

  predicate AllFaultFree(calls: seq<Call>) { forall i | 0 <= i < |calls| :: FaultFree(calls[i]) }

  /** A cached hash belongs to a row that is not malicious, with that row's URL and id, under one deadline. */
  ghost predicate Mirrors(cfg: Config, t: Table, c: Cache, h: string, id: nat) {
    && h in c.urls && h in c.metas && h != ""
    && RowOf(t, id, h)
    && t.rows[id].status != Malicious && cfg.web(t.rows[id].url)
    && c.urls[h].url == t.rows[id].url && c.urls[h].status != Malicious
    && c.metas[h] == MetaEntry(id, c.urls[h].deadline)
  }

  ghost predicate CacheTrue(cfg: Config, t: Table, c: Cache) {
    && c.urls.Keys == c.metas.Keys
    && forall h | h in c.urls :: exists id: nat :: Mirrors(cfg, t, c, h, id)
  }

  lemma FillTrue(cfg: Config, t: Table, c: Cache, h: string, id: nat, status: Status, deadline: int)
    requires CacheTrue(cfg, t, c) && h != "" && RowOf(t, id, h)
    requires t.rows[id].status != Malicious && status != Malicious && cfg.web(t.rows[id].url)
    ensures CacheTrue(cfg, t, Filled(c, h, t.rows[id].url, status, id, deadline, false, false))
  {
    var d := Filled(c, h, t.rows[id].url, status, id, deadline, false, false);
    forall g | g in d.urls ensures exists k: nat :: Mirrors(cfg, t, d, g, k) {
      if g == h {
        assert Mirrors(cfg, t, d, g, id);
      } else {
        var k: nat :| Mirrors(cfg, t, c, g, k);
        assert Mirrors(cfg, t, d, g, k);
      }
    }
  }

  /** Dropping the hash of the one row whose status changed leaves the rest true. */
  lemma DropTrue(cfg: Config, t: Table, u: Table, c: Cache, h: string, id: nat)
    requires CacheTrue(cfg, t, c) && WellFormed(t) && RowOf(t, id, h)
    requires forall k | k in t.rows && k != id :: k in u.rows && u.rows[k] == t.rows[k]
    ensures CacheTrue(cfg, u, Dropped(c, h))
  {
    var d := Dropped(c, h);
    forall g | g in d.urls ensures exists k: nat :: Mirrors(cfg, u, d, g, k) {
      var k: nat :| Mirrors(cfg, t, c, g, k);
      assert k != id;
      assert Mirrors(cfg, u, d, g, k);
    }
  }

  /** Table changes that keep every harmless row's link and keep it harmless keep the cache true. */
  lemma TableTrue(cfg: Config, t: Table, u: Table, c: Cache)
    requires CacheTrue(cfg, t, c)
    requires forall k | k in t.rows :: k in u.rows && u.rows[k].hash == t.rows[k].hash && u.rows[k].url == t.rows[k].url
    requires forall k | k in t.rows :: t.rows[k].status != Malicious ==> u.rows[k].status != Malicious
    ensures CacheTrue(cfg, u, c)
  {
    forall g | g in c.urls ensures exists k: nat :: Mirrors(cfg, u, c, g, k) {
      var k: nat :| Mirrors(cfg, t, c, g, k);
      assert Mirrors(cfg, u, c, g, k);
    }
  }

  lemma ResolveTrue(cfg: Config, s: Atom, h: string)
    requires WellFormed(s.table) && CacheTrue(cfg, s.table, s.cache) && h != ""
    ensures CacheTrue(cfg, s.table, ResolveCached(cfg, s.table, s.cache, h, s.now, NO_RESOLVE_FAULTS).1)
  {
    hide CacheTrue, WellFormed;
    var found := FindByHash(s.table, h);
    var r := ResolveCached(cfg, s.table, s.cache, h, s.now, NO_RESOLVE_FAULTS);
    if found.Some? {
      var id := found.value;
      if Lookup(s.cache, h, s.now).Some? {
        HitIsHarmless(cfg, s, h);
      } else if r.0.Served? {
        FillTrue(cfg, s.table, s.cache, h, id, s.table.rows[id].status, s.now + cfg.cacheTTL);
      } else if r.0.Refused? {
        DropTrue(cfg, s.table, s.table, s.cache, h, id);
      }
    } else if Lookup(s.cache, h, s.now).Some? {
      HitIsHarmless(cfg, s, h);
    }
  }

  lemma HitIsHarmless(cfg: Config, s: Atom, h: string)
    requires CacheTrue(cfg, s.table, s.cache) && Lookup(s.cache, h, s.now).Some?
    ensures Lookup(s.cache, h, s.now).value.status != Malicious
  {
    var id: nat :| Mirrors(cfg, s.table, s.cache, h, id);
  }

  lemma ShortenTrue(cfg: Config, t: Table, c: Cache, url: string, now: int, scan: Status)
    requires WellFormed(t) && CacheTrue(cfg, t, c) && cfg.web(url) && scan != Malicious
    ensures var r := ShortenNew(cfg, t, c, url, now, scan, ShortenFaults(false, Fine, Fine, false, false, false));
            CacheTrue(cfg, r.1, r.2)
  {
    hide CacheTrue, WellFormed;
    var f := ShortenFaults(false, Fine, Fine, false, false, false);
    var r := ShortenNew(cfg, t, c, url, now, scan, f);
    ShortenForm(cfg, t, c, url, now, scan, f);
    TableTrue(cfg, t, r.1, c);
    if r.0.Created? {
      CreatedLink(t);
      FillTrue(cfg, r.1, c, r.0.hash, r.0.id, scan, now + cfg.linkTTL);
    }
  }

  lemma CreatedLink(t: Table)
    requires WellFormed(t) && CanInsert(t)
    ensures LinkOf(t.nextId) != ""
  {
    LinksDiffer(t.nextId, t.nextId);
  }

  lemma ReportTrue(cfg: Config, s: Atom, h: string, address: Option<Address>, reason: string)
    requires WellFormed(s.table) && CacheTrue(cfg, s.table, s.cache) && h != ""
    ensures var r := ReportResult(cfg, s.table, s.cache, s.reports, h, address, reason,
                                  ReportFaults(false, Fine, false, false, false));
            CacheTrue(cfg, r.1, r.2)
  {
    hide CacheTrue, WellFormed, ReportersOf, IsValidReason, Masked;
    var found := FindByHash(s.table, h);
    if found.Some? {
      DropTrue(cfg, s.table, AfterStatus(s.table, found.value, Malicious), s.cache, h, found.value);
    }
  }

  lemma ProcessTrue(cfg: Config, s: Atom, scan: Status)
    requires WellFormed(s.table) && CacheTrue(cfg, s.table, s.cache) && WorkOk(s.table, s.work) && s.work != []
    ensures var f := RescanFaults(false, false);
            CacheTrue(cfg, ProcessedTable(s.table, s.work[0], scan, f), ProcessedCache(s.cache, s.work[0], scan, f))
  {
    hide CacheTrue, WellFormed;
    var item := s.work[0];
    if scan == Malicious {
      DropTrue(cfg, s.table, AfterStatus(s.table, item.id, scan), s.cache, item.row.hash, item.id);
    } else {
      TableTrue(cfg, s.table, AfterStatus(s.table, item.id, scan), s.cache);
    }
  }

  lemma TrueStep(cfg: Config, s: Atom, call: Call)
    requires ValidConfig(cfg) && WellFormed(s.table) && WorkOk(s.table, s.work) && CacheTrue(cfg, s.table, s.cache)
    requires Allowed(cfg, s, call) && FaultFree(call)
    ensures CacheTrue(cfg, Step(cfg, s, call).table, Step(cfg, s, call).cache)
  {
    hide WellFormed, CacheTrue, ResolveCached, ShortenNew, ReportResult, ProcessedTable, ProcessedCache, IsDedupPick, IsFetch, WorkOk;
    match call {
      case CallResolve(h, _) => ResolveTrue(cfg, s, h);
      case CallShorten(raw, _, scan, _) =>
        if cfg.accept(raw).Some? && scan != Malicious {
          ShortenTrue(cfg, s.table, s.cache, cfg.accept(raw).value, s.now, scan);
        }
      case CallReport(h, address, reason, _) => ReportTrue(cfg, s, h, address, reason);
      case CallProcess(scan, _) => ProcessTrue(cfg, s, scan);
      case _ =>
    }
  }

  lemma {:induction false} TrueRun(cfg: Config, s: Atom, calls: seq<Call>)
    requires ValidConfig(cfg) && WellFormed(s.table) && WorkOk(s.table, s.work) && CacheTrue(cfg, s.table, s.cache)
    requires LegalCalls(cfg, s, calls) && AllFaultFree(calls)
    ensures WellFormed(AfterCalls(cfg, s, calls).table)
    ensures CacheTrue(cfg, AfterCalls(cfg, s, calls).table, AfterCalls(cfg, s, calls).cache)
    decreases |calls|
  {
    hide ValidConfig, WellFormed, CacheTrue, Allowed, Step;
    if calls != [] {
      StepTable(cfg, s, calls[0]);
      TrueStep(cfg, s, calls[0]);
      TrueRun(cfg, Step(cfg, s, calls[0]), calls[1..]);
    }
  }

  /** Same outcome, URL and id; the status shown for a served link may lag. */
  predicate SameAnswer(a: Answer, b: Answer) {
    if a.Served? && b.Served? then a.url == b.url && a.id == b.id else a == b
  }

  /** A live cache entry whose row has expired: Resolve does not look at the row then. */
  ghost predicate HitPastExpiry(t: Table, c: Cache, h: string, now: int) {
    Lookup(c, h, now).Some? && FindByHash(t, h).Some? && Expired(t.rows[FindByHash(t, h).value], now)
  }

  /**
   * After any error-free calls, Resolve with the cache gives the answer of Resolve with a nil cache exactly when it is
   * not a hit on an expired link; on such a hit it serves what the uncached path calls expired.
   */
  lemma CachedAgrees(cfg: Config, s0: Atom, calls: seq<Call>, h: string)
    requires ValidConfig(cfg) && StartAtom(s0) && LegalCalls(cfg, s0, calls) && AllFaultFree(calls)
    ensures var s := AfterCalls(cfg, s0, calls);
            var cached := ResolveCached(cfg, s.table, s.cache, h, s.now, NO_RESOLVE_FAULTS).0;
            var uncached := ResolveUncached(cfg, s.table, h, s.now, NO_RESOLVE_FAULTS);
            && (SameAnswer(cached, uncached) <==> !HitPastExpiry(s.table, s.cache, h, s.now))
            && (HitPastExpiry(s.table, s.cache, h, s.now) ==> cached.Served? && uncached.Gone?)
  {
    TrueRun(cfg, s0, calls);
    var s := AfterCalls(cfg, s0, calls);
    if Lookup(s.cache, h, s.now).Some? {
      var id: nat :| Mirrors(cfg, s.table, s.cache, h, id);
      HashNamesRow(s.table, id, h);
    }
  }
}
