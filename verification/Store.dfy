/**
 * The shared state of the link lifecycle and its single operations: the urls and url_reports tables of
 * internal/repository/mysql and the two Redis key families of internal/repository/redis. One operation is one SQL
 * statement or one Redis command; faults are decided by the callers.
 */
module Store {
  import opened Wrappers
  import opened Base62
  import opened Anonymize

  datatype Status = Pending | Clean | Malicious | Unverified

  datatype Row = Row(hash: string, url: string, createdAt: int, expiresAt: Option<int>, status: Status)

  // AUTO_INCREMENT hands out nextId; ids are never reused.
  datatype Table = Table(rows: map<nat, Row>, nextId: nat)

  datatype UrlEntry = UrlEntry(url: string, status: Status, deadline: int)
  datatype MetaEntry = MetaEntry(id: nat, deadline: int)

  // snip:url:<hash> and snip:meta:<hash>.
  datatype Cache = Cache(urls: map<string, UrlEntry>, metas: map<string, MetaEntry>)

  datatype Hit = Hit(url: string, status: Status, id: nat)

  // A url_reports row is its UNIQUE key: the link and the anonymised reporter.
  type Reports = set<(nat, Reporter)>

  // Settings, and the two library-bound judgements about text: accept is NormalizeURL followed by ValidateURL,
  // web is url.Parse finding scheme http or https.
  datatype Config = Config(
    cacheTTL: int,
    linkTTL: int,
    threshold: int,
    web: string -> bool,
    accept: string -> Option<string>)

  ghost predicate ValidConfig(cfg: Config) {
    && cfg.cacheTTL > 0
    && cfg.linkTTL > 0
    && forall raw: string :: cfg.accept(raw).Some? ==> cfg.web(cfg.accept(raw).value)
  }

  function MaxTTL(cfg: Config): int {
    if cfg.cacheTTL >= cfg.linkTTL then cfg.cacheTTL else cfg.linkTTL
  }

  // ----- The urls table -----------------------------------------------------------------------

  /** The hash that Shorten assigns to a row: hash.Encode of its 64-bit id. */
  function LinkOf(id: nat): string { if id < TWO_64 then Encoded(id) else "" }

  predicate IsMalicious(t: Table, id: nat) { id in t.rows && t.rows[id].status == Malicious }

  predicate RowOf(t: Table, id: nat, h: string) { id in t.rows && t.rows[id].hash == h }

  /** The test of Resolve: expires_at strictly before the clock. */
  predicate Expired(r: Row, now: int) { r.expiresAt.Some? && r.expiresAt.value < now }

  /** The SQL filter of the dedup and rescan queries: expires_at NULL or strictly after the clock. */
  predicate Unexpired(r: Row, now: int) { r.expiresAt.None? || r.expiresAt.value > now }

  predicate HashTaken(t: Table, h: string) { exists id | id in t.rows :: RowOf(t, id, h) }

  predicate HashTakenByOther(t: Table, h: string, id: nat) {
    exists other | other in t.rows :: other != id && RowOf(t, other, h)
  }

  /** INSERT with hash '' meets the UNIQUE column: it works only while no row has the empty hash. */
  predicate CanInsert(t: Table) { !HashTaken(t, "") && t.nextId < TWO_64 }

  function Inserted(t: Table, url: string, now: int, expiresAt: int): Table {
    Table(t.rows[t.nextId := Row("", url, now, Some(expiresAt), Pending)], t.nextId + 1)
  }

  /** A duplicate-key INSERT still consumes an auto-increment value. */
  function Burned(t: Table): Table {
    if t.nextId < TWO_64 then t.(nextId := t.nextId + 1) else t
  }

  predicate CanSetHash(t: Table, id: nat, h: string) { !HashTakenByOther(t, h, id) }

  function AfterHash(t: Table, id: nat, h: string): Table {
    if id in t.rows then t.(rows := t.rows[id := t.rows[id].(hash := h)]) else t
  }

  function AfterStatus(t: Table, id: nat, status: Status): Table {
    if id in t.rows then t.(rows := t.rows[id := t.rows[id].(status := status)]) else t
  }

  /** SELECT ... WHERE hash = ?. */
  ghost function FindByHash(t: Table, h: string): (r: Option<nat>)
    ensures r.Some? ==> RowOf(t, r.value, h)
    ensures r.None? ==> !HashTaken(t, h)
  {
    if id: nat :| RowOf(t, id, h) then Some(id) else None
  }

  /** SELECT ... WHERE original_url = ? AND unexpired LIMIT 1: any matching row, or none when there is none. */
  predicate IsDuplicateOf(t: Table, url: string, now: int, id: nat) {
    id in t.rows && t.rows[id].url == url && Unexpired(t.rows[id], now)
  }

  ghost predicate IsDedupPick(t: Table, url: string, now: int, pick: Option<nat>) {
    match pick
    case Some(id) => IsDuplicateOf(t, url, now, id)
    case None => forall id | id in t.rows :: !IsDuplicateOf(t, url, now, id)
  }

  datatype Item = Item(id: nat, row: Row)

  const FETCH_LIMIT: nat := 100

  function Backlog(t: Table, now: int): set<nat> {
    set id | id in t.rows && t.rows[id].status == Unverified && Unexpired(t.rows[id], now)
  }

  function Ids(list: seq<Item>): set<nat> { set i | 0 <= i < |list| :: list[i].id }

  predicate DistinctIds(list: seq<Item>) {
    forall i, j | 0 <= i < j < |list| :: list[i].id != list[j].id
  }

  /** SELECT ... WHERE vt_status = 'unverified' AND unexpired ORDER BY created_at ASC LIMIT 100; ties in any order. */
  ghost predicate IsFetch(t: Table, now: int, list: seq<Item>) {
    && DistinctIds(list)
    && Ids(list) <= Backlog(t, now)
    && (forall i | 0 <= i < |list| :: list[i].id in t.rows && list[i].row == t.rows[list[i].id])
    && (forall i, j | 0 <= i < j < |list| :: list[i].row.createdAt <= list[j].row.createdAt)
    && |list| <= FETCH_LIMIT
    && (|list| < FETCH_LIMIT ==> Ids(list) == Backlog(t, now))
    && (forall i, id | 0 <= i < |list| && id in Backlog(t, now) - Ids(list) :: list[i].row.createdAt <= t.rows[id].createdAt)
  }

  // ----- The cache ----------------------------------------------------------------------------

  const EMPTY_CACHE: Cache := Cache(map[], map[])

  /** MGET of both keys. An absent or expired url key is a miss, an absent meta key only loses the id. */
  function Lookup(c: Cache, h: string, now: int): Option<Hit> {
    if h in c.urls && now < c.urls[h].deadline then
      Some(Hit(c.urls[h].url, c.urls[h].status, if h in c.metas && now < c.metas[h].deadline then c.metas[h].id else 0))
    else None
  }

  function PutUrl(c: Cache, h: string, url: string, status: Status, deadline: int): Cache {
    c.(urls := c.urls[h := UrlEntry(url, status, deadline)])
  }

  function PutMeta(c: Cache, h: string, id: nat, deadline: int): Cache {
    c.(metas := c.metas[h := MetaEntry(id, deadline)])
  }

  /** DEL of both keys in one command. */
  function Dropped(c: Cache, h: string): Cache {
    Cache(c.urls - {h}, c.metas - {h})
  }

  // ----- Reports ------------------------------------------------------------------------------

  function ReportersOf(reports: Reports, id: nat): set<Reporter> {
    set p | p in reports && p.0 == id :: p.1
  }

  /** A new report raises the count of its own link by exactly one, whoever else reported; a repeated one raises none. */
  lemma ReportersGrow(reports: Reports, id: nat, key: (nat, Reporter))
    ensures ReportersOf(reports + {key}, id) == ReportersOf(reports, id) + (if key.0 == id then {key.1} else {})
    ensures |ReportersOf(reports + {key}, id)| == |ReportersOf(reports, id)| + (if key.0 == id && key !in reports then 1 else 0)
  {
    var r := ReportersOf(reports, id);
    assert ReportersOf(reports + {key}, id) == r + (if key.0 == id then {key.1} else {});
    assert key.1 in r <==> (id, key.1) in reports;
    if key.0 == id && key !in reports {
      assert |r + {key.1}| == |r| + 1;
    } else {
      assert r + (if key.0 == id then {key.1} else {}) == r;
    }
  }

  /** Under the UNIQUE key a link has as many report rows as distinct reporters. */
  lemma {:induction false} RowsAreReporters(reports: Reports, id: nat)
    ensures |ReportersOf(reports, id)| == |set row | row in reports && row.0 == id|
    decreases |reports|
  {
    var rows := set row | row in reports && row.0 == id;
    if rows == {} {
      forall p | p in reports ensures p.0 != id {
        assert p !in rows;
      }
      assert ReportersOf(reports, id) == {};
    } else {
      var row :| row in rows;
      var fewer := reports - {row};
      RowsAreReporters(fewer, id);
      assert (set r | r in fewer && r.0 == id) == rows - {row};
      assert fewer + {row} == reports;
      ReportersGrow(fewer, id, row);
    }
  }

  predicate IsValidReason(reason: string) {
    reason in {"phishing", "malware", "spam", "illegal", "other"}
  }

  // ----- Table invariant ----------------------------------------------------------------------

  /** Ids are allotted, hashes are '' or the row's own link, and at most one row still has the empty hash. */
  ghost predicate WellFormed(t: Table) {
    && 1 <= t.nextId <= TWO_64
    && (forall id | id in t.rows :: 1 <= id < t.nextId && (t.rows[id].hash == "" || t.rows[id].hash == LinkOf(id)))
    && (forall a, b | a in t.rows && b in t.rows && t.rows[a].hash == "" && t.rows[b].hash == "" :: a == b)
  }

  lemma LinksDiffer(a: nat, b: nat)
    requires a < TWO_64 && b < TWO_64
    ensures LinkOf(a) == LinkOf(b) <==> a == b
    ensures LinkOf(a) != ""
  {
    EncodedInjective(a, b);
  }

  /** A non-empty hash names at most one row, the one whose id encodes to it. */
  lemma HashNamesRow(t: Table, id: nat, h: string)
    requires WellFormed(t) && RowOf(t, id, h) && h != ""
    ensures id < TWO_64 && LinkOf(id) == h
    ensures FindByHash(t, h) == Some(id)
    ensures forall other: nat :: RowOf(t, other, h) ==> other == id
  {
    forall other: nat | RowOf(t, other, h) ensures other == id {
      LinksDiffer(id, other);
    }
  }

  lemma HashIsUnique(t: Table, id: nat, h: string)
    requires WellFormed(t) && RowOf(t, id, h)
    ensures FindByHash(t, h) == Some(id)
  {
    if h != "" {
      HashNamesRow(t, id, h);
    }
  }

  lemma OnlyRow(t: Table, id: nat, h: string)
    requires WellFormed(t) && RowOf(t, id, h)
    ensures forall other | other in t.rows && t.rows[other].hash == h :: other == id
  {
    HashIsUnique(t, id, h);
    forall other | other in t.rows && t.rows[other].hash == h ensures other == id {
      HashIsUnique(t, other, h);
    }
  }

  /** Rows are only added; of an existing row only the empty hash and the status ever change. */
  ghost predicate Extends(t: Table, u: Table) {
    && t.nextId <= u.nextId
    && forall id | id in t.rows ::
      && id in u.rows
      && u.rows[id].url == t.rows[id].url
      && u.rows[id].createdAt == t.rows[id].createdAt
      && u.rows[id].expiresAt == t.rows[id].expiresAt
      && (t.rows[id].hash != "" ==> u.rows[id].hash == t.rows[id].hash)
  }

  lemma InsertKeepsForm(t: Table, url: string, now: int, expiresAt: int)
    requires WellFormed(t) && CanInsert(t)
    ensures WellFormed(Inserted(t, url, now, expiresAt)) && Extends(t, Inserted(t, url, now, expiresAt))
  {
  }

  lemma HashKeepsForm(t: Table, id: nat)
    requires WellFormed(t) && id in t.rows && t.rows[id].hash == ""
    ensures CanSetHash(t, id, LinkOf(id))
    ensures WellFormed(AfterHash(t, id, LinkOf(id))) && Extends(t, AfterHash(t, id, LinkOf(id)))
  {
    forall other | other in t.rows && other != id ensures !RowOf(t, other, LinkOf(id)) {
      LinksDiffer(id, other);
    }
  }

  lemma StatusKeepsForm(t: Table, id: nat, status: Status)
    requires WellFormed(t)
    ensures WellFormed(AfterStatus(t, id, status)) && Extends(t, AfterStatus(t, id, status))
  {
  }

  /** The UNIQUE test of a case-insensitive hash column. */
  predicate CanSetFolded(t: Table, id: nat, h: string) {
    forall other | other in t.rows && other != id :: Fold(t.rows[other].hash) != Fold(h)
  }

  /**
   * With such a column a row could take its link exactly when no other row holds a link whose digits all fold together
   * with its own; ids 10 and 36 exclude each other.
   */
  lemma CaseInsensitiveColumnClashes(t: Table, id: nat)
    requires WellFormed(t) && id < TWO_64
    ensures CanSetFolded(t, id, LinkOf(id)) <==>
            forall other | other in t.rows && other != id && t.rows[other].hash != "" :: !SameFolded(Sum(other), Sum(id))
  {
    hide Encoded, Fold, SameFolded, Sum;
    assert Fold("") == "";
    forall other | other in t.rows && other != id
      ensures Fold(t.rows[other].hash) != Fold(LinkOf(id)) <==>
              t.rows[other].hash == "" || !SameFolded(Sum(other), Sum(id))
    {
      FoldedClash(other, id);
    }
  }
}
