/** The time-limited memo of internal/scanner/cache.go over a scanner whose answers vary. */
module ScanCache {
  import opened Wrappers
  import opened Store

  datatype ScanResult = ScanResult(status: Status, positives: int, total: int, scannedAt: int, permalink: string)

  datatype Entry = Entry(result: ScanResult, deadline: int)

  // An answer the inner scanner gave.
  datatype Produced = Produced(url: string, result: ScanResult, at: int)

  // key is the hex SHA-256 of the URL behind a prefix.
  datatype Settings = Settings(ttl: int, key: string -> string)

  ghost predicate Distinct(cfg: Settings) {
    cfg.ttl > 0 && forall a: string, b: string :: cfg.key(a) == cfg.key(b) ==> a == b
  }

  predicate Fresh(entries: map<string, Entry>, k: string, now: int) {
    k in entries && now < entries[k].deadline
  }

  /** The scanner object; reads and writes of the cache may fail, and a failed read counts as a miss. */
  class CachedScanner {
    const settings: Settings
    var entries: map<string, Entry>

    constructor (settings: Settings)
      ensures this.settings == settings && entries == map[]
    {
      this.settings := settings;
      entries := map[];
    }

    /** Scan, where answer is what the inner scanner would say now. */
    method Scan(url: string, now: int, readFails: bool, answer: ScanResult, writeFails: bool)
      returns (r: ScanResult, asked: bool)
      modifies this
      ensures asked <==> readFails || !Fresh(old(entries), settings.key(url), now)
      ensures !asked ==> r == old(entries)[settings.key(url)].result && entries == old(entries)
      ensures asked ==> r == answer
      ensures asked ==> entries == if writeFails then old(entries)
                                   else old(entries)[settings.key(url) := Entry(answer, now + settings.ttl)]
    {
      var k := settings.key(url);
      if !readFails && k in entries && now < entries[k].deadline {
        return entries[k].result, false;
      }
      if !writeFails {
        entries := entries[k := Entry(answer, now + settings.ttl)];
      }
      return answer, true;
    }
  }

  // ----- Interleaved scans --------------------------------------------------------------------

  datatype Proc =
    | Reading(url: string)
    | Asking(url: string)
    | Writing(url: string, result: ScanResult, at: int)

  datatype Sys = Sys(now: int, entries: map<string, Entry>, produced: set<Produced>, procs: map<nat, Proc>)

  datatype Action =
    | Advance(d: nat)
    | Begin(p: nat, url: string)
    | Read(p: nat, fails: bool)
    | Ask(p: nat, answer: ScanResult)
    | Write(p: nat, fails: bool)
    | Abandon(p: nat)

  predicate Enabled(s: Sys, a: Action) {
    match a
    case Advance(_) => true
    case Begin(p, _) => p !in s.procs
    case Read(p, _) => p in s.procs && s.procs[p].Reading?
    case Ask(p, _) => p in s.procs && s.procs[p].Asking?
    case Write(p, _) => p in s.procs && s.procs[p].Writing?
    case Abandon(p) => p in s.procs
  }

  function Next(cfg: Settings, s: Sys, a: Action): Sys
    requires Enabled(s, a)
  {
    match a
    case Advance(d) => s.(now := s.now + d)
    case Begin(p, url) => s.(procs := s.procs[p := Reading(url)])
    case Read(p, fails) =>
      if !fails && Fresh(s.entries, cfg.key(s.procs[p].url), s.now) then s.(procs := s.procs - {p})
      else s.(procs := s.procs[p := Asking(s.procs[p].url)])
    case Ask(p, answer) =>
      s.(produced := s.produced + {Produced(s.procs[p].url, answer, s.now)},
         procs := s.procs[p := Writing(s.procs[p].url, answer, s.now)])
    case Write(p, fails) =>
      var w := s.procs[p];
      s.(entries := if fails then s.entries else s.entries[cfg.key(w.url) := Entry(w.result, s.now + cfg.ttl)],
         procs := s.procs - {p})
    case Abandon(p) => s.(procs := s.procs - {p})
  }

  predicate Legal(cfg: Settings, s: Sys, acts: seq<Action>)
    decreases |acts|
  {
    acts == [] || (Enabled(s, acts[0]) && Legal(cfg, Next(cfg, s, acts[0]), acts[1..]))
  }

  function End(cfg: Settings, s: Sys, acts: seq<Action>): Sys
    requires Legal(cfg, s, acts)
    decreases |acts|
  {
    if acts == [] then s else End(cfg, Next(cfg, s, acts[0]), acts[1..])
  }

  function AskAndWrite(p: nat, answer: ScanResult, writeFails: bool): seq<Action> {
    [Ask(p, answer)] + ([Write(p, writeFails)] + [])
  }

  /** The operations of one Scan with no other in between. */
  function ScanActions(p: nat, url: string, readFails: bool, asked: bool, answer: ScanResult, writeFails: bool): seq<Action> {
    [Begin(p, url)] + ([Read(p, readFails)] + if asked then AskAndWrite(p, answer, writeFails) else [])
  }

  lemma Prepend(cfg: Settings, s: Sys, a: Action, rest: seq<Action>)
    requires Enabled(s, a) && Legal(cfg, Next(cfg, s, a), rest)
    ensures Legal(cfg, s, [a] + rest) && End(cfg, s, [a] + rest) == End(cfg, Next(cfg, s, a), rest)
  {
    hide Enabled, Next;
    assert ([a] + rest)[0] == a && ([a] + rest)[1..] == rest;
  }

  lemma AskRuns(cfg: Settings, s: Sys, p: nat, url: string, answer: ScanResult, writeFails: bool)
    requires p !in s.procs
    ensures var s2 := s.(procs := s.procs[p := Asking(url)]);
            && Legal(cfg, s2, AskAndWrite(p, answer, writeFails))
            && End(cfg, s2, AskAndWrite(p, answer, writeFails)) == s.(
                 entries := if writeFails then s.entries else s.entries[cfg.key(url) := Entry(answer, s.now + cfg.ttl)],
                 produced := s.produced + {Produced(url, answer, s.now)})
  {
    var s2 := s.(procs := s.procs[p := Asking(url)]);
    var s3 := Next(cfg, s2, Ask(p, answer));
    var s4 := Next(cfg, s3, Write(p, writeFails));
    assert s4.procs == s.procs;
    Prepend(cfg, s3, Write(p, writeFails), []);
    Prepend(cfg, s2, Ask(p, answer), [Write(p, writeFails)] + []);
  }

  /** They have the effect that CachedScanner.Scan promises. */
  lemma ScanRuns(cfg: Settings, s: Sys, p: nat, url: string, readFails: bool, answer: ScanResult, writeFails: bool)
    requires p !in s.procs
    ensures var k := cfg.key(url);
            var asked := readFails || k !in s.entries || s.entries[k].deadline <= s.now;
            var acts := ScanActions(p, url, readFails, asked, answer, writeFails);
            && Legal(cfg, s, acts)
            && End(cfg, s, acts) == s.(
                 entries := if asked && !writeFails then s.entries[k := Entry(answer, s.now + cfg.ttl)] else s.entries,
                 produced := if asked then s.produced + {Produced(url, answer, s.now)} else s.produced)
  {
    hide Legal, End, AskAndWrite;
    var asked := readFails || !Fresh(s.entries, cfg.key(url), s.now);
    var rest := if asked then AskAndWrite(p, answer, writeFails) else [];
    var s1 := Next(cfg, s, Begin(p, url));
    var s2 := Next(cfg, s1, Read(p, readFails));
    if asked {
      assert s2 == s.(procs := s.procs[p := Asking(url)]);
      AskRuns(cfg, s, p, url, answer, writeFails);
    } else {
      assert s2 == s;
      NothingRuns(cfg, s);
    }
    Prepend(cfg, s1, Read(p, readFails), rest);
    Prepend(cfg, s, Begin(p, url), [Read(p, readFails)] + rest);
  }

  lemma NothingRuns(cfg: Settings, s: Sys)
    ensures Legal(cfg, s, []) && End(cfg, s, []) == s
  {
  }

  /** No result waits longer than delta for its write. */
  predicate Prompt(s: Sys, delta: int) {
    forall p | p in s.procs && s.procs[p].Writing? :: s.now <= s.procs[p].at + delta
  }

  predicate AllPrompt(cfg: Settings, s: Sys, acts: seq<Action>, delta: int)
    requires Legal(cfg, s, acts)
    decreases |acts|
  {
    Prompt(s, delta) && (acts == [] || AllPrompt(cfg, Next(cfg, s, acts[0]), acts[1..], delta))
  }

  /** The answer that a step returns to the caller of Scan for url, if it is the call's last. */
  function Answered(cfg: Settings, s: Sys, a: Action): Option<(string, ScanResult)> {
    match a
    case Read(p, fails) =>
      if p in s.procs && !fails && Fresh(s.entries, cfg.key(s.procs[p].url), s.now) then
        Some((s.procs[p].url, s.entries[cfg.key(s.procs[p].url)].result))
      else None
    case Write(p, _) => if p in s.procs && s.procs[p].Writing? then Some((s.procs[p].url, s.procs[p].result)) else None
    case _ => None
  }

  ghost predicate Backed(cfg: Settings, s: Sys, k: string, x: Produced, delta: int) {
    && x in s.produced && cfg.key(x.url) == k && k in s.entries && s.entries[k].result == x.result
    && x.at <= s.now && s.entries[k].deadline <= x.at + delta + cfg.ttl
  }

  ghost predicate Inv(cfg: Settings, s: Sys, delta: int) {
    && (forall k | k in s.entries :: exists x :: Backed(cfg, s, k, x, delta))
    && (forall p | p in s.procs && s.procs[p].Writing? ::
          s.procs[p].at <= s.now && Produced(s.procs[p].url, s.procs[p].result, s.procs[p].at) in s.produced)
  }

  lemma InvNext(cfg: Settings, s: Sys, a: Action, delta: int)
    requires Inv(cfg, s, delta) && Prompt(s, delta) && Enabled(s, a)
    ensures Inv(cfg, Next(cfg, s, a), delta)
  {
    var s' := Next(cfg, s, a);
    forall k | k in s'.entries ensures exists x :: Backed(cfg, s', k, x, delta) {
      if a.Write? && !a.fails && k == cfg.key(s.procs[a.p].url) {
        var w := s.procs[a.p];
        assert Backed(cfg, s', k, Produced(w.url, w.result, w.at), delta);
      } else {
        var x :| Backed(cfg, s, k, x, delta);
        assert Backed(cfg, s', k, x, delta);
      }
    }
  }

  lemma {:induction false} InvRun(cfg: Settings, s: Sys, acts: seq<Action>, delta: int)
    requires Inv(cfg, s, delta) && Legal(cfg, s, acts) && AllPrompt(cfg, s, acts, delta)
    ensures Inv(cfg, End(cfg, s, acts), delta) && Prompt(End(cfg, s, acts), delta)
    decreases |acts|
  {
    hide Inv, Next, Enabled, Prompt;
    if acts != [] {
      InvNext(cfg, s, acts[0], delta);
      InvRun(cfg, Next(cfg, s, acts[0]), acts[1..], delta);
    }
  }

  /**
   * Every answer, under any interleaving and any cache failures: the inner scanner gave it for this very URL, less than
   * one TTL plus the write delay ago.
   */
  lemma AnswersAreRecent(cfg: Settings, start: int, acts: seq<Action>, a: Action, delta: nat)
    requires Distinct(cfg)
    requires var s0 := Sys(start, map[], {}, map[]);
             Legal(cfg, s0, acts) && AllPrompt(cfg, s0, acts, delta) && Enabled(End(cfg, s0, acts), a)
    ensures var s := End(cfg, Sys(start, map[], {}, map[]), acts);
            Answered(cfg, s, a).Some? ==>
              exists x | x in s.produced ::
                && x.url == Answered(cfg, s, a).value.0 && x.result == Answered(cfg, s, a).value.1
                && x.at <= s.now < x.at + delta + cfg.ttl
  {
    InvRun(cfg, Sys(start, map[], {}, map[]), acts, delta);
    AnswerBacked(cfg, End(cfg, Sys(start, map[], {}, map[]), acts), a, delta);
  }

  lemma AnswerBacked(cfg: Settings, s: Sys, a: Action, delta: nat)
    requires Distinct(cfg) && Inv(cfg, s, delta) && Prompt(s, delta) && Enabled(s, a)
    ensures Answered(cfg, s, a).Some? ==>
              exists x | x in s.produced ::
                && x.url == Answered(cfg, s, a).value.0 && x.result == Answered(cfg, s, a).value.1
                && x.at <= s.now < x.at + delta + cfg.ttl
  {
    if Answered(cfg, s, a).Some? {
      if a.Read? {
        var k := cfg.key(s.procs[a.p].url);
        var x :| Backed(cfg, s, k, x, delta);
        assert x.url == s.procs[a.p].url;
      } else {
        var w := s.procs[a.p];
        assert Produced(w.url, w.result, w.at) in s.produced;
      }
    }
  }
}
