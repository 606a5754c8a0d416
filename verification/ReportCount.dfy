/** Concurrent abuse reports: insert, count and block are separate operations, and no block is lost between them. */
module ReportCount {
  import opened Anonymize
  import opened Store
  import opened Links

  predicate Due(cfg: Config, s: Sys, id: nat) { |ReportersOf(s.reports, id)| >= cfg.threshold }

  /** A Report on this link that has inserted its row and has not yet come past its block decision. */
  predicate Deciding(q: Proc, id: nat) { (q.RpCount? || q.RpBlock?) && q.id == id }

  predicate Undecided(s: Sys, id: nat) { exists p | p in s.procs :: Deciding(s.procs[p], id) }

  /** The Reports on this link meet no error and are not abandoned between their insert and their block. */
  predicate Smooth(s: Sys, a: Action, id: nat) {
    match a
    case Run(p, io) =>
      p in s.procs && (Deciding(s.procs[p], id) || (s.procs[p].RpInsert? && s.procs[p].id == id)) ==> io.applied && io.acked
    case Abandon(p) => p in s.procs ==> !Deciding(s.procs[p], id)
    case _ => true
  }

  ghost predicate AllSmooth(cfg: Config, s: Sys, acts: seq<Action>, id: nat)
    requires Legal(cfg, s, acts)
    decreases |acts|
  {
    acts == [] || (Smooth(s, acts[0], id) && AllSmooth(cfg, Next(cfg, s, acts[0]), acts[1..], id))
  }

  ghost predicate Counted(cfg: Config, s: Sys, id: nat) {
    && (Due(cfg, s, id) ==> id in s.blocked || Undecided(s, id))
    && (id in s.blocked ==> Due(cfg, s, id))
    && (forall p | p in s.procs && s.procs[p].RpBlock? && s.procs[p].id == id :: Due(cfg, s, id))
  }

  predicate InReport(q: Proc) { q.RpInsert? || q.RpCount? || q.RpBlock? }

  lemma ActorOutside(cfg: Config, s: Sys, p: nat, q: Proc, io: Io)
    requires IoAllowed(s, q, io) && !InReport(q)
    ensures var s' := RunProc(cfg, s, p, q, io);
            s'.reports == s.reports && s'.blocked == s.blocked
            && (p in s'.procs ==> !s'.procs[p].RpCount? && !s'.procs[p].RpBlock?)
  {
    hide FindByHash, CanInsert, CanSetHash, Lookup, LinkOf;
  }

  /** Steps outside the insert, count and block of a Report move neither the count nor the decisions. */
  lemma OtherSteps(cfg: Config, s: Sys, a: Action, id: nat)
    requires Enabled(cfg, s, a) && (a.Run? ==> !InReport(s.procs[a.p]))
    ensures Next(cfg, s, a).reports == s.reports && Next(cfg, s, a).blocked == s.blocked
    ensures forall q | q in Next(cfg, s, a).procs && Deciding(Next(cfg, s, a).procs[q], id) ::
              q in s.procs && Next(cfg, s, a).procs[q] == s.procs[q]
    ensures forall q | q in s.procs && Deciding(s.procs[q], id) && !(a.Abandon? && a.p == q) ::
              q in Next(cfg, s, a).procs && Next(cfg, s, a).procs[q] == s.procs[q]
  {
    hide RunProc, IoAllowed;
    if !a.Advance? {
      StepFrame(cfg, s, a);
      if a.Run? {
        ActorOutside(cfg, s, a.p, s.procs[a.p], a.io);
      }
    }
  }

  lemma OtherCounted(cfg: Config, s: Sys, a: Action, id: nat)
    requires Enabled(cfg, s, a) && (a.Run? ==> !InReport(s.procs[a.p]))
    requires Smooth(s, a, id) && Counted(cfg, s, id)
    ensures Counted(cfg, Next(cfg, s, a), id)
  {
    hide Next, Enabled;
    OtherSteps(cfg, s, a, id);
    var s' := Next(cfg, s, a);
    if Undecided(s, id) {
      var p :| p in s.procs && Deciding(s.procs[p], id);
      assert p in s'.procs && Deciding(s'.procs[p], id);
    }
  }

  lemma InsertCounted(cfg: Config, s: Sys, p: nat, io: Io, id: nat)
    requires p in s.procs && s.procs[p].RpInsert? && Smooth(s, Run(p, io), id) && Counted(cfg, s, id)
    ensures Counted(cfg, RunReport(cfg, s, p, s.procs[p], io), id)
  {
    hide ReportersOf, IsValidReason, FindByHash;
    var q := s.procs[p];
    var s' := RunReport(cfg, s, p, q, io);
    ReportersGrow(s.reports, id, (q.id, q.reporter));
    forall r | r in s.procs && r != p ensures r in s'.procs && s'.procs[r] == s.procs[r] {
    }
    if Undecided(s, id) {
      var r :| r in s.procs && Deciding(s.procs[r], id);
      assert r in s'.procs && Deciding(s'.procs[r], id);
    } else if s'.reports != s.reports && q.id == id {
      assert Deciding(s'.procs[p], id);
    }
  }

  lemma DecideCounted(cfg: Config, s: Sys, p: nat, io: Io, id: nat)
    requires p in s.procs && (s.procs[p].RpCount? || s.procs[p].RpBlock?)
    requires Smooth(s, Run(p, io), id) && Counted(cfg, s, id)
    ensures Counted(cfg, RunReport(cfg, s, p, s.procs[p], io), id)
  {
    hide ReportersOf, IsValidReason, FindByHash;
    var q := s.procs[p];
    var s' := RunReport(cfg, s, p, q, io);
    forall r | r in s.procs && r != p ensures r in s'.procs && s'.procs[r] == s.procs[r] {
    }
    if Due(cfg, s, id) && id !in s.blocked {
      var r :| r in s.procs && Deciding(s.procs[r], id);
      if r != p {
        assert Deciding(s'.procs[r], id);
      } else if q.RpCount? {
        assert Deciding(s'.procs[p], id);
      }
    }
  }

  lemma CountedNext(cfg: Config, s: Sys, a: Action, id: nat)
    requires Enabled(cfg, s, a) && Smooth(s, a, id) && Counted(cfg, s, id)
    ensures Counted(cfg, Next(cfg, s, a), id)
  {
    hide Counted, Smooth, IoAllowed, RunReport;
    if a.Run? && InReport(s.procs[a.p]) {
      if s.procs[a.p].RpInsert? {
        InsertCounted(cfg, s, a.p, a.io, id);
      } else {
        DecideCounted(cfg, s, a.p, a.io, id);
      }
    } else {
      OtherCounted(cfg, s, a, id);
    }
  }

  lemma {:induction false} CountedRun(cfg: Config, s: Sys, acts: seq<Action>, id: nat)
    requires Legal(cfg, s, acts) && AllSmooth(cfg, s, acts, id) && Counted(cfg, s, id)
    ensures Counted(cfg, End(cfg, s, acts), id)
    decreases |acts|
  {
    hide Enabled, Next, Counted, Smooth;
    if acts != [] {
      CountedNext(cfg, s, acts[0], id);
      CountedRun(cfg, Next(cfg, s, acts[0]), acts[1..], id);
    }
  }

  /**
   * Any number of concurrent Reports on a link, among any other traffic: once none of them is between its insert and
   * its decision, the link has been blocked if and only if at least threshold distinct anonymised addresses are on
   * record. The start may be any moment at which that already held, a link without reports being one when threshold >= 1.
   */
  lemma BlockedIffReported(cfg: Config, s: Sys, acts: seq<Action>, id: nat)
    requires Legal(cfg, s, acts) && AllSmooth(cfg, s, acts, id)
    requires !Undecided(s, id) && (id in s.blocked <==> Due(cfg, s, id))
    requires !Undecided(End(cfg, s, acts), id)
    ensures id in End(cfg, s, acts).blocked <==> |ReportersOf(End(cfg, s, acts).reports, id)| >= cfg.threshold
  {
    hide Enabled, Next, Smooth;
    assert forall p | p in s.procs :: !Deciding(s.procs[p], id);
    CountedRun(cfg, s, acts, id);
  }

  /** A link enters the blocked history exactly on a step that sets its row to malicious as a Report's block. */
  lemma BlockSetsMalicious(cfg: Config, s: Sys, a: Action, id: nat)
    requires Enabled(cfg, s, a)
    ensures id in Next(cfg, s, a).blocked && id !in s.blocked ==>
              a.Run? && s.procs[a.p].RpBlock? && s.procs[a.p].id == id
              && (id in s.table.rows ==> Next(cfg, s, a).table.rows[id] == s.table.rows[id].(status := Malicious))
    ensures id in s.blocked ==> id in Next(cfg, s, a).blocked
  {
  }

  /** Even with errors and abandoned requests, nothing is blocked below the threshold. */
  lemma {:induction false} NeverBlockedEarly(cfg: Config, s: Sys, acts: seq<Action>, id: nat)
    requires Legal(cfg, s, acts)
    requires NoEarlyBlock(cfg, s, id)
    ensures NoEarlyBlock(cfg, End(cfg, s, acts), id)
    decreases |acts|
  {
    hide Enabled, Next, NoEarlyBlock;
    if acts != [] {
      NoEarlyBlockNext(cfg, s, acts[0], id);
      NeverBlockedEarly(cfg, Next(cfg, s, acts[0]), acts[1..], id);
    }
  }

  ghost predicate NoEarlyBlock(cfg: Config, s: Sys, id: nat) {
    && (id in s.blocked ==> Due(cfg, s, id))
    && (forall p | p in s.procs && s.procs[p].RpBlock? && s.procs[p].id == id :: Due(cfg, s, id))
  }

  lemma ReportKeepsDue(cfg: Config, s: Sys, p: nat, io: Io, id: nat)
    requires p in s.procs && InReport(s.procs[p]) && NoEarlyBlock(cfg, s, id)
    ensures NoEarlyBlock(cfg, RunReport(cfg, s, p, s.procs[p], io), id)
  {
    hide ReportersOf, IsValidReason, FindByHash;
    var q, s' := s.procs[p], RunReport(cfg, s, p, s.procs[p], io);
    if q.RpInsert? {
      ReportersGrow(s.reports, id, (q.id, q.reporter));
    }
    forall r | r in s'.procs && r != p ensures r in s.procs && s'.procs[r] == s.procs[r] {
    }
  }

  lemma NoEarlyBlockNext(cfg: Config, s: Sys, a: Action, id: nat)
    requires Enabled(cfg, s, a) && NoEarlyBlock(cfg, s, id)
    ensures NoEarlyBlock(cfg, Next(cfg, s, a), id)
  {
    if a.Run? && InReport(s.procs[a.p]) {
      hide NoEarlyBlock, RunReport, IoAllowed;
      ReportKeepsDue(cfg, s, a.p, a.io, id);
    } else {
      hide Next, Enabled;
      OtherSteps(cfg, s, a, id);
    }
  }
}
