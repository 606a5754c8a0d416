/**
 * The analytics dispatcher of internal/analytics/dispatcher.go as a machine over single channel and worker steps,
 * so that its runs are all interleavings of submitters, workers and shutdown.
 */
module DispatcherMachine {

  datatype ClickEvent = ClickEvent(urlId: nat, accessedAt: int, userAgent: string, ip: string)

  // An accepted event and its place in acceptance order. The place is bookkeeping that tells equal events apart.
  datatype Job = Job(ticket: nat, event: ClickEvent)

  // Where a worker goroutine is in its loop body.
  datatype Worker =
    | Idle
    | Inserting(job: Job)
    | Updating(job: Job)
    | Counting(job: Job)
    | Exited
  {
    predicate Holds() { Inserting? || Updating? || Counting? }
  }

  // A repository call made by a worker, and whether it returned an error.
  datatype Attempt =
    | InsertClick(ticket: nat, click: ClickEvent, failed: bool)
    | UpdateLastAccessed(ticket: nat, urlId: nat, failed: bool)

  datatype State = State(
    capacity: nat,
    queue: seq<Job>,
    closed: bool,
    workers: seq<Worker>,
    processed: nat,
    dropped: nat,
    // history
    submitted: seq<ClickEvent>,
    accepted: seq<ClickEvent>,
    lost: seq<ClickEvent>,
    panicked: seq<ClickEvent>,
    received: seq<Job>,
    finished: seq<Job>,
    log: seq<Attempt>)

  function Init(capacity: nat, numWorkers: nat): State {
    State(capacity, [], false, seq(numWorkers, _ => Idle), 0, 0, [], [], [], [], [], [], [])
  }

  datatype Action =
    | Submit(event: ClickEvent)
    | Handoff(event: ClickEvent, w: nat)
    | Close
    | Receive(w: nat)
    | Insert(w: nat, failed: bool)
    | Update(w: nat, failed: bool)
    | Count(w: nat)
    | Exit(w: nat)
  {
    predicate IsWorker() { Receive? || Insert? || Update? || Count? || Exit? }
  }

  predicate Enabled(s: State, a: Action) {
    match a
    case Submit(_) => true
    // A send that meets a waiting receiver bypasses the buffer; the only way in when the buffer has no room at all.
    case Handoff(_, w) => !s.closed && s.queue == [] && w < |s.workers| && s.workers[w].Idle?
    case Close => !s.closed
    case Receive(w) => w < |s.workers| && s.workers[w].Idle? && s.queue != []
    case Insert(w, _) => w < |s.workers| && s.workers[w].Inserting?
    case Update(w, _) => w < |s.workers| && s.workers[w].Updating?
    case Count(w) => w < |s.workers| && s.workers[w].Counting?
    case Exit(w) => w < |s.workers| && s.workers[w].Idle? && s.closed && s.queue == []
  }

  function Next(s: State, a: Action): State
    requires Enabled(s, a)
  {
    match a
    case Submit(e) =>
      var s := s.(submitted := s.submitted + [e]);
      if s.closed then s.(panicked := s.panicked + [e])
      else if |s.queue| < s.capacity then
        s.(queue := s.queue + [Job(|s.accepted|, e)], accepted := s.accepted + [e])
      else s.(dropped := s.dropped + 1, lost := s.lost + [e])
    case Handoff(e, w) =>
      var job := Job(|s.accepted|, e);
      s.(submitted := s.submitted + [e], accepted := s.accepted + [e], received := s.received + [job],
         workers := s.workers[w := Inserting(job)])
    case Close => s.(closed := true)
    case Receive(w) =>
      s.(queue := s.queue[1..], received := s.received + [s.queue[0]], workers := s.workers[w := Inserting(s.queue[0])])
    case Insert(w, failed) =>
      var job := s.workers[w].job;
      s.(log := s.log + [InsertClick(job.ticket, job.event, failed)], workers := s.workers[w := Updating(job)])
    case Update(w, failed) =>
      var job := s.workers[w].job;
      s.(log := s.log + [UpdateLastAccessed(job.ticket, job.event.urlId, failed)],
         workers := s.workers[w := Counting(job)])
    case Count(w) =>
      s.(processed := s.processed + 1, finished := s.finished + [s.workers[w].job], workers := s.workers[w := Idle])
    case Exit(w) => s.(workers := s.workers[w := Exited])
  }

  // ----- Runs ---------------------------------------------------------------------------------

  predicate Legal(s: State, acts: seq<Action>)
    decreases |acts|
  {
    acts == [] || (Enabled(s, acts[0]) && Legal(Next(s, acts[0]), acts[1..]))
  }

  function End(s: State, acts: seq<Action>): State
    requires Legal(s, acts)
    decreases |acts|
  {
    if acts == [] then s else End(Next(s, acts[0]), acts[1..])
  }

  lemma {:induction false} RunAppend(s: State, acts: seq<Action>, a: Action)
    requires Legal(s, acts) && Enabled(End(s, acts), a)
    ensures Legal(s, acts + [a]) && End(s, acts + [a]) == Next(End(s, acts), a)
    decreases |acts|
  {
    if acts == [] {
      assert acts + [a] == [a];
    } else {
      assert (acts + [a])[1..] == acts[1..] + [a];
      RunAppend(Next(s, acts[0]), acts[1..], a);
    }
  }

  // ----- Conservation and order ---------------------------------------------------------------

  function Events(jobs: seq<Job>): (es: seq<ClickEvent>)
    ensures |es| == |jobs|
  {
    seq(|jobs|, i requires 0 <= i < |jobs| => jobs[i].event)
  }

  /** Events in the hands of workers. */
  function Held(workers: seq<Worker>): multiset<ClickEvent> {
    if workers == [] then multiset{}
    else Held(workers[..|workers| - 1]) + InHand(workers[|workers| - 1])
  }

  function InHand(w: Worker): multiset<ClickEvent> {
    if w.Holds() then multiset{w.job.event} else multiset{}
  }

  lemma AddBoth<T>(a: multiset<T>, b: multiset<T>, c: multiset<T>, d: multiset<T>, e: multiset<T>)
    requires a + b == c + d
    ensures (a + e) + b == (c + e) + d
  {
    assert (a + e) + b == (a + b) + e == (c + d) + e;
  }

  lemma Cancel<T>(a: multiset<T>, b: multiset<T>, c: multiset<T>)
    requires a + c == b + c
    ensures a == b
  {
    assert a == (a + c) - c;
    assert b == (b + c) - c;
  }

  lemma {:induction false} HeldUpdate(ws: seq<Worker>, w: nat, x: Worker)
    requires w < |ws|
    ensures Held(ws[w := x]) + InHand(ws[w]) == Held(ws) + InHand(x)
  {
    hide InHand;
    var last := |ws| - 1;
    var init := ws[..last];
    if w == last {
      assert ws[w := x][..last] == init;
      assert Held(ws[w := x]) == Held(init) + InHand(x);
      assert Held(ws) == Held(init) + InHand(ws[w]);
    } else {
      assert ws[w := x][..last] == init[w := x];
      HeldUpdate(init, w, x);
      AddBoth(Held(init[w := x]), InHand(ws[w]), Held(init), InHand(x), InHand(ws[last]));
    }
  }

  lemma {:induction false} NothingHeld(ws: seq<Worker>)
    requires forall i | 0 <= i < |ws| :: !ws[i].Holds()
    ensures Held(ws) == multiset{}
  {
    if ws != [] {
      NothingHeld(ws[..|ws| - 1]);
    }
  }

  /** Every submitted event is in exactly one place, counted with multiplicity, and the counters count. */
  ghost predicate Conserved(s: State) {
    && multiset(s.submitted)
       == multiset(Events(s.finished)) + Held(s.workers) + multiset(Events(s.queue))
          + multiset(s.lost) + multiset(s.panicked)
    && s.processed == |s.finished|
    && s.dropped == |s.lost|
  }

  /** What was received, then what is queued, is the acceptance order; the buffer never overflows. */
  ghost predicate InOrder(s: State) {
    && Events(s.received + s.queue) == s.accepted
    && (forall i | 0 <= i < |s.received + s.queue| :: (s.received + s.queue)[i].ticket == i)
    && |s.queue| <= s.capacity
    && (s.panicked != [] ==> s.closed)
  }

  lemma EventsAppend(jobs: seq<Job>, job: Job)
    ensures Events(jobs + [job]) == Events(jobs) + [job.event]
  {
  }

  lemma EventsSplit(jobs: seq<Job>)
    requires jobs != []
    ensures multiset(Events(jobs)) == multiset{jobs[0].event} + multiset(Events(jobs[1..]))
  {
    assert Events(jobs) == [jobs[0].event] + Events(jobs[1..]);
  }

  lemma Joins<T>(f: multiset<T>, h: multiset<T>, q: multiset<T>, l: multiset<T>, p: multiset<T>, e: multiset<T>)
    ensures f + h + q + l + p + e == f + h + (q + e) + l + p
    ensures f + h + q + l + p + e == f + h + q + (l + e) + p
    ensures f + h + q + l + p + e == f + h + q + l + (p + e)
    ensures f + h + q + l + p + e == f + (h + e) + q + l + p
  {
  }

  lemma ConservedSubmit(s: State, a: Action)
    requires Conserved(s) && Enabled(s, a) && (a.Submit? || a.Close?)
    ensures Conserved(Next(s, a))
  {
    hide Held, Events;
    if a.Submit? {
      var t, e := Next(s, a), multiset{a.event};
      Joins(multiset(Events(s.finished)), Held(s.workers), multiset(Events(s.queue)),
            multiset(s.lost), multiset(s.panicked), e);
      assert multiset(t.submitted) == multiset(s.submitted) + e;
      if s.closed {
        assert multiset(t.panicked) == multiset(s.panicked) + e;
      } else if |s.queue| < s.capacity {
        EventsAppend(s.queue, Job(|s.accepted|, a.event));
        assert multiset(Events(t.queue)) == multiset(Events(s.queue)) + e;
      } else {
        assert multiset(t.lost) == multiset(s.lost) + e;
      }
    }
  }

  lemma HeldTakes(ws: seq<Worker>, w: nat, x: Worker)
    requires w < |ws| && !ws[w].Holds() && x.Holds()
    ensures Held(ws[w := x]) == Held(ws) + multiset{x.job.event}
  {
    HeldUpdate(ws, w, x);
    assert Held(ws[w := x]) + multiset{} == Held(ws[w := x]);
  }

  lemma PassOn<T>(f: multiset<T>, h: multiset<T>, q: multiset<T>, l: multiset<T>, p: multiset<T>, e: multiset<T>)
    ensures f + h + (e + q) + l + p == f + (h + e) + q + l + p
  {
  }

  lemma ConservedReceive(s: State, w: nat)
    requires Conserved(s) && Enabled(s, Receive(w))
    ensures Conserved(Next(s, Receive(w)))
  {
    hide Held, Events;
    HeldTakes(s.workers, w, Inserting(s.queue[0]));
    EventsSplit(s.queue);
    PassOn(multiset(Events(s.finished)), Held(s.workers), multiset(Events(s.queue[1..])),
           multiset(s.lost), multiset(s.panicked), multiset{s.queue[0].event});
  }

  lemma ConservedHandoff(s: State, e: ClickEvent, w: nat)
    requires Conserved(s) && Enabled(s, Handoff(e, w))
    ensures Conserved(Next(s, Handoff(e, w)))
  {
    hide Held, Events;
    HeldTakes(s.workers, w, Inserting(Job(|s.accepted|, e)));
    assert multiset(s.submitted + [e]) == multiset(s.submitted) + multiset{e};
    Joins(multiset(Events(s.finished)), Held(s.workers), multiset(Events(s.queue)),
          multiset(s.lost), multiset(s.panicked), multiset{e});
  }

  lemma CountMoves(s: State, w: nat)
    requires Enabled(s, Count(w))
    ensures Held(s.workers) == Held(Next(s, Count(w)).workers) + multiset{s.workers[w].job.event}
    ensures multiset(Events(Next(s, Count(w)).finished))
            == multiset(Events(s.finished)) + multiset{s.workers[w].job.event}
  {
    HeldUpdate(s.workers, w, Idle);
    EventsAppend(s.finished, s.workers[w].job);
  }

  lemma MoveOver<T>(f: multiset<T>, h: multiset<T>, q: multiset<T>, l: multiset<T>, p: multiset<T>, e: multiset<T>)
    ensures f + (h + e) + q + l + p == (f + e) + h + q + l + p
  {
  }

  lemma ConservedCount(s: State, w: nat)
    requires Conserved(s) && Enabled(s, Count(w))
    ensures Conserved(Next(s, Count(w)))
  {
    hide Held, Events;
    CountMoves(s, w);
    MoveOver(multiset(Events(s.finished)), Held(Next(s, Count(w)).workers), multiset(Events(s.queue)),
             multiset(s.lost), multiset(s.panicked), multiset{s.workers[w].job.event});
  }

  lemma ConservedWork(s: State, a: Action)
    requires Conserved(s) && Enabled(s, a) && (a.Insert? || a.Update? || a.Exit?)
    ensures Conserved(Next(s, a))
  {
    hide Held, Events;
    var t := Next(s, a);
    HeldUpdate(s.workers, a.w, t.workers[a.w]);
    Cancel(Held(t.workers), Held(s.workers), InHand(s.workers[a.w]));
  }

  lemma ConservedNext(s: State, a: Action)
    requires Conserved(s) && Enabled(s, a)
    ensures Conserved(Next(s, a))
  {
    hide Conserved, Next, Enabled;
    if a.Receive? {
      ConservedReceive(s, a.w);
    } else if a.Handoff? {
      ConservedHandoff(s, a.event, a.w);
    } else if a.Count? {
      ConservedCount(s, a.w);
    } else if a.IsWorker() {
      ConservedWork(s, a);
    } else {
      ConservedSubmit(s, a);
    }
  }

  lemma InOrderNext(s: State, a: Action)
    requires InOrder(s) && Enabled(s, a)
    ensures InOrder(Next(s, a))
  {
    var t := Next(s, a);
    if a.Submit? && !s.closed && |s.queue| < s.capacity {
      assert t.received + t.queue == (s.received + s.queue) + [Job(|s.accepted|, a.event)];
    } else if a.Handoff? {
      assert t.received + t.queue == (s.received + s.queue) + [Job(|s.accepted|, a.event)];
    } else if a.Receive? {
      assert t.received + t.queue == s.received + s.queue;
    }
  }

  /** An event submitted to an open channel joins the end of the queue, or is dropped exactly when the buffer is full. */
  lemma DroppedOnlyWhenFull(s: State, e: ClickEvent)
    requires InOrder(s)
    ensures var t, full := Next(s, Submit(e)), |s.queue| == s.capacity;
            && t.dropped == s.dropped + (if !s.closed && full then 1 else 0)
            && t.queue == s.queue + (if !s.closed && !full then [Job(|s.accepted|, e)] else [])
            && t.accepted == s.accepted + (if !s.closed && !full then [e] else [])
            && t.lost == s.lost + (if !s.closed && full then [e] else [])
            && t.panicked == s.panicked + (if s.closed then [e] else [])
            && t.workers == s.workers
  {
  }

  // ----- Every accepted event is attempted once -----------------------------------------------

  /** The repository calls made for one accepted event, in order. */
  function Trace(log: seq<Attempt>, ticket: nat): seq<Attempt> {
    if log == [] then []
    else
      var last := log[|log| - 1];
      Trace(log[..|log| - 1], ticket) + (if last.ticket == ticket then [last] else [])
  }

  lemma TraceAppend(log: seq<Attempt>, x: Attempt, ticket: nat)
    ensures Trace(log + [x], ticket) == Trace(log, ticket) + (if x.ticket == ticket then [x] else [])
  {
    assert (log + [x])[..|log|] == log;
  }

  predicate Inserted(trace: seq<Attempt>, e: ClickEvent) {
    |trace| >= 1 && trace[0].InsertClick? && trace[0].click == e
  }

  predicate Updated(trace: seq<Attempt>, e: ClickEvent) {
    |trace| == 2 && Inserted(trace, e) && trace[1].UpdateLastAccessed? && trace[1].urlId == e.urlId
  }

  /** What a worker that holds a job has done for it so far. */
  predicate Progress(w: Worker, trace: seq<Attempt>) {
    match w
    case Inserting(job) => trace == []
    case Updating(job) => |trace| == 1 && Inserted(trace, job.event)
    case Counting(job) => Updated(trace, job.event)
    case _ => true
  }

  ghost predicate HeldBy(s: State, ticket: nat, w: nat) {
    w < |s.workers| && s.workers[w].Holds() && s.workers[w].job.ticket == ticket
  }

  ghost predicate FinishedAt(s: State, ticket: nat, k: nat) {
    k < |s.finished| && s.finished[k].ticket == ticket
  }

  /** Each received event is in some worker's hands or finished. */
  ghost predicate Placed(s: State, ticket: nat) {
    (exists w: nat :: HeldBy(s, ticket, w)) || (exists k: nat :: FinishedAt(s, ticket, k))
  }

  ghost predicate InHands(s: State) {
    && (forall w: nat | w < |s.workers| && s.workers[w].Holds() ::
          && s.workers[w].job in s.received
          && Progress(s.workers[w], Trace(s.log, s.workers[w].job.ticket)))
    && (forall v: nat, w: nat | v < |s.workers| && w < |s.workers| && s.workers[v].Holds() && s.workers[w].Holds() ::
          v != w ==> s.workers[v].job.ticket != s.workers[w].job.ticket)
  }

  ghost predicate InLog(s: State) {
    && (forall k: nat | k < |s.finished| ::
          && s.finished[k] in s.received
          && Updated(Trace(s.log, s.finished[k].ticket), s.finished[k].event))
    && (forall k: nat, w: nat | k < |s.finished| && w < |s.workers| && s.workers[w].Holds() ::
          s.finished[k].ticket != s.workers[w].job.ticket)
    && (forall t: nat | t >= |s.received| :: Trace(s.log, t) == [])
  }

  ghost predicate Tracked(s: State) {
    && InHands(s)
    && InLog(s)
    && (forall t: nat | t < |s.received| :: Placed(s, t))
    && (forall w: nat | w < |s.workers| && s.workers[w].Exited? :: s.closed && s.queue == [])
    && (|s.workers| == 0 ==> s.received == [])
  }

  ghost predicate Inv(s: State) {
    Conserved(s) && InOrder(s) && Tracked(s)
  }

  lemma TicketBound(s: State, job: Job)
    requires InOrder(s) && job in s.received
    ensures job.ticket < |s.received| && s.received[job.ticket] == job
    ensures job.event == s.accepted[job.ticket]
  {
    var i: nat :| i < |s.received| && s.received[i] == job;
    assert (s.received + s.queue)[i] == job;
    assert Events(s.received + s.queue)[i] == job.event;
  }

  lemma KeepsPlace(s: State, a: Action, ticket: nat)
    requires Enabled(s, a) && Placed(s, ticket)
    ensures Placed(Next(s, a), ticket)
  {
    var t := Next(s, a);
    if w: nat :| HeldBy(s, ticket, w) {
      if a.Count? && w == a.w {
        assert FinishedAt(t, ticket, |s.finished|);
      } else {
        assert HeldBy(t, ticket, w);
      }
    } else {
      var k: nat :| FinishedAt(s, ticket, k);
      assert FinishedAt(t, ticket, k);
    }
  }

  lemma TakenIsNew(s: State, a: Action)
    requires InOrder(s) && Tracked(s) && Enabled(s, a)
    requires a.Receive? || a.Handoff?
    ensures Next(s, a).workers[a.w].job.ticket == |s.received|
    ensures forall w: nat | w < |s.workers| && s.workers[w].Holds() :: s.workers[w].job.ticket < |s.received|
    ensures forall k: nat | k < |s.finished| :: s.finished[k].ticket < |s.received|
  {
    if a.Receive? {
      assert (s.received + s.queue)[|s.received|] == s.queue[0];
    } else {
      assert |Events(s.received + s.queue)| == |s.received|;
    }
    forall w: nat | w < |s.workers| && s.workers[w].Holds() ensures s.workers[w].job.ticket < |s.received| {
      TicketBound(s, s.workers[w].job);
    }
    forall k: nat | k < |s.finished| ensures s.finished[k].ticket < |s.received| {
      TicketBound(s, s.finished[k]);
    }
  }

  lemma TrackedTake(s: State, a: Action)
    requires InOrder(s) && Tracked(s) && Enabled(s, a)
    requires a.Receive? || a.Handoff?
    ensures Tracked(Next(s, a))
  {
    var t := Next(s, a);
    TakenIsNew(s, a);
    assert t.received[|s.received|] == t.workers[a.w].job;
    forall i: nat | i < |t.received| ensures Placed(t, i) {
      if i == |s.received| {
        assert HeldBy(t, i, a.w);
      } else {
        KeepsPlace(s, a, i);
      }
    }
  }

  lemma TraceWork(s: State, a: Action)
    requires Enabled(s, a) && (a.Insert? || a.Update?)
    ensures var t, ticket := Next(s, a), s.workers[a.w].job.ticket;
            && (forall i: nat | i != ticket :: Trace(t.log, i) == Trace(s.log, i))
            && Trace(t.log, ticket) == Trace(s.log, ticket) + [t.log[|s.log|]]
  {
    var x := Next(s, a).log[|s.log|];
    forall i: nat ensures Trace(s.log + [x], i) == Trace(s.log, i) + (if i == x.ticket then [x] else []) {
      TraceAppend(s.log, x, i);
    }
  }

  lemma WorkInHands(s: State, a: Action)
    requires InOrder(s) && InHands(s) && Enabled(s, a) && (a.Insert? || a.Update?)
    ensures InHands(Next(s, a))
  {
    hide Trace;
    var t := Next(s, a);
    TraceWork(s, a);
    assert t.workers[a.w].Holds() && t.workers[a.w].job == s.workers[a.w].job;
    assert forall w: nat | w < |t.workers| && w != a.w :: t.workers[w] == s.workers[w];
  }

  lemma WorkInLog(s: State, a: Action)
    requires InOrder(s) && InHands(s) && InLog(s) && Enabled(s, a) && (a.Insert? || a.Update?)
    ensures InLog(Next(s, a))
  {
    var t := Next(s, a);
    TicketBound(s, s.workers[a.w].job);
    TraceWork(s, a);
    hide Trace, Updated, Progress;
    assert t.workers[a.w].Holds() && t.workers[a.w].job == s.workers[a.w].job;
    assert forall w: nat | w < |t.workers| && w != a.w :: t.workers[w] == s.workers[w];
  }

  lemma TrackedWork(s: State, a: Action)
    requires InOrder(s) && Tracked(s) && Enabled(s, a)
    requires a.Insert? || a.Update?
    ensures Tracked(Next(s, a))
  {
    hide InHands, InLog;
    var t := Next(s, a);
    WorkInHands(s, a);
    WorkInLog(s, a);
    forall i: nat | i < |t.received| ensures Placed(t, i) {
      KeepsPlace(s, a, i);
    }
  }

  lemma TrackedOther(s: State, a: Action)
    requires InOrder(s) && Tracked(s) && Enabled(s, a)
    requires a.Submit? || a.Close? || a.Exit?
    ensures Tracked(Next(s, a))
  {
    hide Trace, Progress, Updated;
    var t := Next(s, a);
    forall i: nat | i < |t.received| ensures Placed(t, i) {
      KeepsPlace(s, a, i);
    }
    hide Placed;
    assert forall w: nat | w < |t.workers| && t.workers[w].Holds() :: t.workers[w] == s.workers[w];
    assert InHands(t);
    assert InLog(t);
  }

  lemma TrackedCount(s: State, v: nat)
    requires InOrder(s) && Tracked(s) && Enabled(s, Count(v))
    ensures Tracked(Next(s, Count(v)))
  {
    hide Trace, Updated;
    var t := Next(s, Count(v));
    forall i: nat | i < |t.received| ensures Placed(t, i) {
      KeepsPlace(s, Count(v), i);
    }
    hide Placed;
    assert forall w: nat | w < |t.workers| && t.workers[w].Holds() :: w != v && t.workers[w] == s.workers[w];
    assert InHands(t);
    assert InLog(t);
  }

  lemma KeepsWorkers(s: State, a: Action)
    requires Enabled(s, a)
    ensures |Next(s, a).workers| == |s.workers|
  {
  }

  lemma InvNext(s: State, a: Action)
    requires Inv(s) && Enabled(s, a)
    ensures Inv(Next(s, a)) && |Next(s, a).workers| == |s.workers|
  {
    hide Conserved, InOrder, Tracked, Enabled, Next;
    KeepsWorkers(s, a);
    ConservedNext(s, a);
    InOrderNext(s, a);
    if a.Receive? || a.Handoff? {
      TrackedTake(s, a);
    } else if a.Insert? || a.Update? {
      TrackedWork(s, a);
    } else if a.Count? {
      TrackedCount(s, a.w);
    } else {
      TrackedOther(s, a);
    }
  }

  lemma InvInit(capacity: nat, numWorkers: nat)
    ensures Inv(Init(capacity, numWorkers))
  {
    NothingHeld(Init(capacity, numWorkers).workers);
  }

  lemma {:induction false} InvRun(s: State, acts: seq<Action>)
    requires Inv(s) && Legal(s, acts)
    ensures Inv(End(s, acts)) && |End(s, acts).workers| == |s.workers|
    decreases |acts|
  {
    if acts != [] {
      InvNext(s, acts[0]);
      InvRun(Next(s, acts[0]), acts[1..]);
    }
  }

  /** Conservation, order and capacity after any interleaving whatsoever, submissions after close included. */
  lemma Conservation(capacity: nat, numWorkers: nat, acts: seq<Action>)
    requires Legal(Init(capacity, numWorkers), acts)
    ensures var s := End(Init(capacity, numWorkers), acts);
            && Conserved(s)
            && |s.queue| <= capacity
            && (!s.closed ==> s.panicked == [])
            && Events(s.received) + Events(s.queue) == s.accepted
  {
    InvInit(capacity, numWorkers);
    InvRun(Init(capacity, numWorkers), acts);
    KeepsCapacity(Init(capacity, numWorkers), acts);
    AcceptanceOrder(End(Init(capacity, numWorkers), acts));
  }

  lemma AcceptanceOrder(s: State)
    requires InOrder(s)
    ensures Events(s.received) + Events(s.queue) == s.accepted
  {
    assert Events(s.received + s.queue) == Events(s.received) + Events(s.queue);
  }

  lemma {:induction false} KeepsCapacity(s: State, acts: seq<Action>)
    requires Legal(s, acts)
    ensures End(s, acts).capacity == s.capacity
    decreases |acts|
  {
    if acts != [] {
      KeepsCapacity(Next(s, acts[0]), acts[1..]);
    }
  }

  // ----- Shutdown -----------------------------------------------------------------------------

  /** The wait group has reached zero: the branch of Shutdown that does not time out. */
  predicate AllExited(s: State) {
    forall w | 0 <= w < |s.workers| :: s.workers[w].Exited?
  }

  predicate AttemptedOnce(s: State, t: nat)
    requires t < |s.accepted|
  {
    Updated(Trace(s.log, t), s.accepted[t])
  }

  /** Nothing is left queued, and every accepted event had one Insert and then one UpdateLastAccessed, errors or not. */
  predicate FullyDrained(s: State) {
    && s.queue == []
    && |s.finished| == s.processed
    && forall t: nat | t < |s.accepted| :: AttemptedOnce(s, t)
  }

  /**
   * Shutdown's done branch means a full drain exactly when there is a worker, or nothing was accepted: with no workers
   * the wait group is zero at once and the queue is abandoned.
   */
  lemma DoneMeansDrained(capacity: nat, numWorkers: nat, acts: seq<Action>)
    requires Legal(Init(capacity, numWorkers), acts)
    requires var s := End(Init(capacity, numWorkers), acts); s.closed && AllExited(s)
    ensures var s := End(Init(capacity, numWorkers), acts);
            FullyDrained(s) <==> numWorkers >= 1 || s.accepted == []
  {
    InvInit(capacity, numWorkers);
    InvRun(Init(capacity, numWorkers), acts);
    var s := End(Init(capacity, numWorkers), acts);
    if numWorkers >= 1 {
      assert s.workers[0].Exited?;
      DrainedWhenExited(s);
    } else if s.accepted != [] {
      assert s.received == [];
      assert |Events(s.received + s.queue)| == |s.queue|;
    }
  }

  lemma DrainedWhenExited(s: State)
    requires Inv(s) && s.queue == [] && AllExited(s)
    ensures FullyDrained(s)
  {
    assert s.received + s.queue == s.received;
    forall t: nat | t < |s.accepted| ensures AttemptedOnce(s, t) {
      assert t < |s.received|;
      assert Placed(s, t);
      var k: nat :| FinishedAt(s, t, k);
      TicketBound(s, s.finished[k]);
    }
  }

  // ----- Draining terminates ------------------------------------------------------------------

  function Rank(w: Worker): nat {
    match w
    case Exited => 0
    case Idle => 1
    case Counting(_) => 2
    case Updating(_) => 3
    case Inserting(_) => 4
  }

  function Ranks(ws: seq<Worker>): nat {
    if ws == [] then 0 else Ranks(ws[..|ws| - 1]) + Rank(ws[|ws| - 1])
  }

  /** Worker steps left before every worker has exited. */
  function StepsLeft(s: State): nat { 4 * |s.queue| + Ranks(s.workers) }

  lemma {:induction false} RanksUpdate(ws: seq<Worker>, w: nat, x: Worker)
    requires w < |ws|
    ensures Ranks(ws[w := x]) + Rank(ws[w]) == Ranks(ws) + Rank(x)
  {
    var last := |ws| - 1;
    if w == last {
      assert ws[w := x][..last] == ws[..last];
    } else {
      assert ws[w := x][..last] == ws[..last][w := x];
      RanksUpdate(ws[..last], w, x);
    }
  }

  lemma {:induction false} RanksZero(ws: seq<Worker>)
    ensures Ranks(ws) == 0 <==> forall w | 0 <= w < |ws| :: ws[w].Exited?
  {
    if ws != [] {
      RanksZero(ws[..|ws| - 1]);
      assert forall w | 0 <= w < |ws| - 1 :: ws[w] == ws[..|ws| - 1][w];
    }
  }

  /** After close, each worker step uses up exactly one of the steps left and nothing else changes their number. */
  lemma DrainStep(s: State, a: Action)
    requires s.closed && Enabled(s, a)
    ensures Next(s, a).closed
    ensures StepsLeft(s) == StepsLeft(Next(s, a)) + (if a.IsWorker() then 1 else 0)
  {
    if a.IsWorker() {
      RanksUpdate(s.workers, a.w, Next(s, a).workers[a.w]);
    }
  }

  function WorkerSteps(acts: seq<Action>): nat {
    if acts == [] then 0 else (if acts[0].IsWorker() then 1 else 0) + WorkerSteps(acts[1..])
  }

  lemma {:induction false} DrainRun(s: State, acts: seq<Action>)
    requires s.closed && Legal(s, acts)
    ensures End(s, acts).closed && WorkerSteps(acts) + StepsLeft(End(s, acts)) == StepsLeft(s)
    decreases |acts|
  {
    if acts != [] {
      DrainStep(s, acts[0]);
      DrainRun(Next(s, acts[0]), acts[1..]);
    }
  }

  predicate Stuck(s: State) {
    && (forall w: nat | w < |s.workers| :: !Enabled(s, Receive(w)) && !Enabled(s, Count(w)) && !Enabled(s, Exit(w)))
    && (forall w: nat, f: bool | w < |s.workers| :: !Enabled(s, Insert(w, f)) && !Enabled(s, Update(w, f)))
  }

  /**
   * From close on, at most StepsLeft worker steps are possible in any interleaving, the workers can always make one
   * until all have exited, and with a worker present they have all exited exactly after StepsLeft of them.
   */
  lemma DrainTerminates(capacity: nat, numWorkers: nat, before: seq<Action>, acts: seq<Action>)
    requires Legal(Init(capacity, numWorkers), before)
    requires var s := End(Init(capacity, numWorkers), before); s.closed && Legal(s, acts)
    ensures var s := End(Init(capacity, numWorkers), before);
            && WorkerSteps(acts) <= StepsLeft(s)
            && (Stuck(End(s, acts)) <==> AllExited(End(s, acts)))
            && (numWorkers >= 1 ==> (AllExited(End(s, acts)) <==> WorkerSteps(acts) == StepsLeft(s)))
  {
    InvInit(capacity, numWorkers);
    InvRun(Init(capacity, numWorkers), before);
    var s := End(Init(capacity, numWorkers), before);
    InvRun(s, acts);
    DrainRun(s, acts);
    var t := End(s, acts);
    RanksZero(t.workers);
    StuckWhenExited(t);
  }

  lemma StuckWhenExited(t: State)
    requires t.closed
    requires forall w: nat | w < |t.workers| && t.workers[w].Exited? :: t.queue == []
    ensures Stuck(t) <==> AllExited(t)
    ensures |t.workers| >= 1 && AllExited(t) ==> t.queue == []
  {
    if !AllExited(t) {
      var w: nat :| w < |t.workers| && !t.workers[w].Exited?;
      match t.workers[w]
      case Idle => assert Enabled(t, Receive(w)) || Enabled(t, Exit(w));
      case Inserting(_) => assert Enabled(t, Insert(w, false));
      case Updating(_) => assert Enabled(t, Update(w, false));
      case Counting(_) => assert Enabled(t, Count(w));
    } else if |t.workers| >= 1 {
      assert t.workers[0].Exited?;
    }
  }
}

/** The dispatcher object. Each method is one atomic section of the source, proved to be one step of the machine. */
module Dispatcher {
  import opened DispatcherMachine

  /** The repository calls a worker makes when it serves these jobs one after the other. */
  function Calls(jobs: seq<Job>, insertFails: nat -> bool, updateFails: nat -> bool): seq<Attempt> {
    if jobs == [] then []
    else
      Calls(jobs[..|jobs| - 1], insertFails, updateFails)
      + CallsFor(jobs[|jobs| - 1], insertFails, updateFails)
  }

  function CallsFor(job: Job, insertFails: nat -> bool, updateFails: nat -> bool): seq<Attempt> {
    [InsertClick(job.ticket, job.event, insertFails(job.ticket)),
     UpdateLastAccessed(job.ticket, job.event.urlId, updateFails(job.ticket))]
  }

  class Dispatcher {
    const bufferSize: nat
    const numWorkers: nat
    var events: seq<Job>
    var closed: bool
    var workers: seq<Worker>
    var processed: nat
    var dropped: nat
    // The calls that reached the repositories.
    var log: seq<Attempt>
    ghost var submitted: seq<ClickEvent>
    ghost var lost: seq<ClickEvent>
    ghost var panicked: seq<ClickEvent>
    ghost var received: seq<Job>
    ghost var finished: seq<Job>
    var accepted: seq<ClickEvent>

    ghost function View(): State
      reads this
    {
      State(bufferSize, events, closed, workers, processed, dropped,
            submitted, accepted, lost, panicked, received, finished, log)
    }

    constructor (numWorkers: nat, bufferSize: nat)
      ensures this.numWorkers == numWorkers && this.bufferSize == bufferSize
      ensures View() == Init(bufferSize, 0)
      ensures events == [] && !closed && workers == [] && processed == 0 && dropped == 0
    {
      this.bufferSize, this.numWorkers := bufferSize, numWorkers;
      events, closed, workers, processed, dropped, log, accepted := [], false, [], 0, 0, [], [];
      submitted, lost, panicked, received, finished := [], [], [], [], [];
    }

    /** Starts the workers; events submitted before that are kept. */
    method Run()
      requires workers == []
      modifies this`workers
      ensures View() == old(View()).(workers := Init(bufferSize, numWorkers).workers)
      ensures |workers| == numWorkers && forall w | 0 <= w < numWorkers :: workers[w].Idle?
    {
      for i := 0 to numWorkers
        invariant workers == seq(i, _ => Idle)
      {
        workers := workers + [Idle];
      }
    }

    /** A non-blocking send; false reports the panic of a send on a closed channel. */
    method Submit(event: ClickEvent) returns (sent: bool)
      modifies this
      ensures View() == Next(old(View()), Action.Submit(event))
      ensures sent == !old(closed)
      ensures processed == old(processed) && workers == old(workers) && closed == old(closed)
      ensures events == old(events) + (if !closed && |old(events)| < bufferSize then [Job(|old(accepted)|, event)] else [])
      ensures dropped == old(dropped) + (if !closed && |old(events)| >= bufferSize then 1 else 0)
    {
      submitted := submitted + [event];
      if closed {
        panicked := panicked + [event];
        return false;
      }
      if |events| < bufferSize {
        events := events + [Job(|accepted|, event)];
        accepted := accepted + [event];
      } else {
        dropped := dropped + 1;
        lost := lost + [event];
      }
      return true;
    }

    method CloseEvents()
      requires !closed
      modifies this`closed
      ensures View() == Next(old(View()), Close)
      ensures View() == old(View()).(closed := true)
    {
      closed := true;
    }

    method ReceiveEvent(w: nat) returns (job: Job)
      requires w < |workers| && workers[w].Idle? && events != []
      modifies this
      ensures View() == Next(old(View()), Receive(w))
      ensures job == old(events)[0] && workers == old(workers)[w := Inserting(job)]
    {
      job := events[0];
      events, workers, received := events[1..], workers[w := Inserting(job)], received + [job];
    }

    method InsertClickOf(w: nat, failed: bool)
      requires w < |workers| && workers[w].Inserting?
      modifies this
      ensures View() == Next(old(View()), Insert(w, failed))
    {
      var job := workers[w].job;
      log, workers := log + [InsertClick(job.ticket, job.event, failed)], workers[w := Updating(job)];
    }

    method UpdateAccessOf(w: nat, failed: bool)
      requires w < |workers| && workers[w].Updating?
      modifies this
      ensures View() == Next(old(View()), Update(w, failed))
    {
      var job := workers[w].job;
      log, workers := log + [UpdateLastAccessed(job.ticket, job.event.urlId, failed)], workers[w := Counting(job)];
    }

    method CountProcessed(w: nat)
      requires w < |workers| && workers[w].Counting?
      modifies this
      ensures View() == Next(old(View()), Count(w))
    {
      processed, finished, workers := processed + 1, finished + [workers[w].job], workers[w := Idle];
    }

    /** One pass through the body of the worker loop: receive, insert, update, count, whatever the calls return. */
    method Serve(w: nat, insertFails: bool, updateFails: bool)
      requires w < |workers| && workers[w].Idle? && events != []
      modifies this
      ensures View() == Served(old(View()), w, insertFails, updateFails)
    {
      var job := ReceiveEvent(w);
      InsertClickOf(w, insertFails);
      UpdateAccessOf(w, updateFails);
      CountProcessed(w);
    }

    /** A worker that runs alone after close: its loop drains the buffer, survives every error, then exits. */
    method Worker(w: nat, insertFails: nat -> bool, updateFails: nat -> bool) returns (ghost acts: seq<Action>)
      requires closed && w < |workers| && workers[w].Idle?
      modifies this
      ensures Legal(old(View()), acts) && View() == End(old(View()), acts)
      ensures events == [] && workers == old(workers)[w := Exited]
      ensures processed == old(processed) + |old(events)|
      ensures log == old(log) + Calls(old(events), insertFails, updateFails)
    {
      hide Next, Legal, End, Served, Calls, CallsFor;
      acts := [];
      ghost var s0, start, calls, n := View(), events, log, 0;
      NoCalls(s0, insertFails, updateFails);
      while events != []
        invariant closed && workers == old(workers)
        invariant Legal(s0, acts) && View() == End(s0, acts)
        invariant n <= |start| && events == start[n..]
        invariant processed == old(processed) + n
        invariant log == calls + Calls(start[..n], insertFails, updateFails)
        decreases |events|
      {
        var job := events[0];
        ghost var before := View();
        Serve(w, insertFails(job.ticket), updateFails(job.ticket));
        ServedEffect(before, w, insertFails(job.ticket), updateFails(job.ticket));
        ghost var more := ServeActions(w, insertFails(job.ticket), updateFails(job.ticket));
        RunJoin(s0, acts, more);
        acts := acts + more;
        CallsStep(start, n, insertFails, updateFails);
        n := n + 1;
      }
      assert start[..n] == start;
      RunAppend(s0, acts, Exit(w));
      acts := acts + [Exit(w)];
      ExitWorker(w);
    }

    method ExitWorker(w: nat)
      requires w < |workers| && workers[w].Idle? && closed && events == []
      modifies this`workers
      ensures View() == Next(old(View()), Exit(w)) && workers == old(workers)[w := Exited]
    {
      workers := workers[w := Exited];
    }
  }

  lemma NoCalls(s: State, insertFails: nat -> bool, updateFails: nat -> bool)
    ensures Legal(s, []) && End(s, []) == s && Calls([], insertFails, updateFails) == []
  {
  }

  lemma CallsStep(jobs: seq<Job>, n: nat, insertFails: nat -> bool, updateFails: nat -> bool)
    requires n < |jobs|
    ensures Calls(jobs[..n + 1], insertFails, updateFails)
            == Calls(jobs[..n], insertFails, updateFails)
               + [InsertClick(jobs[n].ticket, jobs[n].event, insertFails(jobs[n].ticket)),
                  UpdateLastAccessed(jobs[n].ticket, jobs[n].event.urlId, updateFails(jobs[n].ticket))]
  {
    assert jobs[..n + 1][..n] == jobs[..n];
  }

  function ServeActions(w: nat, insertFails: bool, updateFails: bool): seq<Action> {
    [Receive(w), Insert(w, insertFails), Update(w, updateFails), Count(w)]
  }

  predicate CanServe(s: State, w: nat) { w < |s.workers| && s.workers[w].Idle? && s.queue != [] }

  /** The four steps of one pass through the worker loop, one after the other. */
  function Served(s: State, w: nat, insertFails: bool, updateFails: bool): State
    requires CanServe(s, w)
  {
    Next(Next(Next(Next(s, Receive(w)), Insert(w, insertFails)), Update(w, updateFails)), Count(w))
  }

  lemma ServedEffect(s: State, w: nat, insertFails: bool, updateFails: bool)
    requires CanServe(s, w)
    ensures var t := Served(s, w, insertFails, updateFails);
            && t.queue == s.queue[1..] && t.workers == s.workers && t.closed == s.closed
            && t.processed == s.processed + 1
            && t.log == s.log + [InsertClick(s.queue[0].ticket, s.queue[0].event, insertFails),
                                 UpdateLastAccessed(s.queue[0].ticket, s.queue[0].event.urlId, updateFails)]
    ensures Legal(s, ServeActions(w, insertFails, updateFails))
    ensures End(s, ServeActions(w, insertFails, updateFails)) == Served(s, w, insertFails, updateFails)
  {
    var s1 := Next(s, Receive(w));
    var s2 := Next(s1, Insert(w, insertFails));
    var s3 := Next(s2, Update(w, updateFails));
    var s4 := Next(s3, Count(w));
    assert s4.workers == s.workers;
    FourSteps(s, s1, s2, s3, s4, ServeActions(w, insertFails, updateFails));
  }

  lemma FourSteps(s0: State, s1: State, s2: State, s3: State, s4: State, acts: seq<Action>)
    requires |acts| == 4
    requires Enabled(s0, acts[0]) && s1 == Next(s0, acts[0])
    requires Enabled(s1, acts[1]) && s2 == Next(s1, acts[1])
    requires Enabled(s2, acts[2]) && s3 == Next(s2, acts[2])
    requires Enabled(s3, acts[3]) && s4 == Next(s3, acts[3])
    ensures Legal(s0, acts) && End(s0, acts) == s4
  {
    hide Enabled, Next;
    RunPrepend(s3, acts[3..]);
    assert acts[3..] == [acts[3]] && acts[3..][1..] == [];
    RunPrepend(s2, acts[2..]);
    assert acts[2..][1..] == acts[3..];
    RunPrepend(s1, acts[1..]);
    assert acts[1..][1..] == acts[2..];
  }

  lemma RunPrepend(s: State, acts: seq<Action>)
    requires acts != [] && Enabled(s, acts[0])
    ensures Legal(Next(s, acts[0]), acts[1..]) ==>
              Legal(s, acts) && End(s, acts) == End(Next(s, acts[0]), acts[1..])
  {
  }

  lemma {:induction false} RunJoin(s: State, a: seq<Action>, b: seq<Action>)
    requires Legal(s, a) && Legal(End(s, a), b)
    ensures Legal(s, a + b) && End(s, a + b) == End(End(s, a), b)
    decreases |a|
  {
    if a == [] {
      assert a + b == b;
    } else {
      assert (a + b)[1..] == a[1..] + b;
      RunJoin(Next(s, a[0]), a[1..], b);
    }
  }
}
