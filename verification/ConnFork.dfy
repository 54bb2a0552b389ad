/**
  The fork-per-connection dispatcher as interleaved steps: accept loops, the
  goroutine and reaper of each connection, and the tarpit of denied ones, sharing
  one budget of handler slots and a separate budget of tarpit holds.
 */
module ConnFork {
  import opened Text

  type Id = nat

  /** An accept loop takes a slot before it accepts. */
  datatype LoopState = Idle | Accepting | Stopped

  datatype ConnState =
    | Gating    // the peer gate is being asked
    | Starting  // allowed; the handler is being started
    | Releasing // denied or not startable; the deferred release is due
    | Refused   // its slot has been given back without a handler
    | Started   // the handler runs; OnConnStart is due
    | Live      // OnConnStart was called; the reaper waits
    | Reaped    // the handler has exited; OnConnEnd is due
    | Ended     // OnConnEnd was called; the reaper's release is due
    | Finished  // its slot has been given back by the reaper

  datatype TarpitState = Pending | Held | Closed

  datatype Event = ConnStart(id: Id) | ConnEnd(id: Id) | Release(id: Id)

  /** maxConns == 0 is unlimited; maxTarpit is None when tarpitting is disabled. */
  datatype State = State(
    maxConns: nat,
    maxTarpit: Option<nat>,
    tokens: nat,
    tarpitTokens: nat,
    loops: map<Id, LoopState>,
    conns: map<Id, ConnState>,
    tarpits: map<Id, TarpitState>,
    log: seq<Event>)

  /** What a connection's goroutine or its reaper does next. */
  datatype Move =
    | GateAllows
    | GateDenies      // the socket goes to the tarpit
    | StartFails
    | GiveBack        // the deferred release
    | StartOk
    | ReportStart
    | HandlerExits
    | ReportEnd
    | ReaperGivesBack

  /** What a tarpit goroutine does next. */
  datatype Hold =
    | Skip   // no hold asked for, or none allowed
    | Take
    | Reject // the tarpit budget is full
    | Done

  datatype Step =
    | Acquire(id: Id)          // a loop takes a slot
    | Cancel(id: Id)           // a loop sees the shutdown while waiting for one
    | AcceptFails(id: Id)      // a loop gives its slot back and stops
    | Accept(id: Id, conn: Id) // a loop's slot passes to the connection accepted
    | Conn(id: Id, move: Move)
    | Tarpit(id: Id, hold: Hold)

  function From(m: Move): ConnState {
    match m
    case GateAllows => Gating
    case GateDenies => Gating
    case StartFails => Starting
    case GiveBack => Releasing
    case StartOk => Starting
    case ReportStart => Started
    case HandlerExits => Live
    case ReportEnd => Reaped
    case ReaperGivesBack => Ended
  }

  function To(m: Move): ConnState {
    match m
    case GateAllows => Starting
    case GateDenies => Releasing
    case StartFails => Releasing
    case GiveBack => Refused
    case StartOk => Started
    case ReportStart => Live
    case HandlerExits => Reaped
    case ReportEnd => Ended
    case ReaperGivesBack => Finished
  }

  predicate Gives(m: Move) {
    m.GiveBack? || m.ReaperGivesBack?
  }

  function EventsOf(c: Id, m: Move): seq<Event> {
    if m.ReportStart? then [ConnStart(c)]
    else if m.ReportEnd? then [ConnEnd(c)]
    else if Gives(m) then [Release(c)]
    else []
  }

  predicate Limited(s: State) {
    s.maxConns > 0
  }

  predicate At(s: State, c: Id, at: ConnState) {
    c in s.conns && s.conns[c] == at
  }

  predicate LoopAt(s: State, l: Id, at: LoopState) {
    l in s.loops && s.loops[l] == at
  }

  predicate TarpitAt(s: State, c: Id, at: TarpitState) {
    c in s.tarpits && s.tarpits[c] == at
  }

  /** A channel receive needs a token to receive, a send needs room. */
  predicate Enabled(s: State, e: Step) {
    match e
    case Acquire(l) => LoopAt(s, l, Idle) && (Limited(s) ==> s.tokens < s.maxConns)
    case Cancel(l) => LoopAt(s, l, Idle)
    case AcceptFails(l) => LoopAt(s, l, Accepting) && (Limited(s) ==> s.tokens > 0)
    case Accept(l, c) => LoopAt(s, l, Accepting) && c !in s.conns
    case Conn(c, m) => At(s, c, From(m)) && (Gives(m) && Limited(s) ==> s.tokens > 0)
    case Tarpit(c, Skip) => TarpitAt(s, c, Pending)
    case Tarpit(c, Take) => TarpitAt(s, c, Pending) && s.maxTarpit.Some? && s.tarpitTokens < s.maxTarpit.value
    case Tarpit(c, Reject) => TarpitAt(s, c, Pending) && s.maxTarpit.Some? && s.tarpitTokens >= s.maxTarpit.value
    case Tarpit(c, Done) => TarpitAt(s, c, Held) && s.tarpitTokens > 0
  }

  function Give(s: State): State
    requires Limited(s) ==> s.tokens > 0
  {
    if Limited(s) then s.(tokens := s.tokens - 1) else s
  }

  function After(s: State, e: Step): State
    requires Enabled(s, e)
  {
    match e
    case Acquire(l) => (if Limited(s) then s.(tokens := s.tokens + 1) else s).(loops := s.loops[l := Accepting])
    case Cancel(l) => s.(loops := s.loops[l := Stopped])
    case AcceptFails(l) => Give(s).(loops := s.loops[l := Stopped])
    case Accept(l, c) => s.(loops := s.loops[l := Idle], conns := s.conns[c := Gating])
    case Conn(c, m) =>
      (if Gives(m) then Give(s) else s).(
        conns := s.conns[c := To(m)],
        tarpits := if m.GateDenies? then s.tarpits[c := Pending] else s.tarpits,
        log := s.log + EventsOf(c, m))
    case Tarpit(c, Take) => s.(tarpits := s.tarpits[c := Held], tarpitTokens := s.tarpitTokens + 1)
    case Tarpit(c, Done) => s.(tarpits := s.tarpits[c := Closed], tarpitTokens := s.tarpitTokens - 1)
    case Tarpit(c, _) => s.(tarpits := s.tarpits[c := Closed])
  }

  // -------------------------------------------------------------- invariants

  predicate Holds(at: ConnState) {
    !at.Refused? && !at.Finished?
  }

  function Waiting(s: State): set<Id> {
    set l | l in s.loops && s.loops[l] == Accepting
  }

  function Holders(s: State): set<Id> {
    set c | c in s.conns && Holds(s.conns[c])
  }

  function Tarpitted(s: State): set<Id> {
    set c | c in s.tarpits && s.tarpits[c] == Held
  }

  /** Every slot in use is accounted for by one acceptor or one connection. */
  ghost predicate SlotsConserved(s: State) {
    Limited(s) ==> s.tokens == |Waiting(s)| + |Holders(s)| <= s.maxConns
  }

  /** Held connections are accounted for in the tarpit's own budget. */
  ghost predicate TarpitsConserved(s: State) {
    && s.tarpitTokens == |Tarpitted(s)|
    && (s.maxTarpit.Some? ==> s.tarpitTokens <= s.maxTarpit.value)
    && (s.maxTarpit.None? ==> s.tarpitTokens == 0)
    && forall c | c in s.tarpits :: c in s.conns && (s.conns[c].Releasing? || s.conns[c].Refused?)
  }

  function Times(s: State, e: Event): nat {
    multiset(s.log)[e]
  }

  function Once(b: bool): nat {
    if b then 1 else 0
  }

  /** What has been reported about a connection follows from where it is. */
  ghost predicate Reported(s: State, c: Id, at: ConnState) {
    && Times(s, ConnStart(c)) == Once(at.Live? || at.Reaped? || at.Ended? || at.Finished?)
    && Times(s, ConnEnd(c)) == Once(at.Ended? || at.Finished?)
    && Times(s, Release(c)) == Once(at.Refused? || at.Finished?)
  }

  ghost predicate Unreported(s: State, c: Id) {
    Times(s, ConnStart(c)) == 0 && Times(s, ConnEnd(c)) == 0 && Times(s, Release(c)) == 0
  }

  ghost predicate LogAgrees(s: State) {
    && (forall c | c in s.conns :: Reported(s, c, s.conns[c]))
    && (forall c: Id | c !in s.conns :: Unreported(s, c))
  }

  ghost predicate StartedBefore(log: seq<Event>, j: nat) {
    j < |log| && log[j].ConnEnd? ==> ConnStart(log[j].id) in log[..j]
  }

  /** Every end follows its own start. */
  ghost predicate EndsFollowStarts(log: seq<Event>) {
    forall j | 0 <= j < |log| :: StartedBefore(log, j)
  }

  ghost predicate Inv(s: State) {
    SlotsConserved(s) && TarpitsConserved(s) && LogAgrees(s) && EndsFollowStarts(s.log)
  }

  ghost predicate Init(s: State) {
    && s.tokens == 0 && s.tarpitTokens == 0 && s.conns == map[] && s.tarpits == map[] && s.log == []
    && forall l | l in s.loops :: s.loops[l] == Idle
  }

  // ------------------------------------------------------------ preservation

  lemma MoveHolder(s: State, t: State, c: Id, to: ConnState)
    requires t.conns == s.conns[c := to]
    ensures Holders(t) == if Holds(to) then Holders(s) + {c} else Holders(s) - {c}
  {
  }

  lemma MoveLoop(s: State, t: State, l: Id, to: LoopState)
    requires t.loops == s.loops[l := to]
    ensures Waiting(t) == if to == Accepting then Waiting(s) + {l} else Waiting(s) - {l}
  {
  }

  lemma MoveTarpit(s: State, t: State, c: Id, to: TarpitState)
    requires t.tarpits == s.tarpits[c := to]
    ensures Tarpitted(t) == if to == Held then Tarpitted(s) + {c} else Tarpitted(s) - {c}
  {
  }

  lemma LoopStepKeepsSlots(s: State, e: Step)
    requires SlotsConserved(s) && Enabled(s, e) && !e.Conn? && !e.Tarpit?
    ensures SlotsConserved(After(s, e))
  {
    var t := After(s, e);
    MoveLoop(s, t, e.id, t.loops[e.id]);
    if e.Accept? {
      MoveHolder(s, t, e.conn, Gating);
    } else {
      assert Holders(t) == Holders(s);
    }
  }

  /** A move takes its connection from the holders exactly when it gives the slot back. */
  lemma MoveHolders(s: State, c: Id, m: Move)
    requires Enabled(s, Conn(c, m))
    ensures c in Holders(s)
    ensures Holders(After(s, Conn(c, m))) == if Gives(m) then Holders(s) - {c} else Holders(s)
    ensures Waiting(After(s, Conn(c, m))) == Waiting(s)
  {
    MoveHolder(s, After(s, Conn(c, m)), c, To(m));
  }

  lemma OneFewer(ids: set<Id>, c: Id)
    requires c in ids
    ensures |ids - {c}| == |ids| - 1
  {
  }

  lemma ConnStepKeepsSlots(s: State, c: Id, m: Move)
    requires SlotsConserved(s) && Enabled(s, Conn(c, m))
    ensures SlotsConserved(After(s, Conn(c, m)))
  {
    MoveHolders(s, c, m);
    OneFewer(Holders(s), c);
  }

  lemma StepKeepsSlots(s: State, e: Step)
    requires SlotsConserved(s) && Enabled(s, e)
    ensures SlotsConserved(After(s, e))
  {
    if e.Conn? {
      ConnStepKeepsSlots(s, e.id, e.move);
    } else if e.Tarpit? {
      var t := After(s, e);
      assert Waiting(t) == Waiting(s) && Holders(t) == Holders(s);
    } else {
      LoopStepKeepsSlots(s, e);
    }
  }

  lemma TarpitStepKeepsTarpits(s: State, c: Id, h: Hold)
    requires TarpitsConserved(s) && Enabled(s, Tarpit(c, h))
    ensures TarpitsConserved(After(s, Tarpit(c, h)))
  {
    var t := After(s, Tarpit(c, h));
    MoveTarpit(s, t, c, t.tarpits[c]);
  }

  lemma ConnStepKeepsTarpits(s: State, c: Id, m: Move)
    requires TarpitsConserved(s) && Enabled(s, Conn(c, m))
    ensures TarpitsConserved(After(s, Conn(c, m)))
  {
    var t := After(s, Conn(c, m));
    if m.GateDenies? {
      MoveTarpit(s, t, c, Pending);
    } else {
      assert Tarpitted(t) == Tarpitted(s);
    }
  }

  lemma LoopStepKeepsTarpits(s: State, e: Step)
    requires TarpitsConserved(s) && Enabled(s, e) && !e.Conn? && !e.Tarpit?
    ensures TarpitsConserved(After(s, e))
  {
    assert Tarpitted(After(s, e)) == Tarpitted(s);
  }

  lemma StepKeepsTarpits(s: State, e: Step)
    requires TarpitsConserved(s) && Enabled(s, e)
    ensures TarpitsConserved(After(s, e))
  {
    if e.Tarpit? {
      TarpitStepKeepsTarpits(s, e.id, e.hold);
    } else if e.Conn? {
      ConnStepKeepsTarpits(s, e.id, e.move);
    } else {
      LoopStepKeepsTarpits(s, e);
    }
  }

  lemma AppendTimes(log: seq<Event>, e: Event, x: Event)
    ensures multiset(log + [e])[x] == multiset(log)[x] + Once(x == e)
  {
  }

  lemma NoEvent(log: seq<Event>)
    ensures log + [] == log
  {
  }

  /** How a move changes what has been reported about a connection. */
  lemma MoveTimes(log: seq<Event>, c: Id, m: Move, d: Id)
    ensures var log' := log + EventsOf(c, m);
      && multiset(log')[ConnStart(d)] == multiset(log)[ConnStart(d)] + Once(d == c && m.ReportStart?)
      && multiset(log')[ConnEnd(d)] == multiset(log)[ConnEnd(d)] + Once(d == c && m.ReportEnd?)
      && multiset(log')[Release(d)] == multiset(log)[Release(d)] + Once(d == c && Gives(m))
  {
    if EventsOf(c, m) == [] {
      NoEvent(log);
    } else {
      var x := EventsOf(c, m)[0];
      AppendTimes(log, x, ConnStart(d));
      AppendTimes(log, x, ConnEnd(d));
      AppendTimes(log, x, Release(d));
    }
  }

  lemma MoveReports(s: State, c: Id, m: Move, d: Id)
    requires LogAgrees(s) && Enabled(s, Conn(c, m))
    ensures var t := After(s, Conn(c, m));
      if d in t.conns then Reported(t, d, t.conns[d]) else Unreported(t, d)
  {
    MoveTimes(s.log, c, m, d);
    assert After(s, Conn(c, m)).log == s.log + EventsOf(c, m);
    if d == c {
      assert Reported(s, c, From(m));
    } else {
      assert if d in s.conns then Reported(s, d, s.conns[d]) else Unreported(s, d);
    }
  }

  lemma StepKeepsLog(s: State, e: Step)
    requires LogAgrees(s) && Enabled(s, e)
    ensures LogAgrees(After(s, e))
  {
    var t := After(s, e);
    if e.Conn? {
      forall d: Id ensures if d in t.conns then Reported(t, d, t.conns[d]) else Unreported(t, d) {
        MoveReports(s, e.id, e.move, d);
      }
    } else {
      forall d: Id ensures if d in t.conns then Reported(t, d, t.conns[d]) else Unreported(t, d) {
        assert if d in s.conns then Reported(s, d, s.conns[d]) else Unreported(s, d);
      }
    }
  }

  lemma StepKeepsOrder(s: State, e: Step)
    requires LogAgrees(s) && EndsFollowStarts(s.log) && Enabled(s, e)
    ensures EndsFollowStarts(After(s, e).log)
  {
    if e.Conn? && EventsOf(e.id, e.move) != [] {
      var log, log' := s.log, After(s, e).log;
      forall j | 0 <= j < |log'| ensures StartedBefore(log', j) {
        assert log'[..j] == log[..j];
        if j < |log| {
          assert StartedBefore(log, j);
        } else {
          assert log[..j] == log;
          assert e.move.ReportEnd? ==> Reported(s, e.id, Reaped);
          assert e.move.ReportEnd? ==> ConnStart(e.id) in multiset(log);
        }
      }
    } else {
      NoEvent(s.log);
    }
  }

  lemma StepKeepsInv(s: State, e: Step)
    requires Inv(s) && Enabled(s, e)
    ensures Inv(After(s, e))
    ensures s.log <= After(s, e).log
    ensures After(s, e).maxConns == s.maxConns && After(s, e).maxTarpit == s.maxTarpit
  {
    StepKeepsSlots(s, e);
    StepKeepsTarpits(s, e);
    StepKeepsLog(s, e);
    StepKeepsOrder(s, e);
  }

  // -------------------------------------------------------------------- runs

  predicate IsRun(s: State, steps: seq<Step>)
    decreases |steps|
  {
    steps != [] ==> Enabled(s, steps[0]) && IsRun(After(s, steps[0]), steps[1..])
  }

  function Final(s: State, steps: seq<Step>): State
    requires IsRun(s, steps)
    decreases |steps|
  {
    if steps == [] then s else Final(After(s, steps[0]), steps[1..])
  }

  lemma {:induction false} RunKeepsInv(s: State, steps: seq<Step>)
    requires Inv(s) && IsRun(s, steps)
    ensures Inv(Final(s, steps))
    ensures s.log <= Final(s, steps).log
    ensures Final(s, steps).maxConns == s.maxConns && Final(s, steps).maxTarpit == s.maxTarpit
    decreases |steps|
  {
    if steps != [] {
      StepKeepsInv(s, steps[0]);
      RunKeepsInv(After(s, steps[0]), steps[1..]);
    }
  }

  lemma RunHasInv(s: State, steps: seq<Step>)
    requires Init(s) && IsRun(s, steps)
    ensures Inv(Final(s, steps))
    ensures Final(s, steps).maxConns == s.maxConns && Final(s, steps).maxTarpit == s.maxTarpit
  {
    assert Waiting(s) == {} && Holders(s) == {} && Tarpitted(s) == {};
    RunKeepsInv(s, steps);
  }

  /**
    In every interleaving: the slots in use are those of the acceptors and
    connections that hold one and never exceed MaxConns; the connections held in
    the tarpit never exceed its budget; no slot is released twice, and one is
    released exactly for each connection that no longer holds it; and a handler's
    end is reported at most once, after its start.
   */
  lemma DispatcherIsSafe(s: State, steps: seq<Step>)
    requires Init(s) && IsRun(s, steps)
    ensures var t := Final(s, steps);
      && (s.maxConns > 0 ==> t.tokens == |Waiting(t)| + |Holders(t)| <= s.maxConns)
      && (s.maxTarpit.Some? ==> |Tarpitted(t)| <= s.maxTarpit.value)
      && (forall c | c in t.conns :: Times(t, Release(c)) == Once(!Holds(t.conns[c])))
      && (forall c: Id :: Times(t, Release(c)) <= 1 && Times(t, ConnEnd(c)) <= Times(t, ConnStart(c)) <= 1)
      && EndsFollowStarts(t.log)
  {
    RunHasInv(s, steps);
    var t := Final(s, steps);
    forall c: Id ensures Times(t, Release(c)) <= 1 && Times(t, ConnEnd(c)) <= Times(t, ConnStart(c)) <= 1 {
      assert if c in t.conns then Reported(t, c, t.conns[c]) else Unreported(t, c);
    }
  }

  /** No step that gives a slot back ever blocks: the token it takes out is always there. */
  lemma GivingBackNeverBlocks(s: State, steps: seq<Step>, c: Id)
    requires Init(s) && IsRun(s, steps)
    ensures var t := Final(s, steps);
      && (At(t, c, Releasing) ==> Enabled(t, Conn(c, GiveBack)))
      && (At(t, c, Ended) ==> Enabled(t, Conn(c, ReaperGivesBack)))
      && (LoopAt(t, c, Accepting) ==> Enabled(t, AcceptFails(c)))
      && (TarpitAt(t, c, Held) ==> Enabled(t, Tarpit(c, Done)))
  {
    RunHasInv(s, steps);
    HoldersHaveTokens(Final(s, steps), c);
  }

  lemma HoldersHaveTokens(t: State, c: Id)
    requires SlotsConserved(t) && TarpitsConserved(t)
    ensures At(t, c, Releasing) ==> Enabled(t, Conn(c, GiveBack))
    ensures At(t, c, Ended) ==> Enabled(t, Conn(c, ReaperGivesBack))
    ensures LoopAt(t, c, Accepting) ==> Enabled(t, AcceptFails(c))
    ensures TarpitAt(t, c, Held) ==> Enabled(t, Tarpit(c, Done))
  {
    assert At(t, c, Releasing) || At(t, c, Ended) ==> c in Holders(t);
    assert LoopAt(t, c, Accepting) ==> c in Waiting(t);
    assert TarpitAt(t, c, Held) ==> c in Tarpitted(t);
  }

  /** An idle acceptor is kept waiting exactly while every slot is in use. */
  lemma AcceptorWaitsIff(s: State, steps: seq<Step>, l: Id)
    requires Init(s) && IsRun(s, steps) && s.maxConns > 0 && LoopAt(Final(s, steps), l, Idle)
    ensures var t := Final(s, steps);
      Enabled(t, Acquire(l)) <==> |Waiting(t)| + |Holders(t)| < s.maxConns
  {
    RunHasInv(s, steps);
  }
}
