/**
  The life of each connection, acceptor and tarpit hold in a run of the dispatcher,
  read off the steps that were taken.
 */
module ConnLives {
  import opened Text
  import opened ConnFork

  const DENIED := [GateDenies, GiveBack]
  const UNSTARTED := [GateAllows, StartFails, GiveBack]
  const SERVED := [GateAllows, StartOk, ReportStart, HandlerExits, ReportEnd, ReaperGivesBack]

  /** As far as a connection can have come: denied, not startable, or served. */
  predicate Life(ms: seq<Move>) {
    ms <= DENIED || ms <= UNSTARTED || ms <= SERVED
  }

  /** As far as the hold of a denied connection can have come. */
  predicate HoldLife(hs: seq<Hold>) {
    hs <= [Skip] || hs <= [Reject] || hs <= [Take, Done]
  }

  /** The moves of one connection, in order. */
  function MovesOf(h: seq<Step>, c: Id): seq<Move> {
    if h == [] then []
    else
      var e, before := h[|h| - 1], MovesOf(h[..|h| - 1], c);
      if e.Conn? && e.id == c then before + [e.move] else before
  }

  function HoldsOf(h: seq<Step>, c: Id): seq<Hold> {
    if h == [] then []
    else
      var e, before := h[|h| - 1], HoldsOf(h[..|h| - 1], c);
      if e.Tarpit? && e.id == c then before + [e.hold] else before
  }

  /** The last step of an acceptor. */
  function LastOf(h: seq<Step>, l: Id): Option<Step> {
    if h == [] then None
    else
      var e := h[|h| - 1];
      if !e.Conn? && !e.Tarpit? && e.id == l then Some(e) else LastOf(h[..|h| - 1], l)
  }

  predicate Accepted(h: seq<Step>, c: Id) {
    exists i | 0 <= i < |h| :: h[i].Accept? && h[i].conn == c
  }

  lemma MovesSnoc(h: seq<Step>, e: Step, c: Id)
    ensures MovesOf(h + [e], c) == if e.Conn? && e.id == c then MovesOf(h, c) + [e.move] else MovesOf(h, c)
    ensures HoldsOf(h + [e], c) == if e.Tarpit? && e.id == c then HoldsOf(h, c) + [e.hold] else HoldsOf(h, c)
    ensures LastOf(h + [e], c) == if !e.Conn? && !e.Tarpit? && e.id == c then Some(e) else LastOf(h, c)
    ensures Accepted(h + [e], c) <==> Accepted(h, c) || (e.Accept? && e.conn == c)
  {
    var all := h + [e];
    assert all[..|all| - 1] == h && all[|h|] == e;
    assert forall i | 0 <= i < |h| :: all[i] == h[i];
  }

  lemma {:induction false} MoveIsStep(h: seq<Step>, c: Id, m: Move)
    ensures m in MovesOf(h, c) <==> Conn(c, m) in h
  {
    if h != [] {
      var n := |h| - 1;
      MoveIsStep(h[..n], c, m);
      assert h == h[..n] + [h[n]];
    }
  }

  // -------------------------------------------------------------- one step

  function Place(ms: seq<Move>): ConnState {
    if ms == [] then Gating else To(ms[|ms| - 1])
  }

  function HoldPlace(hs: seq<Hold>): TarpitState {
    if hs == [] then Pending else if hs[|hs| - 1].Take? then Held else Closed
  }

  function LoopPlace(last: Option<Step>): LoopState {
    if last.None? || last.value.Accept? then Idle
    else if last.value.Acquire? then Accepting
    else Stopped
  }

  lemma PrefixSnoc<T>(xs: seq<T>, x: T, whole: seq<T>)
    ensures xs + [x] <= whole <==> xs <= whole && |xs| < |whole| && whole[|xs|] == x
  {
    if xs + [x] <= whole {
      assert forall i | 0 <= i < |xs| :: (xs + [x])[i] == xs[i];
      assert (xs + [x])[|xs|] == x;
    }
  }

  lemma PrefixLast<T>(xs: seq<T>, whole: seq<T>)
    requires xs <= whole && xs != []
    ensures xs[|xs| - 1] == whole[|xs| - 1]
  {
  }

  /** Where a life stands follows from its branch and its length. */
  lemma PlaceByLength(ms: seq<Move>)
    requires Life(ms)
    ensures ms == [] ==> Place(ms) == Gating
    ensures ms <= DENIED && ms != [] ==> Place(ms) == [Releasing, Refused][|ms| - 1]
    ensures ms <= UNSTARTED && ms != [] ==> Place(ms) == [Starting, Releasing, Refused][|ms| - 1]
    ensures ms <= SERVED && ms != [] ==> Place(ms) == [Starting, Started, Live, Reaped, Ended, Finished][|ms| - 1]
  {
    if ms <= DENIED && ms != [] { PrefixLast(ms, DENIED); }
    if ms <= UNSTARTED && ms != [] { PrefixLast(ms, UNSTARTED); }
    if ms <= SERVED && ms != [] { PrefixLast(ms, SERVED); }
  }

  /** A life goes on with a move exactly when the connection is where the move starts. */
  lemma LifeGoesOn(ms: seq<Move>, m: Move)
    requires Life(ms)
    ensures Life(ms + [m]) <==> Place(ms) == From(m)
    ensures Place(ms + [m]) == To(m)
  {
    PlaceByLength(ms);
    PrefixSnoc(ms, m, DENIED);
    PrefixSnoc(ms, m, UNSTARTED);
    PrefixSnoc(ms, m, SERVED);
    assert ms != [] ==> ms <= DENIED || ms <= UNSTARTED || ms <= SERVED;
  }

  lemma HoldGoesOn(hs: seq<Hold>, h: Hold)
    requires HoldLife(hs)
    ensures HoldLife(hs + [h]) <==> HoldPlace(hs) == if h.Done? then Held else Pending
    ensures HoldPlace(hs + [h]) == if h.Take? then Held else Closed
  {
    PrefixSnoc(hs, h, [Skip]);
    PrefixSnoc(hs, h, [Reject]);
    PrefixSnoc(hs, h, [Take, Done]);
  }

  ghost predicate ConnTold(s: State, h: seq<Step>, c: Id) {
    && (c in s.conns <==> Accepted(h, c))
    && (if c in s.conns then Life(MovesOf(h, c)) && s.conns[c] == Place(MovesOf(h, c)) else MovesOf(h, c) == [])
    && (c in s.tarpits <==> GateDenies in MovesOf(h, c))
    && (if c in s.tarpits then HoldLife(HoldsOf(h, c)) && s.tarpits[c] == HoldPlace(HoldsOf(h, c)) else HoldsOf(h, c) == [])
  }

  ghost predicate LoopTold(s: State, h: seq<Step>, l: Id) {
    l in s.loops ==> s.loops[l] == LoopPlace(LastOf(h, l))
  }

  ghost predicate Told(s: State, h: seq<Step>) {
    forall c: Id :: ConnTold(s, h, c) && LoopTold(s, h, c)
  }

  lemma MoveTells(s: State, h: seq<Step>, c: Id, m: Move)
    requires ConnTold(s, h, c) && Enabled(s, Conn(c, m))
    ensures ConnTold(After(s, Conn(c, m)), h + [Conn(c, m)], c)
  {
    MovesSnoc(h, Conn(c, m), c);
    LifeGoesOn(MovesOf(h, c), m);
    var ms := MovesOf(h, c);
    assert GateDenies in ms + [m] <==> GateDenies in ms || m == GateDenies;
    DeniedOnce(ms, m);
  }

  /** The gate has answered once at most. */
  lemma DeniedOnce(ms: seq<Move>, m: Move)
    requires Life(ms) && From(m) == Place(ms)
    ensures m == GateDenies ==> ms == []
  {
    PlaceByLength(ms);
  }

  lemma HoldTells(s: State, h: seq<Step>, c: Id, hold: Hold)
    requires ConnTold(s, h, c) && Enabled(s, Tarpit(c, hold))
    ensures ConnTold(After(s, Tarpit(c, hold)), h + [Tarpit(c, hold)], c)
  {
    MovesSnoc(h, Tarpit(c, hold), c);
    HoldGoesOn(HoldsOf(h, c), hold);
  }

  lemma OtherTells(s: State, h: seq<Step>, e: Step, c: Id)
    requires ConnTold(s, h, c) && Enabled(s, e) && !(e.Conn? && e.id == c) && !(e.Tarpit? && e.id == c)
    ensures ConnTold(After(s, e), h + [e], c)
  {
    MovesSnoc(h, e, c);
  }

  lemma StepTellsConn(s: State, h: seq<Step>, e: Step, c: Id)
    requires ConnTold(s, h, c) && Enabled(s, e)
    ensures ConnTold(After(s, e), h + [e], c)
  {
    if e.Conn? && e.id == c {
      MoveTells(s, h, c, e.move);
    } else if e.Tarpit? && e.id == c {
      HoldTells(s, h, c, e.hold);
    } else {
      OtherTells(s, h, e, c);
    }
  }

  lemma StepTellsLoop(s: State, h: seq<Step>, e: Step, l: Id)
    requires LoopTold(s, h, l) && Enabled(s, e)
    ensures LoopTold(After(s, e), h + [e], l)
  {
    MovesSnoc(h, e, l);
  }

  // -------------------------------------------------------------------- runs

  lemma {:induction false} RunTells(s: State, h: seq<Step>, steps: seq<Step>)
    requires Told(s, h) && IsRun(s, steps)
    ensures Told(Final(s, steps), h + steps)
    decreases |steps|
  {
    if steps == [] {
      assert h + steps == h;
    } else {
      var e := steps[0];
      forall c: Id ensures ConnTold(After(s, e), h + [e], c) && LoopTold(After(s, e), h + [e], c) {
        StepTellsConn(s, h, e, c);
        StepTellsLoop(s, h, e, c);
      }
      RunTells(After(s, e), h + [e], steps[1..]);
      assert h + [e] + steps[1..] == h + steps;
    }
  }

  lemma RunIsTold(s: State, steps: seq<Step>)
    requires Init(s) && IsRun(s, steps)
    ensures Told(Final(s, steps), steps)
  {
    RunTells(s, [], steps);
    assert [] + steps == steps;
  }

  /**
    Every connection of every run is denied, found not startable, or served, in the
    order of its life, and its next move is possible exactly when that life goes on.
   */
  lemma ConnectionsLive(s: State, steps: seq<Step>, c: Id, m: Move)
    requires Init(s) && IsRun(s, steps)
    ensures Life(MovesOf(steps, c))
    ensures Enabled(Final(s, steps), Conn(c, m)) <==> Accepted(steps, c) && Life(MovesOf(steps, c) + [m])
  {
    var t := Final(s, steps);
    RunIsTold(s, steps);
    assert ConnTold(t, steps, c);
    LifeGoesOn(MovesOf(steps, c), m);
    GivingBackNeverBlocks(s, steps, c);
  }

  /** What is reported of a connection is what its moves report, and nothing else. */
  lemma ReportsFollowMoves(s: State, steps: seq<Step>, c: Id)
    requires Init(s) && IsRun(s, steps)
    ensures var t := Final(s, steps);
      && (ConnStart(c) in t.log <==> Conn(c, ReportStart) in steps)
      && (ConnEnd(c) in t.log <==> Conn(c, ReportEnd) in steps)
      && (Release(c) in t.log <==> Conn(c, GiveBack) in steps || Conn(c, ReaperGivesBack) in steps)
  {
    var t := Final(s, steps);
    RunIsTold(s, steps);
    RunHasInv(s, steps);
    assert ConnTold(t, steps, c);
    assert if c in t.conns then Reported(t, c, t.conns[c]) else Unreported(t, c);
    PlaceTells(MovesOf(steps, c));
    MoveIsStep(steps, c, ReportStart);
    MoveIsStep(steps, c, ReportEnd);
    MoveIsStep(steps, c, GiveBack);
    MoveIsStep(steps, c, ReaperGivesBack);
  }

  lemma PrefixHas(ms: seq<Move>, whole: seq<Move>, m: Move, k: nat)
    requires ms <= whole && k < |whole| && whole[k] == m
    requires forall j | 0 <= j < |whole| && j != k :: whole[j] != m
    ensures m in ms <==> k < |ms|
  {
    if k < |ms| {
      assert ms[k] == m;
    }
  }

  lemma PrefixLacks(ms: seq<Move>, whole: seq<Move>, m: Move)
    requires ms <= whole && m !in whole
    ensures m !in ms
  {
  }

  lemma PlaceTells(ms: seq<Move>)
    requires Life(ms)
    ensures var at := Place(ms);
      && (ReportStart in ms <==> at.Live? || at.Reaped? || at.Ended? || at.Finished?)
      && (ReportEnd in ms <==> at.Ended? || at.Finished?)
      && (GiveBack in ms || ReaperGivesBack in ms <==> at.Refused? || at.Finished?)
  {
    PlaceByLength(ms);
    if ms <= SERVED {
      PrefixHas(ms, SERVED, ReportStart, 2);
      PrefixHas(ms, SERVED, ReportEnd, 4);
      PrefixHas(ms, SERVED, ReaperGivesBack, 5);
      PrefixLacks(ms, SERVED, GiveBack);
    } else {
      RefusedTells(ms);
    }
  }

  lemma RefusedTells(ms: seq<Move>)
    requires ms <= DENIED || ms <= UNSTARTED
    ensures ReportStart !in ms && ReportEnd !in ms && ReaperGivesBack !in ms
    ensures GiveBack in ms <==> Place(ms).Refused?
    ensures !Place(ms).Finished? && !Place(ms).Live? && !Place(ms).Reaped? && !Place(ms).Ended?
  {
    PlaceByLength(ms);
    if ms <= DENIED {
      PrefixLacks(ms, DENIED, ReportStart);
      PrefixLacks(ms, DENIED, ReportEnd);
      PrefixLacks(ms, DENIED, ReaperGivesBack);
      PrefixHas(ms, DENIED, GiveBack, 1);
    } else {
      PrefixLacks(ms, UNSTARTED, ReportStart);
      PrefixLacks(ms, UNSTARTED, ReportEnd);
      PrefixLacks(ms, UNSTARTED, ReaperGivesBack);
      PrefixHas(ms, UNSTARTED, GiveBack, 2);
    }
  }

  /** A denied peer goes to the tarpit and never gets a handler; a handler is started only for an allowed one. */
  lemma DeniedIsNeverServed(s: State, steps: seq<Step>, c: Id)
    requires Init(s) && IsRun(s, steps)
    ensures var t := Final(s, steps);
      && (c in t.tarpits <==> Conn(c, GateDenies) in steps)
      && (Conn(c, GateDenies) in steps ==> ConnStart(c) !in t.log && (At(t, c, Releasing) || At(t, c, Refused)))
      && (ConnStart(c) in t.log ==> Conn(c, GateAllows) in steps && Conn(c, StartOk) in steps)
  {
    RunIsTold(s, steps);
    assert ConnTold(Final(s, steps), steps, c);
    ReportsFollowMoves(s, steps, c);
    MoveIsStep(steps, c, GateDenies);
    MoveIsStep(steps, c, GateAllows);
    MoveIsStep(steps, c, StartOk);
    MoveIsStep(steps, c, ReportStart);
    LifeBranches(MovesOf(steps, c));
  }

  lemma LifeBranches(ms: seq<Move>)
    requires Life(ms)
    ensures GateDenies in ms ==> ReportStart !in ms && (Place(ms).Releasing? || Place(ms).Refused?)
    ensures ReportStart in ms ==> GateAllows in ms && StartOk in ms
  {
    PlaceByLength(ms);
    if ms <= SERVED {
      PrefixLacks(ms, SERVED, GateDenies);
      PrefixHas(ms, SERVED, GateAllows, 0);
      PrefixHas(ms, SERVED, StartOk, 1);
      PrefixHas(ms, SERVED, ReportStart, 2);
    } else {
      RefusedTells(ms);
      if ms <= UNSTARTED {
        PrefixLacks(ms, UNSTARTED, GateDenies);
      }
    }
  }

  /** Right after the gate has let it in, a connection can be started. */
  lemma AllowedCanStart(s: State, before: seq<Step>, c: Id)
    requires Init(s) && IsRun(s, before + [Conn(c, GateAllows)])
    ensures Enabled(Final(s, before + [Conn(c, GateAllows)]), Conn(c, StartOk))
  {
    var steps := before + [Conn(c, GateAllows)];
    RunIsTold(s, steps);
    assert ConnTold(Final(s, steps), steps, c);
    MovesSnoc(before, Conn(c, GateAllows), c);
    LifeGoesOn(MovesOf(steps, c), StartOk);
    ConnectionsLive(s, steps, c, StartOk);
  }

  /**
    A denied connection is closed at once or held and then closed; it is held only with
    room in the budget, and turned away only without.
   */
  lemma HoldsLive(s: State, steps: seq<Step>, c: Id, h: Hold)
    requires Init(s) && IsRun(s, steps)
    ensures HoldLife(HoldsOf(steps, c))
    ensures var t := Final(s, steps);
      Enabled(t, Tarpit(c, h)) <==>
        && Conn(c, GateDenies) in steps
        && HoldLife(HoldsOf(steps, c) + [h])
        && (h.Take? ==> s.maxTarpit.Some? && |Tarpitted(t)| < s.maxTarpit.value)
        && (h.Reject? ==> s.maxTarpit.Some? && |Tarpitted(t)| >= s.maxTarpit.value)
  {
    var t := Final(s, steps);
    RunIsTold(s, steps);
    RunHasInv(s, steps);
    assert ConnTold(t, steps, c);
    MoveIsStep(steps, c, GateDenies);
    HoldGoesOn(HoldsOf(steps, c), h);
    GivingBackNeverBlocks(s, steps, c);
  }

  /**
    An acceptor accepts again after each connection it has handed on, until it is
    cancelled or its accept fails.
   */
  lemma AcceptorsLive(s: State, steps: seq<Step>, l: Id, c: Id)
    requires Init(s) && IsRun(s, steps) && l in s.loops
    ensures var t, last := Final(s, steps), LastOf(steps, l);
      && (Enabled(t, Acquire(l)) <==>
            (last.None? || last.value.Accept?) && (s.maxConns > 0 ==> |Waiting(t)| + |Holders(t)| < s.maxConns))
      && (Enabled(t, Cancel(l)) <==> last.None? || last.value.Accept?)
      && (Enabled(t, AcceptFails(l)) <==> last.Some? && last.value.Acquire?)
      && (Enabled(t, Accept(l, c)) <==> last.Some? && last.value.Acquire? && !Accepted(steps, c))
  {
    var t := Final(s, steps);
    RunIsTold(s, steps);
    RunHasInv(s, steps);
    LoopsKept(s, steps, l);
    assert LoopTold(t, steps, l) && ConnTold(t, steps, c);
    GivingBackNeverBlocks(s, steps, l);
  }

  lemma {:induction false} LoopsKept(s: State, steps: seq<Step>, l: Id)
    requires IsRun(s, steps) && l in s.loops
    ensures l in Final(s, steps).loops
    decreases |steps|
  {
    if steps != [] {
      LoopsKept(After(s, steps[0]), steps[1..], l);
    }
  }
}
