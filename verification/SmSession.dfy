/**
  The recovering session-manager client as interleaved steps: any number of
  concurrent reads and writes, the single-flight recovery they share, logins and
  closes at any time, and a server that answers as it likes but never issues the
  same token twice.
 */
module SmSession {
  import opened Text

  type Id = nat

  /** 0 is the empty token: not logged in. */
  type Token = nat

  datatype Kind = Read | Write

  datatype Outcome = Recovered | Fatal | Transient

  /** Where a call is; token is the one its last RPC failed with. */
  datatype Pc =
    | Begin
    | Rpc(token: Token)                      // a data RPC is in flight
    | Failed(token: Token, unauth: bool)     // it failed with a recoverable error
    | Reread(unauth: bool)                   // a read is about to retry with the current token
    | WaitLock(token: Token)                 // about to enter recovery
    | Checking(token: Token)                 // in recovery, from here to Unlocking
    | LoggingIn(token: Token)
    | Hooking(token: Token, issued: Token)    // the continuity hook is running
    | Committing(token: Token, issued: Token) // the hook has passed
    | Unlocking(token: Token, outcome: Outcome)
    | Done

  /** rpcs counts the data RPCs the call has sent; past holds the tokens it has recovered from. */
  datatype Call = Call(kind: Kind, pc: Pc, rpcs: nat, past: set<Token>)

  /**
    The session's fields, the server's token counter, the tokens issued to the
    client's own logins but not yet stored, and what has happened so far: the tokens
    the session has ever held, those whose hook failed, those data RPCs
    were sent with, and the tokens that a committed re-login replaced, in order.
   */
  datatype Core = Core(
    token: Token,
    cred: bool,
    lock: Option<Id>,
    next: Token,
    pending: set<Token>,
    ever: set<Token>,
    rejected: set<Token>,
    used: set<Token>,
    replaced: seq<Token>)

  datatype State = State(core: Core, calls: map<Id, Call>)

  datatype Act =
    | Start              // read the token and send the RPC, or return not-logged-in
    | RpcReturns         // success, or an error outside the trigger set
    | RpcFails(unauth: bool)
    | GiveUp             // the context or the deadline ends the wait
    | GoOn               // recover, or retry when the manager was only unavailable
    | Retry
    | Lock
    | Check
    | LoginRejected
    | LoginFails
    | LoginOk
    | HookFails
    | HookPasses
    | Commit
    | Unlock

  /** Issue is the server's answer to a client's own login, and Login stores it. */
  datatype Step = Issue | Login(token: Token, cred: bool) | Close | Spawn(id: Id, kind: Kind) | Do(id: Id, act: Act)

  // ------------------------------------------------------------------- steps

  /** The call's next state and the session's, when the action is possible there. */
  function Act1(k: Core, id: Id, c: Call, a: Act): Option<(Core, Call)> {
    match (a, c.pc)
    case (Start, Begin) => Some(SendOr(k, c, Done))
    case (RpcReturns, Rpc(t)) => Some((k, c.(pc := Done)))
    case (RpcFails(u), Rpc(t)) => Some((k, c.(pc := Failed(t, u))))
    case (GiveUp, Failed(t, u)) => Some((k, c.(pc := Done)))
    case (GoOn, Failed(t, u)) => Some((k, c.(pc := if c.kind.Write? || u then WaitLock(t) else Reread(u))))
    case (Retry, Reread(u)) => Some(SendOr(k, c, Failed(0, u)))
    case (Lock, WaitLock(t)) =>
      if k.lock.None? then Some((k.(lock := Some(id)), c.(pc := Checking(t)))) else None
    case (Check, Checking(t)) =>
      Some((k, c.(pc := if k.token != t then Unlocking(t, Recovered)
                        else if !k.cred then Unlocking(t, Fatal)
                        else LoggingIn(t))))
    case (LoginRejected, LoggingIn(t)) => Some((k.(token := 0, cred := false), c.(pc := Unlocking(t, Fatal))))
    case (LoginFails, LoggingIn(t)) => Some((k, c.(pc := Unlocking(t, Transient))))
    case (LoginOk, LoggingIn(t)) => Some((k.(next := k.next + 1), c.(pc := Hooking(t, k.next))))
    case (HookFails, Hooking(t, f)) => Some((k.(rejected := k.rejected + {f}), c.(pc := Unlocking(t, Fatal))))
    case (HookPasses, Hooking(t, f)) => Some((k, c.(pc := Committing(t, f))))
    case (Commit, Committing(t, f)) =>
      Some((k.(token := f, ever := k.ever + {f}, replaced := k.replaced + [t]), c.(pc := Unlocking(t, Recovered))))
    case (Unlock, Unlocking(t, o)) =>
      Some((k.(lock := None), c.(pc := AfterRecovery(c.kind, t, o), past := if o.Recovered? then c.past + {t} else c.past)))
    case _ => None
  }

  /** A data RPC with the current token, or another state when there is none. */
  function SendOr(k: Core, c: Call, otherwise: Pc): (Core, Call) {
    if k.token == 0 then (k, c.(pc := otherwise))
    else (k.(used := k.used + {k.token}), c.(pc := Rpc(k.token), rpcs := c.rpcs + 1))
  }

  /** A read retries unless recovery was refused; a write never does, but keeps trying to recover. */
  function AfterRecovery(kind: Kind, t: Token, o: Outcome): Pc {
    if o.Fatal? || (kind.Write? && o.Recovered?) then Done
    else if kind.Write? then Failed(t, true)
    else Reread(true)
  }

  predicate Enabled(s: State, e: Step) {
    match e
    case Issue => true
    case Login(f, _) => f in s.core.pending
    case Close => true
    case Spawn(id, _) => id !in s.calls
    case Do(id, a) => id in s.calls && Act1(s.core, id, s.calls[id], a).Some?
  }

  function After(s: State, e: Step): State
    requires Enabled(s, e)
  {
    match e
    case Issue => s.(core := s.core.(next := s.core.next + 1, pending := s.core.pending + {s.core.next}))
    case Login(f, cred) =>
      s.(core := s.core.(token := f, cred := cred, pending := s.core.pending - {f}, ever := s.core.ever + {f}))
    case Close => s.(core := s.core.(token := 0, cred := false))
    case Spawn(id, kind) => s.(calls := s.calls[id := Call(kind, Begin, 0, {})])
    case Do(id, a) =>
      var (k, c) := Act1(s.core, id, s.calls[id], a).value;
      State(k, s.calls[id := c])
  }

  // -------------------------------------------------------------- invariants

  predicate InRecovery(pc: Pc) {
    pc.Checking? || pc.LoggingIn? || pc.Hooking? || pc.Committing? || pc.Unlocking?
  }

  /** Between the check that the failed token is still current and the commit. */
  predicate Working(pc: Pc) {
    pc.LoggingIn? || pc.Hooking? || pc.Committing?
  }

  predicate NoRepeats(ts: seq<Token>) {
    forall i, j | 0 <= i < j < |ts| :: ts[i] != ts[j]
  }

  ghost predicate CoreOk(k: Core) {
    && k.next > 0
    && (k.token == 0 ==> !k.cred)
    && (k.token != 0 ==> k.token in k.ever && k.token !in k.replaced)
    && (forall t | t in k.ever :: 0 < t < k.next)
    && (forall t | t in k.rejected :: 0 < t < k.next)
    && (forall t | t in k.pending :: 0 < t < k.next && t !in k.ever && t !in k.rejected)
    && k.used <= k.ever && k.ever !! k.rejected
    && (forall i | 0 <= i < |k.replaced| :: k.replaced[i] in k.ever)
    && NoRepeats(k.replaced)
  }

  /** The session held t once and no longer does; such a token never comes back. */
  predicate Gone(k: Core, t: Token) {
    t == 0 || (t in k.ever && t != k.token)
  }

  predicate TokenFailed(pc: Pc) {
    pc.Failed? || pc.WaitLock? || pc.Checking? || pc.LoggingIn? || pc.Hooking? || pc.Committing? || pc.Unlocking?
  }

  ghost predicate CallOk(k: Core, id: Id, c: Call) {
    && (InRecovery(c.pc) <==> k.lock == Some(id))
    && (Working(c.pc) ==> c.pc.token in k.ever && c.pc.token !in k.replaced)
    && (c.pc.Hooking? || c.pc.Committing? ==>
          0 < c.pc.issued < k.next && c.pc.issued !in k.ever && c.pc.issued !in k.rejected && c.pc.issued !in k.pending)
    && (c.pc.Unlocking? && c.pc.outcome.Recovered? ==> Gone(k, c.pc.token))
    && (forall t | t in c.past :: Gone(k, t))
    && (c.pc.Rpc? ==> c.pc.token != 0 && c.pc.token in k.used && c.pc.token !in c.past)
    && (TokenFailed(c.pc) ==> c.pc.token == 0 || c.pc.token in k.used)
    && (c.kind.Write? ==> !c.pc.Reread? && c.rpcs <= Once(!c.pc.Begin?))
  }

  function Once(b: bool): nat {
    if b then 1 else 0
  }

  ghost predicate Inv(s: State) {
    CoreOk(s.core) && (s.core.lock.Some? ==> s.core.lock.value in s.calls) &&
    forall id | id in s.calls :: CallOk(s.core, id, s.calls[id])
  }

  ghost predicate Init(s: State) {
    s.core == Core(0, false, None, 1, {}, {}, {}, {}, []) && s.calls == map[]
  }

  lemma ActKeepsCore(k: Core, id: Id, c: Call, a: Act)
    requires CoreOk(k) && CallOk(k, id, c) && Act1(k, id, c, a).Some?
    ensures CoreOk(Act1(k, id, c, a).value.0)
  {
    if a.Commit? {
      AppendNoRepeats(k.replaced, c.pc.token);
    }
  }

  lemma AppendNoRepeats(ts: seq<Token>, t: Token)
    requires NoRepeats(ts) && t !in ts
    ensures NoRepeats(ts + [t])
  {
  }

  lemma ActKeepsCall(k: Core, id: Id, c: Call, a: Act)
    requires CoreOk(k) && CallOk(k, id, c) && Act1(k, id, c, a).Some?
    ensures CallOk(Act1(k, id, c, a).value.0, id, Act1(k, id, c, a).value.1)
  {
    if InRecovery(c.pc) {
      RecoveryKeepsCall(k, id, c, a);
    } else {
      RpcKeepsCall(k, id, c, a);
    }
  }

  lemma RecoveryKeepsCall(k: Core, id: Id, c: Call, a: Act)
    requires CoreOk(k) && CallOk(k, id, c) && Act1(k, id, c, a).Some? && InRecovery(c.pc)
    ensures CallOk(Act1(k, id, c, a).value.0, id, Act1(k, id, c, a).value.1)
  {
  }

  lemma RpcKeepsCall(k: Core, id: Id, c: Call, a: Act)
    requires CoreOk(k) && CallOk(k, id, c) && Act1(k, id, c, a).Some? && !InRecovery(c.pc)
    ensures CallOk(Act1(k, id, c, a).value.0, id, Act1(k, id, c, a).value.1)
  {
  }

  /** One call's step leaves every other call as it was. */
  lemma ActKeepsOthers(k: Core, id: Id, c: Call, a: Act, other: Id, d: Call)
    requires CoreOk(k) && CallOk(k, id, c) && CallOk(k, other, d) && other != id && Act1(k, id, c, a).Some?
    ensures CallOk(Act1(k, id, c, a).value.0, other, d)
  {
  }

  lemma StepKeepsInv(s: State, e: Step)
    requires Inv(s) && Enabled(s, e)
    ensures Inv(After(s, e))
  {
    match e {
      case Do(id, a) => DoKeepsInv(s, id, a);
      case Spawn(id, kind) => SpawnKeepsInv(s, id, kind);
      case Issue => OutsideKeepsInv(s, e);
      case Login(_, _) => OutsideKeepsInv(s, e);
      case Close => OutsideKeepsInv(s, e);
    }
  }

  /** A client's own login and a close disturb no call. */
  lemma OutsideKeepsInv(s: State, e: Step)
    requires Inv(s) && Enabled(s, e) && (e.Issue? || e.Login? || e.Close?)
    ensures Inv(After(s, e))
  {
    var t := After(s, e);
    forall x | x in t.calls ensures CallOk(t.core, x, t.calls[x]) {
      assert CallOk(s.core, x, s.calls[x]);
    }
  }

  lemma DoKeepsInv(s: State, id: Id, a: Act)
    requires Inv(s) && Enabled(s, Do(id, a))
    ensures Inv(After(s, Do(id, a)))
  {
    var t, c := After(s, Do(id, a)), s.calls[id];
    assert CallOk(s.core, id, c);
    ActKeepsCore(s.core, id, c, a);
    forall x | x in t.calls ensures CallOk(t.core, x, t.calls[x]) {
      if x == id {
        ActKeepsCall(s.core, id, c, a);
      } else {
        ActKeepsOthers(s.core, id, c, a, x, s.calls[x]);
      }
    }
  }

  lemma SpawnKeepsInv(s: State, id: Id, kind: Kind)
    requires Inv(s) && id !in s.calls
    ensures Inv(After(s, Spawn(id, kind)))
  {
  }

  // ------------------------------------------------------------------- runs

  predicate IsRun(s: State, steps: seq<Step>)
    decreases |steps|
  {
    steps != [] ==> Enabled(s, steps[0]) && IsRun(After(s, steps[0]), steps[1..])
  }

  function Final(s: State, steps: seq<Step>): State
    requires IsRun(s, steps)
    decreases |steps|
  {
    if steps == [] then s else Final(After(s, steps[0]), steps[1..])
  }

  lemma {:induction false} RunKeepsInv(s: State, steps: seq<Step>)
    requires Inv(s) && IsRun(s, steps)
    ensures Inv(Final(s, steps))
    decreases |steps|
  {
    if steps != [] {
      StepKeepsInv(s, steps[0]);
      RunKeepsInv(After(s, steps[0]), steps[1..]);
    }
  }

  /**
    In every interleaving: a token is replaced by at most one committed re-login
    and is never current afterwards; at most one call is in recovery; no data RPC
    was sent with a token whose continuity hook failed; a write has sent its RPC at
    most once; and a read never sends one with a token it has recovered from.
   */
  lemma RecoveryIsSafe(s: State, steps: seq<Step>)
    requires Init(s) && IsRun(s, steps)
    ensures var t := Final(s, steps);
      && NoRepeats(t.core.replaced) && t.core.token !in t.core.replaced
      && t.core.used !! t.core.rejected && t.core.token !in t.core.rejected
      && (forall a, b | a in t.calls && b in t.calls && InRecovery(t.calls[a].pc) && InRecovery(t.calls[b].pc) :: a == b)
      && (forall a | a in t.calls && t.calls[a].kind.Write? :: t.calls[a].rpcs <= 1)
      && (forall a | a in t.calls && t.calls[a].pc.Rpc? :: t.calls[a].pc.token !in t.calls[a].past)
  {
    RunKeepsInv(s, steps);
    var t := Final(s, steps);
    forall a | a in t.calls ensures CallOk(t.core, a, t.calls[a]) {
    }
    assert forall i | 0 <= i < |t.core.replaced| :: t.core.replaced[i] != 0;
  }

  /** A token the session no longer holds never becomes current again. */
  lemma {:induction false} GoneStaysGone(s: State, steps: seq<Step>, t: Token)
    requires Inv(s) && IsRun(s, steps) && t != 0 && Gone(s.core, t)
    ensures Gone(Final(s, steps).core, t)
    decreases |steps|
  {
    if steps != [] {
      StepKeepsInv(s, steps[0]);
      GoneStepStaysGone(s, steps[0], t);
      GoneStaysGone(After(s, steps[0]), steps[1..], t);
    }
  }

  lemma GoneStepStaysGone(s: State, e: Step, t: Token)
    requires Inv(s) && Enabled(s, e) && t != 0 && Gone(s.core, t)
    ensures Gone(After(s, e).core, t)
  {
    if e.Do? {
      assert CallOk(s.core, e.id, s.calls[e.id]);
    }
  }

  // --------------------------------------------------- what a nil return means

  /** The step leaves the session with a token or without one; most steps do neither. */
  function Sets(e: Step): Option<bool> {
    if e.Login? || (e.Do? && e.act.Commit?) then Some(true)
    else if e.Close? || (e.Do? && e.act.LoginRejected?) then Some(false)
    else None
  }

  predicate SetsNothing(steps: seq<Step>) {
    forall i | 0 <= i < |steps| :: Sets(steps[i]).None?
  }

  /** The last step that stored or dropped a token stored one. */
  predicate EndsLoggedIn(steps: seq<Step>) {
    exists i :: 0 <= i < |steps| && Sets(steps[i]) == Some(true) && SetsNothing(steps[i + 1..])
  }

  lemma StepSets(s: State, e: Step)
    requires Inv(s) && Enabled(s, e)
    ensures After(s, e).core.token != 0 <==> if Sets(e).Some? then Sets(e).value else s.core.token != 0
  {
    if e.Do? {
      assert CallOk(s.core, e.id, s.calls[e.id]);
    }
  }

  lemma {:induction false} HoldsTokenFrom(s: State, steps: seq<Step>)
    requires Inv(s) && IsRun(s, steps)
    ensures Final(s, steps).core.token != 0 <==> EndsLoggedIn(steps) || (s.core.token != 0 && SetsNothing(steps))
    decreases |steps|
  {
    if steps != [] {
      StepKeepsInv(s, steps[0]);
      StepSets(s, steps[0]);
      HoldsTokenFrom(After(s, steps[0]), steps[1..]);
      LastOfLonger(steps);
    }
  }

  lemma LastOfLonger(steps: seq<Step>)
    requires steps != []
    ensures SetsNothing(steps) <==> Sets(steps[0]).None? && SetsNothing(steps[1..])
    ensures EndsLoggedIn(steps) <==> EndsLoggedIn(steps[1..]) || (Sets(steps[0]) == Some(true) && SetsNothing(steps[1..]))
  {
    var rest := steps[1..];
    forall i | 0 <= i < |rest| ensures steps[i + 1] == rest[i] && steps[i + 2..] == rest[i + 1..] {
    }
    if EndsLoggedIn(rest) {
      var i :| 0 <= i < |rest| && Sets(rest[i]) == Some(true) && SetsNothing(rest[i + 1..]);
      assert Sets(steps[i + 1]) == Some(true) && SetsNothing(steps[i + 1 + 1..]);
    }
    if EndsLoggedIn(steps) {
      var i :| 0 <= i < |steps| && Sets(steps[i]) == Some(true) && SetsNothing(steps[i + 1..]);
      assert i > 0 ==> Sets(rest[i - 1]) == Some(true) && SetsNothing(rest[i - 1 + 1..]);
    }
    if SetsNothing(steps) {
      forall i | 0 <= i < |rest| ensures Sets(rest[i]).None? {
        assert rest[i] == steps[i + 1];
      }
    }
    if Sets(steps[0]).None? && SetsNothing(rest) {
      forall i | 0 <= i < |steps| ensures Sets(steps[i]).None? {
        assert i > 0 ==> steps[i] == rest[i - 1];
      }
    }
  }

  /**
    Over every run, the session holds a token if, and only if, the last login, commit,
    close or refused re-login was a login or a commit.
   */
  lemma HoldsTokenIff(s: State, steps: seq<Step>)
    requires Init(s) && IsRun(s, steps)
    ensures Final(s, steps).core.token != 0 <==> EndsLoggedIn(steps)
  {
    HoldsTokenFrom(s, steps);
  }

  /**
    What a nil return from recover does mean: the token that failed is no longer the
    session's. The session holds another one, never replaced so far, if, and only if,
    no close and no refused re-login came after the last login or commit.
   */
  lemma RecoveredHoldsTokenIff(s: State, steps: seq<Step>, id: Id, t: Token)
    requires Init(s) && IsRun(s, steps)
    requires id in Final(s, steps).calls && Final(s, steps).calls[id].pc == Unlocking(t, Recovered)
    ensures var k := Final(s, steps).core;
      && (t != 0 ==> k.token != t)
      && (k.token != 0 <==> EndsLoggedIn(steps))
      && (k.token != 0 ==> k.token in k.ever && k.token !in k.replaced && k.token !in k.rejected)
  {
    RunKeepsInv(s, steps);
    HoldsTokenIff(s, steps);
    assert CallOk(Final(s, steps).core, id, Final(s, steps).calls[id]);
  }

  /** A run and one more step. */
  lemma {:induction false} RunOneMore(s: State, steps: seq<Step>, e: Step)
    requires IsRun(s, steps) && Enabled(Final(s, steps), e)
    ensures IsRun(s, steps + [e]) && Final(s, steps + [e]) == After(Final(s, steps), e)
    decreases |steps|
  {
    var longer := steps + [e];
    if steps == [] {
      assert longer[1..] == [];
    } else {
      assert longer[0] == steps[0] && longer[1..] == steps[1..] + [e];
      RunOneMore(After(s, steps[0]), steps[1..], e);
    }
  }

  /** The run takes s to t. */
  predicate Reaches(s: State, steps: seq<Step>, t: State) {
    IsRun(s, steps) && Final(s, steps) == t
  }

  lemma ReachesOneMore(s: State, steps: seq<Step>, t: State, e: Step)
    requires Reaches(s, steps, t) && Enabled(t, e)
    ensures Reaches(s, steps + [e], After(t, e))
  {
    RunOneMore(s, steps, e);
  }

  /** Two calls of a session that logged in once and holds the token it got. */
  function Two(a: Id, b: Id, p: Kind, q: Kind, first: Pc, second: Pc, lock: Option<Id>): State {
    State(Core(1, true, lock, 2, {}, {1}, {}, if first.Begin? && second.Begin? then {} else {1}, []),
          map[a := Call(p, first, if first.Begin? then 0 else 1, {}), b := Call(q, second, if second.Begin? then 0 else 1, {})])
  }

  /** A login, and two calls. */
  function Opening(a: Id, b: Id, p: Kind, q: Kind): seq<Step> {
    [Issue] + [Login(1, true)] + [Spawn(a, p)] + [Spawn(b, q)]
  }

  lemma OpeningReaches(s: State, a: Id, b: Id, p: Kind, q: Kind)
    requires Init(s) && a != b
    ensures Reaches(s, Opening(a, b, p, q), Two(a, b, p, q, Begin, Begin, None))
  {
    var s1 := After(s, Issue);
    var s2 := After(s1, Login(1, true));
    assert s2.core == Core(1, true, None, 2, {}, {1}, {}, {}, []);
    var s3 := After(s2, Spawn(a, p));
    FourSteps(s, Issue, s1, Login(1, true), s2, Spawn(a, p), s3, Spawn(b, q), Two(a, b, p, q, Begin, Begin, None));
  }

  lemma FourSteps(s: State, e1: Step, s1: State, e2: Step, s2: State, e3: Step, s3: State, e4: Step, s4: State)
    requires Leads(s, e1, s1) && Leads(s1, e2, s2) && Leads(s2, e3, s3) && Leads(s3, e4, s4)
    ensures Reaches(s, [e1] + [e2] + [e3] + [e4], s4)
  {
    assert Reaches(s, [], s) && [] + [e1] == [e1];
    ReachesOneMore(s, [], s, e1);
    ReachesOneMore(s, [e1], s1, e2);
    ReachesOneMore(s, [e1] + [e2], s2, e3);
    ReachesOneMore(s, [e1] + [e2] + [e3], s3, e4);
  }

  predicate Leads(s: State, e: Step, t: State) {
    Enabled(s, e) && After(s, e) == t
  }

  /** A step of the first call that leaves the session's fields alone but for the lock and the tokens used. */
  lemma FirstLeads(a: Id, b: Id, p: Kind, q: Kind, first: Pc, second: Pc, lock: Option<Id>, act: Act, later: Pc, lock': Option<Id>)
    requires a != b
    requires var s, t := Two(a, b, p, q, first, second, lock), Two(a, b, p, q, later, second, lock');
      Act1(s.core, a, s.calls[a], act) == Some((t.core, t.calls[a]))
    ensures Leads(Two(a, b, p, q, first, second, lock), Do(a, act), Two(a, b, p, q, later, second, lock'))
  {
  }

  lemma SecondLeads(a: Id, b: Id, p: Kind, q: Kind, first: Pc, second: Pc, lock: Option<Id>, act: Act, later: Pc)
    requires a != b
    requires var s, t := Two(a, b, p, q, first, second, lock), Two(a, b, p, q, first, later, lock);
      Act1(s.core, b, s.calls[b], act) == Some((t.core, t.calls[b]))
    ensures Leads(Two(a, b, p, q, first, second, lock), Do(b, act), Two(a, b, p, q, first, later, lock))
  {
  }

  /** Both RPCs are sent and fail for want of a session. */
  function Failing(a: Id, b: Id): seq<Step> {
    [Do(a, Start)] + [Do(b, Start)] + [Do(a, RpcFails(true))] + [Do(b, RpcFails(true))]
  }

  lemma FailingReaches(a: Id, b: Id, p: Kind, q: Kind)
    requires a != b
    ensures Reaches(Two(a, b, p, q, Begin, Begin, None), Failing(a, b), Two(a, b, p, q, Failed(1, true), Failed(1, true), None))
  {
    var f := Failed(1, true);
    var k0, k1 := Two(a, b, p, q, Begin, Begin, None).core, Two(a, b, p, q, Rpc(1), Begin, None).core;
    assert k0.used + {k0.token} == {1} && k1.used + {k1.token} == {1};
    FirstLeads(a, b, p, q, Begin, Begin, None, Start, Rpc(1), None);
    SecondLeads(a, b, p, q, Rpc(1), Begin, None, Start, Rpc(1));
    FirstLeads(a, b, p, q, Rpc(1), Rpc(1), None, RpcFails(true), f, None);
    SecondLeads(a, b, p, q, f, Rpc(1), None, RpcFails(true), f);
    FourSteps(Two(a, b, p, q, Begin, Begin, None), Do(a, Start), Two(a, b, p, q, Rpc(1), Begin, None),
              Do(b, Start), Two(a, b, p, q, Rpc(1), Rpc(1), None), Do(a, RpcFails(true)), Two(a, b, p, q, f, Rpc(1), None),
              Do(b, RpcFails(true)), Two(a, b, p, q, f, f, None));
  }

  /** Both calls go to recover, and the first one to log in again. */
  function Recovering(a: Id, b: Id): seq<Step> {
    [Do(a, GoOn)] + [Do(b, GoOn)] + [Do(a, Act.Lock)] + [Do(a, Check)]
  }

  lemma RecoveringReaches(a: Id, b: Id, p: Kind, q: Kind)
    requires a != b
    ensures Reaches(Two(a, b, p, q, Failed(1, true), Failed(1, true), None), Recovering(a, b),
                    Two(a, b, p, q, LoggingIn(1), WaitLock(1), Some(a)))
  {
    var f, w := Failed(1, true), WaitLock(1);
    FirstLeads(a, b, p, q, f, f, None, GoOn, w, None);
    SecondLeads(a, b, p, q, w, f, None, GoOn, w);
    FirstLeads(a, b, p, q, w, w, None, Act.Lock, Checking(1), Some(a));
    FirstLeads(a, b, p, q, Checking(1), w, Some(a), Check, LoggingIn(1), Some(a));
    FourSteps(Two(a, b, p, q, f, f, None), Do(a, GoOn), Two(a, b, p, q, w, f, None), Do(b, GoOn), Two(a, b, p, q, w, w, None),
              Do(a, Act.Lock), Two(a, b, p, q, Checking(1), w, Some(a)), Do(a, Check), Two(a, b, p, q, LoggingIn(1), w, Some(a)));
  }

  /** The re-login is refused, and the other call gets its turn. */
  function Refused(a: Id, b: Id): seq<Step> {
    [Do(a, LoginRejected)] + [Do(a, Unlock)] + [Do(b, Act.Lock)] + [Do(b, Check)]
  }

  lemma RefusedReports(s: State, a: Id, b: Id, t: Token)
    requires a != b && a in s.calls && b in s.calls && t != 0
    requires s.calls[a].pc == LoggingIn(t) && s.calls[b].pc == WaitLock(t)
    ensures IsRun(s, Refused(a, b)) && ToldWithoutToken(Final(s, Refused(a, b)), b, t)
  {
    var s1 := After(s, Do(a, LoginRejected));
    var s2 := After(s1, Do(a, Unlock));
    var s3 := After(s2, Do(b, Act.Lock));
    FourSteps(s, Do(a, LoginRejected), s1, Do(a, Unlock), s2, Do(b, Act.Lock), s3, Do(b, Check), After(s3, Do(b, Check)));
  }

  /** The call's recovery is about to return nil while the session holds no token. */
  predicate ToldWithoutToken(s: State, id: Id, t: Token) {
    id in s.calls && s.calls[id].pc == Unlocking(t, Recovered) && s.core.token == 0
  }

  lemma {:induction false} ReachesThen(s: State, xs: seq<Step>, t: State, ys: seq<Step>)
    requires Reaches(s, xs, t) && IsRun(t, ys)
    ensures IsRun(s, xs + ys) && Final(s, xs + ys) == Final(t, ys)
    decreases |xs|
  {
    if xs == [] {
      assert xs + ys == ys;
    } else {
      assert (xs + ys)[0] == xs[0] && (xs + ys)[1..] == xs[1..] + ys;
      ReachesThen(After(s, xs[0]), xs[1..], t, ys);
    }
  }

  /**
    From the start, with any two calls, reads or writes: when a second call waits with
    the token that a re-login is being refused for, the Close of the first makes the
    second's check see a changed token, and recover returns nil with no session.
   */
  lemma RecoveredWithoutToken(s: State, a: Id, b: Id, p: Kind, q: Kind)
    requires Init(s) && a != b
    ensures var steps := Opening(a, b, p, q) + (Failing(a, b) + (Recovering(a, b) + Refused(a, b)));
      IsRun(s, steps) && ToldWithoutToken(Final(s, steps), b, 1) && !EndsLoggedIn(steps)
  {
    var s1 := Two(a, b, p, q, Begin, Begin, None);
    var s2 := Two(a, b, p, q, Failed(1, true), Failed(1, true), None);
    var s3 := Two(a, b, p, q, LoggingIn(1), WaitLock(1), Some(a));
    RefusedReports(s3, a, b, 1);
    RecoveringReaches(a, b, p, q);
    ReachesThen(s2, Recovering(a, b), s3, Refused(a, b));
    FailingReaches(a, b, p, q);
    ReachesThen(s1, Failing(a, b), s2, Recovering(a, b) + Refused(a, b));
    OpeningReaches(s, a, b, p, q);
    ReachesThen(s, Opening(a, b, p, q), s1, Failing(a, b) + (Recovering(a, b) + Refused(a, b)));
    HoldsTokenIff(s, Opening(a, b, p, q) + (Failing(a, b) + (Recovering(a, b) + Refused(a, b))));
  }

  // ------------------------------------------------- how a recovery ends a call

  predicate LeavesAlone(steps: seq<Step>, id: Id) {
    forall i | 0 <= i < |steps| :: !(steps[i].Do? && steps[i].id == id)
  }

  lemma {:induction false} OthersLeaveCall(s: State, steps: seq<Step>, id: Id)
    requires IsRun(s, steps) && id in s.calls && LeavesAlone(steps, id)
    ensures id in Final(s, steps).calls && Final(s, steps).calls[id] == s.calls[id]
    decreases |steps|
  {
    if steps != [] {
      assert forall i | 0 <= i < |steps[1..]| :: steps[1..][i] == steps[i + 1];
      OthersLeaveCall(After(s, steps[0]), steps[1..], id);
    }
  }

  /** A call that is over takes no further step. */
  lemma {:induction false} DoneIsOver(s: State, steps: seq<Step>, id: Id)
    requires IsRun(s, steps) && id in s.calls && s.calls[id].pc == Done
    ensures LeavesAlone(steps, id) && id in Final(s, steps).calls && Final(s, steps).calls[id] == s.calls[id]
    decreases |steps|
  {
    if steps != [] {
      DoneIsOver(After(s, steps[0]), steps[1..], id);
      assert forall i | 0 < i < |steps| :: steps[i] == steps[1..][i - 1];
    }
  }

  /**
    A call in recovery logs in again exactly when the token it failed with is still the
    session's and the credential was kept. Otherwise it leaves recovery: as recovered
    when the token has changed, and for good when there is no credential.
   */
  lemma CheckDecides(s: State, id: Id, t: Token)
    requires id in s.calls && s.calls[id].pc == Checking(t)
    ensures Enabled(s, Do(id, Check))
    ensures var u, c := After(s, Do(id, Check)), s.calls[id];
      if s.core.token == t && s.core.cred then Enabled(u, Do(id, LoginOk)) && !Enabled(u, Do(id, Unlock))
      else
        && !Enabled(u, Do(id, LoginOk)) && Enabled(u, Do(id, Unlock))
        && After(u, Do(id, Unlock)).calls[id].pc == if s.core.token == t || c.kind.Write? then Done else Reread(true)
  {
  }

  /** A failed call goes to recover when it is a write or lost its session, and a read only retries when the manager was unavailable. */
  lemma FailureDecides(s: State, id: Id, t: Token, unauth: bool)
    requires id in s.calls && s.calls[id].pc == Failed(t, unauth)
    ensures Enabled(s, Do(id, GoOn))
    ensures var u := After(s, Do(id, GoOn));
      && u.core == s.core
      && (Enabled(u, Do(id, Act.Lock)) <==> (s.calls[id].kind.Write? || unauth) && s.core.lock.None?)
      && (Enabled(u, Do(id, Retry)) <==> s.calls[id].kind.Read? && !unauth)
  {
  }

  /**
    A refused re-login and a failed continuity hook end the call, read or write. After
    a committed one a read retries and a write is over; after one that failed for the
    time being both go on. Other calls' steps in between change nothing about it.
   */
  lemma RecoveryDecides(s: State, id: Id, a: Act, others: seq<Step>)
    requires Enabled(s, Do(id, a)) && (a.LoginRejected? || a.HookFails? || a.LoginFails? || a.Commit?)
    requires IsRun(After(s, Do(id, a)), others) && LeavesAlone(others, id)
    ensures var t := Final(After(s, Do(id, a)), others);
      && Enabled(t, Do(id, Unlock))
      && var was, now := s.calls[id], After(t, Do(id, Unlock)).calls[id];
         && (a.LoginRejected? || a.HookFails? ==> now.pc == Done)
         && (a.Commit? ==> now.pc == if was.kind.Write? then Done else Reread(true))
         && (a.LoginFails? ==> now.pc == if was.kind.Write? then Failed(was.pc.token, true) else Reread(true))
  {
    OthersLeaveCall(After(s, Do(id, a)), others, id);
  }
}
