/**
  Authentication lockout: how many wrong passwords from one address can reach the
  authentication agent within one window, whatever else goes on.
 */
module AuthLimiter {
  import opened LimitStore

  datatype Config = Config(maxPerPair: int, maxPerIp: int, window: nat, lockout: nat)

  /** One login: when it is checked, when the agent sees it, when its outcome is recorded. */
  datatype Attempt = Attempt(ip: string, user: string, success: bool, check: Time, agent: Time, record: Time)

  // -------------------------------------------------------------------- keys

  function Pair(ip: string, user: string): string {
    ip + "\0" + user
  }

  function FailPair(ip: string, user: string): Key {
    "auth:fail:ipuser:" + Pair(ip, user)
  }

  function LockPair(ip: string, user: string): Key {
    "auth:lock:ipuser:" + Pair(ip, user)
  }

  function FailIp(ip: string): Key {
    "auth:fail:ip:" + ip
  }

  function LockIp(ip: string): Key {
    "auth:lock:ip:" + ip
  }

  /** An address's two keys are its own: no pair and no other address uses them. */
  lemma IpKeysAreOwn(x: string, ip: string, user: string)
    ensures FailIp(x) != FailPair(ip, user) && FailIp(x) != LockPair(ip, user)
    ensures LockIp(x) != FailPair(ip, user) && LockIp(x) != LockPair(ip, user)
    ensures FailIp(x) != LockIp(ip) && (x != ip ==> FailIp(x) != FailIp(ip) && LockIp(x) != LockIp(ip))
  {
    assert FailIp(x)[5] == 'f' && FailIp(x)[12] == ':' && FailIp(x)[13..] == x;
    assert LockIp(x)[5] == 'l' && LockIp(x)[12] == ':' && LockIp(x)[13..] == x;
    assert FailIp(ip)[13..] == ip && LockIp(ip)[13..] == ip && LockIp(ip)[5] == 'l';
    assert FailPair(ip, user)[12] == 'u' && LockPair(ip, user)[12] == 'u';
  }

  /** The first separator ends the address. */
  lemma PairIsInjective(ip: string, user: string, ip': string, user': string)
    requires '\0' !in ip && '\0' !in ip'
    ensures Pair(ip, user) == Pair(ip', user') <==> ip == ip' && user == user'
  {
    var p, p' := Pair(ip, user), Pair(ip', user');
    assert p[|ip|] == '\0' && p'[|ip'|] == '\0';
    assert forall i | 0 <= i < |ip| :: p[i] == ip[i];
    assert forall i | 0 <= i < |ip'| :: p'[i] == ip'[i];
    assert p[..|ip|] == ip && p'[..|ip'|] == ip';
    assert p[|ip| + 1..] == user && p'[|ip'| + 1..] == user';
    if p == p' {
      FirstSeparator(p, |ip|, |ip'|);
    }
  }

  lemma FirstSeparator(s: string, m: nat, n: nat)
    requires m < |s| && n < |s| && s[m] == '\0' && s[n] == '\0'
    requires (forall i | 0 <= i < m :: s[i] != '\0') && (forall i | 0 <= i < n :: s[i] != '\0')
    ensures m == n
  {
  }

  /** An address that contains the separator would share its counters with another pair. */
  lemma SeparatorCollides(ip: string, middle: string, user: string)
    ensures Pair(ip + "\0" + middle, user) == Pair(ip, middle + "\0" + user)
  {
    assert (ip + "\0" + middle) + "\0" + user == ip + "\0" + (middle + "\0" + user);
  }

  // -------------------------------------------------------------- operations

  predicate Limited(m: Entries, ip: string, user: string, now: Time) {
    ip != "" && ((user != "" && Alive(m, LockPair(ip, user), now)) || Alive(m, LockIp(ip), now))
  }

  function Checked(m: Entries, ip: string, user: string, now: Time): Entries {
    if ip == "" then m
    else
      var m1 := if user != "" then Asked(m, LockPair(ip, user), now) else m;
      if user != "" && Alive(m, LockPair(ip, user), now) then m1 else Asked(m1, LockIp(ip), now)
  }

  function Counted(cfg: Config, m: Entries, counter: Key, lock: Key, max: int, now: Time): Entries {
    if max <= 0 then m
    else
      var m1 := Incremented(m, counter, cfg.window, now);
      if m1[counter].count < max then m1 else Marked(m1, lock, cfg.lockout, now)
  }

  function PairCounted(cfg: Config, m: Entries, ip: string, user: string, now: Time): Entries {
    if user == "" then m else Counted(cfg, m, FailPair(ip, user), LockPair(ip, user), cfg.maxPerPair, now)
  }

  function Failed(cfg: Config, m: Entries, ip: string, user: string, now: Time): Entries {
    if ip == "" then m
    else Counted(cfg, PairCounted(cfg, m, ip, user, now), FailIp(ip), LockIp(ip), cfg.maxPerIp, now)
  }

  function Succeeded(m: Entries, ip: string, user: string): Entries {
    if ip == "" || user == "" then m else m - {FailPair(ip, user)} - {LockPair(ip, user)}
  }

  function After(cfg: Config, m: Entries, a: Attempt): Entries {
    var m1 := Checked(m, a.ip, a.user, a.check);
    if Limited(m, a.ip, a.user, a.check) then m1
    else if a.success then Succeeded(m1, a.ip, a.user)
    else Failed(cfg, m1, a.ip, a.user, a.record)
  }

  function Final(cfg: Config, attempts: seq<Attempt>): Entries {
    if attempts == [] then map[]
    else After(cfg, Final(cfg, attempts[..|attempts| - 1]), attempts[|attempts| - 1])
  }

  // ---------------------------------------------------------- failures of one ip

  /**
    A failure that reached the agent, with the window its counter was in: when that
    began, and the how-manieth failure in it this is.
   */
  datatype Failure = Failure(check: Time, agent: Time, record: Time, start: Time, nth: nat)

  /** The window that a failure recorded now is counted in, by the times alone. */
  function Next(cfg: Config, fs: seq<Failure>, a: Attempt): Failure {
    if fs == [] || a.record >= fs[|fs| - 1].start + cfg.window then Failure(a.check, a.agent, a.record, a.record, 1)
    else Failure(a.check, a.agent, a.record, fs[|fs| - 1].start, fs[|fs| - 1].nth + 1)
  }

  predicate FailsFor(m: Entries, a: Attempt, ip: string) {
    a.ip == ip && !a.success && !Limited(m, a.ip, a.user, a.check)
  }

  /** The failures of one address that reached the agent, in order. */
  function Failures(cfg: Config, attempts: seq<Attempt>, ip: string): seq<Failure> {
    if attempts == [] then []
    else
      var before, a := attempts[..|attempts| - 1], attempts[|attempts| - 1];
      var fs := Failures(cfg, before, ip);
      if FailsFor(Final(cfg, before), a, ip) then fs + [Next(cfg, fs, a)] else fs
  }

  /** Attempts are made one after another. */
  predicate Sequential(attempts: seq<Attempt>) {
    attempts != [] ==>
      var a := attempts[|attempts| - 1];
      && a.check <= a.agent <= a.record
      && (|attempts| >= 2 ==> attempts[|attempts| - 2].record <= a.check)
      && Sequential(attempts[..|attempts| - 1])
  }

  // ----------------------------------------------- the store follows the failures

  predicate ValidConfig(cfg: Config) {
    cfg.maxPerIp >= 1 && cfg.lockout >= cfg.window
  }

  /** What the store holds for an address, given its latest failure. */
  predicate Follows(cfg: Config, m: Entries, ip: string, fs: seq<Failure>, now: Time) {
    && (FailIp(ip) in m ==> fs != [])
    && (fs != [] ==>
          var f := fs[|fs| - 1];
          && f.record <= now && f.start <= f.record && 1 <= f.nth <= cfg.maxPerIp
          && (FailIp(ip) in m ==> m[FailIp(ip)] == Entry(f.nth, f.start + cfg.window))
          && (now < f.start + cfg.window ==> FailIp(ip) in m)
          && (f.nth == cfg.maxPerIp && now < f.record + cfg.lockout ==> LockedUntil(m, ip, f.record + cfg.lockout)))
  }

  predicate LockedUntil(m: Entries, ip: string, end: Time) {
    LockIp(ip) in m && m[LockIp(ip)].expires >= end
  }

  predicate LeftAlone(m: Entries, m': Entries, ip: string, now: Time) {
    Untouched(m, m', FailIp(ip), now) && Untouched(m, m', LockIp(ip), now)
  }

  /** Nothing but time passes for an address while its two keys are left alone. */
  lemma FollowsLeftAlone(cfg: Config, m: Entries, m': Entries, ip: string, fs: seq<Failure>, now: Time, later: Time)
    requires Follows(cfg, m, ip, fs, now) && now <= later && LeftAlone(m, m', ip, later)
    ensures Follows(cfg, m', ip, fs, later)
  {
  }

  lemma CheckLeavesAlone(m: Entries, a: Attempt, ip: string)
    ensures LeftAlone(m, Checked(m, a.ip, a.user, a.check), ip, a.check)
  {
    var m1 := if a.user != "" then Asked(m, LockPair(a.ip, a.user), a.check) else m;
    assert LeftAlone(m, m1, ip, a.check);
    assert LeftAlone(m1, Asked(m1, LockIp(a.ip), a.check), ip, a.check);
  }

  lemma CountLeavesAlone(cfg: Config, m: Entries, counter: Key, lock: Key, max: int, now: Time, k: Key)
    requires k != counter && k != lock
    ensures Untouched(m, Counted(cfg, m, counter, lock, max, now), k, now)
  {
    if max > 0 {
      var m1 := Incremented(m, counter, cfg.window, now);
      OthersUntouched(m, counter, cfg.window, now, k);
      OthersUntouched(m1, lock, cfg.lockout, now, k);
    }
  }

  lemma PairLeavesAlone(cfg: Config, m: Entries, ip: string, user: string, now: Time, x: string)
    ensures LeftAlone(m, PairCounted(cfg, m, ip, user, now), x, now)
    ensures LeftAlone(m, Succeeded(m, ip, user), x, now)
  {
    IpKeysAreOwn(x, ip, user);
    if user != "" {
      CountLeavesAlone(cfg, m, FailPair(ip, user), LockPair(ip, user), cfg.maxPerPair, now, FailIp(x));
      CountLeavesAlone(cfg, m, FailPair(ip, user), LockPair(ip, user), cfg.maxPerPair, now, LockIp(x));
    }
  }

  lemma FailureOfOtherLeavesAlone(cfg: Config, m: Entries, ip: string, user: string, now: Time, x: string)
    requires x != ip
    ensures LeftAlone(m, Failed(cfg, m, ip, user, now), x, now)
  {
    PairLeavesAlone(cfg, m, ip, user, now, x);
    IpKeysAreOwn(x, ip, user);
    IpKeysAreOwn(ip, x, user);
    var m1 := PairCounted(cfg, m, ip, user, now);
    CountLeavesAlone(cfg, m1, FailIp(ip), LockIp(ip), cfg.maxPerIp, now, FailIp(x));
    CountLeavesAlone(cfg, m1, FailIp(ip), LockIp(ip), cfg.maxPerIp, now, LockIp(x));
  }

  /** An attempt that is no failure of this address leaves its keys alone. */
  lemma OtherAttemptLeavesAlone(cfg: Config, m: Entries, a: Attempt, ip: string)
    requires a.check <= a.record && !FailsFor(m, a, ip)
    ensures LeftAlone(m, After(cfg, m, a), ip, a.record)
  {
    var m1 := Checked(m, a.ip, a.user, a.check);
    CheckLeavesAlone(m, a, ip);
    if !Limited(m, a.ip, a.user, a.check) {
      PairLeavesAlone(cfg, m1, a.ip, a.user, a.record, ip);
      if a.ip != ip {
        FailureOfOtherLeavesAlone(cfg, m1, a.ip, a.user, a.record, ip);
      }
    }
  }

  /** A failure that got past the check is counted in the window that the times say. */
  lemma CountFollows(cfg: Config, m: Entries, ip: string, fs: seq<Failure>, a: Attempt)
    requires ValidConfig(cfg) && a.check <= a.record
    requires Follows(cfg, m, ip, fs, a.record)
    requires fs != [] && fs[|fs| - 1].nth == cfg.maxPerIp ==> a.record >= fs[|fs| - 1].record + cfg.lockout
    ensures Follows(cfg, Counted(cfg, m, FailIp(ip), LockIp(ip), cfg.maxPerIp, a.record), ip, fs + [Next(cfg, fs, a)], a.record)
  {
    var m1 := Incremented(m, FailIp(ip), cfg.window, a.record);
    var f := Next(cfg, fs, a);
    assert Alive(m, FailIp(ip), a.record) <==> fs != [] && a.record < fs[|fs| - 1].start + cfg.window;
    assert m1[FailIp(ip)] == Entry(f.nth, f.start + cfg.window);
    assert FailIp(ip)[5] == 'f' && LockIp(ip)[5] == 'l';
    assert (fs + [f])[|fs + [f]| - 1] == f;
  }

  lemma FailureFollows(cfg: Config, m: Entries, ip: string, fs: seq<Failure>, a: Attempt, now: Time)
    requires ValidConfig(cfg) && now <= a.check <= a.record && ip != ""
    requires Follows(cfg, m, ip, fs, now) && FailsFor(m, a, ip)
    ensures Follows(cfg, After(cfg, m, a), ip, fs + [Next(cfg, fs, a)], a.record)
  {
    var m1 := Checked(m, ip, a.user, a.check);
    CheckLeavesAlone(m, a, ip);
    FollowsLeftAlone(cfg, m, m1, ip, fs, now, a.record);
    var m2 := PairCounted(cfg, m1, ip, a.user, a.record);
    PairLeavesAlone(cfg, m1, ip, a.user, a.record, ip);
    FollowsLeftAlone(cfg, m1, m2, ip, fs, a.record, a.record);
    CountFollows(cfg, m2, ip, fs, a);
  }

  // -------------------------------------------------------------------- runs

  predicate WellTimed(cfg: Config, f: Failure) {
    && f.check <= f.agent <= f.record && f.start <= f.record
    && 1 <= f.nth <= cfg.maxPerIp && (f.nth == 1 ==> f.start == f.record)
  }

  /** How two consecutive failures of an address stand to each other. */
  predicate Linked(cfg: Config, f: Failure, g: Failure) {
    && f.record <= g.check
    && (f.nth == cfg.maxPerIp ==> g.check >= f.record + cfg.lockout)
    && (g.nth == 1 ==> g.record >= f.start + cfg.window)
    && (g.nth != 1 ==> g.nth == f.nth + 1 && g.start == f.start)
  }

  predicate Chained(cfg: Config, fs: seq<Failure>) {
    && (forall i | 0 <= i < |fs| :: WellTimed(cfg, fs[i]))
    && (forall i, j | 0 <= i && j == i + 1 < |fs| :: Linked(cfg, fs[i], fs[j]))
  }

  /** A failure got past the check only when the lockout earned before it was over. */
  lemma NextIsLinked(cfg: Config, m: Entries, ip: string, fs: seq<Failure>, a: Attempt, now: Time)
    requires ValidConfig(cfg) && now <= a.check <= a.agent <= a.record && ip != ""
    requires Follows(cfg, m, ip, fs, now) && FailsFor(m, a, ip) && Chained(cfg, fs)
    ensures Chained(cfg, fs + [Next(cfg, fs, a)])
  {
    var g := Next(cfg, fs, a);
    if fs != [] {
      var f := fs[|fs| - 1];
      assert f.nth == cfg.maxPerIp ==> a.check >= f.record + cfg.lockout;
      assert WellTimed(cfg, g) && Linked(cfg, f, g);
    }
  }

  lemma {:induction false} RunFollows(cfg: Config, attempts: seq<Attempt>, ip: string)
    requires ValidConfig(cfg) && Sequential(attempts) && ip != ""
    ensures Chained(cfg, Failures(cfg, attempts, ip))
    ensures if attempts == [] then Failures(cfg, attempts, ip) == []
            else Follows(cfg, Final(cfg, attempts), ip, Failures(cfg, attempts, ip), attempts[|attempts| - 1].record)
    decreases |attempts|
  {
    if attempts != [] {
      var before, a := attempts[..|attempts| - 1], attempts[|attempts| - 1];
      RunFollows(cfg, before, ip);
      var now := if before == [] then a.check else before[|before| - 1].record;
      AttemptFollows(cfg, Final(cfg, before), ip, Failures(cfg, before, ip), a, now);
    }
  }

  lemma AttemptFollows(cfg: Config, m: Entries, ip: string, fs: seq<Failure>, a: Attempt, now: Time)
    requires ValidConfig(cfg) && now <= a.check <= a.agent <= a.record && ip != ""
    requires Follows(cfg, m, ip, fs, now) && Chained(cfg, fs)
    ensures var gs := if FailsFor(m, a, ip) then fs + [Next(cfg, fs, a)] else fs;
      Chained(cfg, gs) && Follows(cfg, After(cfg, m, a), ip, gs, a.record)
  {
    if FailsFor(m, a, ip) {
      NextIsLinked(cfg, m, ip, fs, a, now);
      FailureFollows(cfg, m, ip, fs, a, now);
    } else {
      OtherAttemptLeavesAlone(cfg, m, a, ip);
      FollowsLeftAlone(cfg, m, After(cfg, m, a), ip, fs, now, a.record);
    }
  }

  // ---------------------------------------------------------------- the bound

  /** Failures one address may get through in one window. */
  function Bound(max: nat): nat
    requires max >= 1
  {
    if max == 1 then 1 else 2 * max - 2
  }

  lemma {:induction false} TimesGrow(cfg: Config, fs: seq<Failure>, i: nat, j: nat)
    requires ValidConfig(cfg) && Chained(cfg, fs) && i < j < |fs|
    ensures fs[i].record <= fs[j].check && fs[i].start <= fs[j].start
    decreases j - i
  {
    assert Linked(cfg, fs[j - 1], fs[j]) && WellTimed(cfg, fs[j - 1]) && WellTimed(cfg, fs[j]);
    if i < j - 1 {
      TimesGrow(cfg, fs, i, j - 1);
    }
  }

  /** Among enough consecutive failures there is one that fills its window, or one that opens a new one. */
  lemma {:induction false} FullOrFirst(cfg: Config, fs: seq<Failure>, i: nat, n: nat) returns (k: nat)
    requires ValidConfig(cfg) && Chained(cfg, fs) && i + n < |fs| && fs[i].nth + n >= cfg.maxPerIp
    ensures i <= k <= i + n && (fs[k].nth == cfg.maxPerIp || (i < k && fs[k].nth == 1))
    decreases n
  {
    assert WellTimed(cfg, fs[i]);
    if fs[i].nth == cfg.maxPerIp {
      k := i;
    } else {
      assert Linked(cfg, fs[i], fs[i + 1]);
      if fs[i + 1].nth == 1 {
        k := i + 1;
      } else {
        k := FullOrFirst(cfg, fs, i + 1, n - 1);
      }
    }
  }

  /** A full window keeps everything after it a lockout away. */
  lemma AfterFull(cfg: Config, fs: seq<Failure>, i: nat, k: nat, j: nat)
    requires ValidConfig(cfg) && Chained(cfg, fs) && i <= k < j < |fs| && fs[k].nth == cfg.maxPerIp
    ensures fs[j].agent >= fs[i].agent + cfg.window
  {
    assert Linked(cfg, fs[k], fs[k + 1]) && WellTimed(cfg, fs[i]) && WellTimed(cfg, fs[k + 1]) && WellTimed(cfg, fs[j]);
    assert WellTimed(cfg, fs[k]);
    if i < k {
      TimesGrow(cfg, fs, i, k);
    }
    if k + 1 < j {
      TimesGrow(cfg, fs, k + 1, j);
    }
  }

  /** Two windows opened since keep everything after the second a window away. */
  lemma AfterFirst(cfg: Config, fs: seq<Failure>, i: nat, p: nat, q: nat, j: nat)
    requires ValidConfig(cfg) && Chained(cfg, fs) && i <= p < q < j < |fs| && fs[p].nth == 1 && fs[q].nth == 1
    ensures fs[j].agent >= fs[i].agent + cfg.window
  {
    assert WellTimed(cfg, fs[i]) && WellTimed(cfg, fs[p]) && WellTimed(cfg, fs[j]);
    assert Linked(cfg, fs[q - 1], fs[q]);
    if i < p {
      TimesGrow(cfg, fs, i, p);
    }
    if p < q - 1 {
      TimesGrow(cfg, fs, p, q - 1);
    }
    TimesGrow(cfg, fs, q, j);
  }

  /** One failure more than the bound spans at least a window. */
  lemma SpanOfBound(cfg: Config, fs: seq<Failure>, i: nat)
    requires ValidConfig(cfg) && Chained(cfg, fs) && i + Bound(cfg.maxPerIp) < |fs|
    ensures fs[i + Bound(cfg.maxPerIp)].agent >= fs[i].agent + cfg.window
  {
    var max := cfg.maxPerIp;
    var j := i + Bound(max);
    assert WellTimed(cfg, fs[i]);
    if max == 1 {
      AfterFull(cfg, fs, i, i, j);
      return;
    }
    var p := i;
    if fs[i].nth != 1 {
      p := FullOrFirst(cfg, fs, i, max - 2);
    }
    if fs[p].nth == max {
      AfterFull(cfg, fs, i, p, j);
      return;
    }
    var q := FullOrFirst(cfg, fs, p, max - 1);
    if fs[q].nth == max {
      AfterFull(cfg, fs, i, q, j);
    } else {
      AfterFirst(cfg, fs, i, p, q, j);
    }
  }

  /** How many of the failures reached the agent from t until just before t + window. */
  function CountIn(fs: seq<Failure>, t: Time, window: nat): nat {
    if fs == [] then 0
    else CountIn(fs[..|fs| - 1], t, window) + if t <= fs[|fs| - 1].agent < t + window then 1 else 0
  }

  lemma {:induction false} CountFromLow(fs: seq<Failure>, t: Time, window: nat, low: nat)
    requires low <= |fs| && forall i | 0 <= i < low :: !(t <= fs[i].agent < t + window)
    ensures CountIn(fs, t, window) <= |fs| - low
    decreases |fs|
  {
    if fs != [] {
      CountFromLow(fs[..|fs| - 1], t, window, if low == |fs| then low - 1 else low);
    }
  }

  lemma {:induction false} CountIsBounded(cfg: Config, fs: seq<Failure>, t: Time)
    requires ValidConfig(cfg) && Chained(cfg, fs)
    ensures CountIn(fs, t, cfg.window) <= Bound(cfg.maxPerIp)
    decreases |fs|
  {
    var n, bound := |fs|, Bound(cfg.maxPerIp);
    if n == 0 {
    } else if !(t <= fs[n - 1].agent < t + cfg.window) {
      CountIsBounded(cfg, fs[..n - 1], t);
    } else if n <= bound {
      CountFromLow(fs, t, cfg.window, 0);
    } else {
      forall i | 0 <= i < n - bound ensures fs[i].agent < t {
        SpanOfBound(cfg, fs, n - 1 - bound);
        assert WellTimed(cfg, fs[i]) && WellTimed(cfg, fs[n - 1 - bound]);
        if i < n - 1 - bound {
          TimesGrow(cfg, fs, i, n - 1 - bound);
        }
      }
      CountFromLow(fs, t, cfg.window, n - bound);
    }
  }

  /**
    Whatever users and addresses are tried and whichever succeed in between, no
    half-open interval as long as the window sees more wrong passwords from one
    address reach the agent than twice the limit less two (one, when the limit is
    one), which is within twice the limit less one.
   */
  lemma FailuresPerWindow(cfg: Config, attempts: seq<Attempt>, ip: string, t: Time)
    requires ValidConfig(cfg) && Sequential(attempts) && ip != ""
    ensures CountIn(Failures(cfg, attempts, ip), t, cfg.window) <= Bound(cfg.maxPerIp) <= 2 * cfg.maxPerIp - 1
  {
    RunFollows(cfg, attempts, ip);
    CountIsBounded(cfg, Failures(cfg, attempts, ip), t);
  }

  /** A wrong password without a user name, checked, seen and recorded at one time. */
  function WrongAt(ip: string, t: Time): Attempt {
    Attempt(ip, "", false, t, t, t)
  }

  /** One wrong password at each of the times planned. */
  function WrongAtEach(ip: string, plan: seq<Time>): seq<Attempt> {
    if plan == [] then [] else WrongAtEach(ip, plan[..|plan| - 1]) + [WrongAt(ip, plan[|plan| - 1])]
  }

  /** The counter that the failures at these times leave; none yet has a count of zero. */
  function CounterAfter(cfg: Config, plan: seq<Time>): Entry {
    if plan == [] then Entry(0, 0)
    else
      var e, t := CounterAfter(cfg, plan[..|plan| - 1]), plan[|plan| - 1];
      if e.count > 0 && t < e.expires then Entry(e.count + 1, e.expires) else Entry(1, t + cfg.window)
  }

  /** The times go forward, and no failure but the last may reach the limit. */
  predicate Planned(cfg: Config, plan: seq<Time>) {
    plan != [] ==>
      var front := plan[..|plan| - 1];
      && Planned(cfg, front) && CounterAfter(cfg, front).count < cfg.maxPerIp
      && (front != [] ==> front[|front| - 1] <= plan[|plan| - 1])
  }

  function StoreOf(ip: string, e: Entry): Entries {
    if e.count == 0 then map[] else map[FailIp(ip) := e]
  }

  lemma OneEntryCounted(cfg: Config, ip: string, e: Entry, t: Time, e': Entry)
    requires e' == (if e.count > 0 && t < e.expires then Entry(e.count + 1, e.expires) else Entry(1, t + cfg.window))
    requires e'.count < cfg.maxPerIp
    ensures Counted(cfg, StoreOf(ip, e), FailIp(ip), LockIp(ip), cfg.maxPerIp, t) == StoreOf(ip, e')
  {
    var m := StoreOf(ip, e);
    assert Pruned(m, t)[FailIp(ip) := e'] == map[FailIp(ip) := e'];
  }

  lemma WrongCounts(cfg: Config, m: Entries, ip: string, t: Time)
    requires ip != "" && LockIp(ip) !in m
    ensures FailsFor(m, WrongAt(ip, t), ip)
    ensures After(cfg, m, WrongAt(ip, t)) == Counted(cfg, m, FailIp(ip), LockIp(ip), cfg.maxPerIp, t)
  {
  }

  lemma NoLockStored(ip: string, e: Entry)
    ensures LockIp(ip) !in StoreOf(ip, e)
  {
    assert FailIp(ip)[5] == 'f' && LockIp(ip)[5] == 'l';
  }

  lemma LastOfPlan(ip: string, plan: seq<Time>)
    requires plan != []
    ensures var all := WrongAtEach(ip, plan);
      && all != [] && all[|all| - 1] == WrongAt(ip, plan[|plan| - 1])
      && all[..|all| - 1] == WrongAtEach(ip, plan[..|plan| - 1])
  {
  }

  lemma {:induction false} StoreOfPlan(cfg: Config, ip: string, plan: seq<Time>)
    requires ip != "" && Planned(cfg, plan) && CounterAfter(cfg, plan).count < cfg.maxPerIp
    ensures Final(cfg, WrongAtEach(ip, plan)) == StoreOf(ip, CounterAfter(cfg, plan))
    decreases |plan|
  {
    if plan != [] {
      var front, t := plan[..|plan| - 1], plan[|plan| - 1];
      StoreOfPlan(cfg, ip, front);
      LastOfPlan(ip, plan);
      StoreOneMore(cfg, ip, CounterAfter(cfg, front), t, CounterAfter(cfg, plan));
    }
  }

  lemma StoreOneMore(cfg: Config, ip: string, e: Entry, t: Time, e': Entry)
    requires ip != "" && e'.count < cfg.maxPerIp
    requires e' == (if e.count > 0 && t < e.expires then Entry(e.count + 1, e.expires) else Entry(1, t + cfg.window))
    ensures After(cfg, StoreOf(ip, e), WrongAt(ip, t)) == StoreOf(ip, e')
  {
    NoLockStored(ip, e);
    WrongCounts(cfg, StoreOf(ip, e), ip, t);
    OneEntryCounted(cfg, ip, e, t, e');
  }

  /** How many of the times are in the window that begins at from. */
  function TimesIn(plan: seq<Time>, from: Time, window: nat): nat {
    if plan == [] then 0
    else TimesIn(plan[..|plan| - 1], from, window) + if from <= plan[|plan| - 1] < from + window then 1 else 0
  }

  /** Every wrong password planned reaches the agent. */
  lemma {:induction false} CountOfPlan(cfg: Config, ip: string, plan: seq<Time>, from: Time)
    requires ip != "" && Planned(cfg, plan)
    ensures CountIn(Failures(cfg, WrongAtEach(ip, plan), ip), from, cfg.window) == TimesIn(plan, from, cfg.window)
    decreases |plan|
  {
    if plan != [] {
      var front, t := plan[..|plan| - 1], plan[|plan| - 1];
      CountOfPlan(cfg, ip, front, from);
      StoreOfPlan(cfg, ip, front);
      NoLockStored(ip, CounterAfter(cfg, front));
      LastOfPlan(ip, plan);
      FailsOneMore(cfg, WrongAtEach(ip, front), ip, t, from);
    }
  }

  lemma FailsOneMore(cfg: Config, attempts: seq<Attempt>, ip: string, t: Time, from: Time)
    requires FailsFor(Final(cfg, attempts), WrongAt(ip, t), ip)
    ensures CountIn(Failures(cfg, attempts + [WrongAt(ip, t)], ip), from, cfg.window)
         == CountIn(Failures(cfg, attempts, ip), from, cfg.window) + if from <= t < from + cfg.window then 1 else 0
  {
    var longer := attempts + [WrongAt(ip, t)];
    assert longer[..|longer| - 1] == attempts && longer[|longer| - 1] == WrongAt(ip, t);
    var fs := Failures(cfg, attempts, ip);
    var f := Next(cfg, fs, WrongAt(ip, t));
    assert (fs + [f])[..|fs + [f]| - 1] == fs;
  }

  lemma {:induction false} SequentialPlan(cfg: Config, ip: string, plan: seq<Time>)
    requires Planned(cfg, plan)
    ensures Sequential(WrongAtEach(ip, plan))
    decreases |plan|
  {
    if plan != [] {
      SequentialPlan(cfg, ip, plan[..|plan| - 1]);
      LastOfPlan(ip, plan);
      if |plan| > 1 {
        LastOfPlan(ip, plan[..|plan| - 1]);
      }
    }
  }

  // The plan: one failure opens a window, all the others that it takes without a lock come at
  // its very end, and a window is filled right after.

  function Again(plan: seq<Time>, t: Time, n: nat): seq<Time> {
    if n == 0 then plan else Again(plan, t, n - 1) + [t]
  }

  predicate Stands(cfg: Config, plan: seq<Time>, last: Time, e: Entry, from: Time, count: nat) {
    && plan != [] && plan[|plan| - 1] == last && Planned(cfg, plan)
    && CounterAfter(cfg, plan) == e && TimesIn(plan, from, cfg.window) == count
  }

  lemma FirstStands(cfg: Config, t: Time, from: Time)
    requires ValidConfig(cfg)
    ensures Stands(cfg, [t], t, Entry(1, t + cfg.window), from, if from <= t < from + cfg.window then 1 else 0)
  {
    var plan := [t];
    assert plan[..|plan| - 1] == [];
  }

  lemma OneMore(cfg: Config, plan: seq<Time>, last: Time, e: Entry, from: Time, count: nat, t: Time)
    requires Stands(cfg, plan, last, e, from, count) && last <= t && 0 < e.count < cfg.maxPerIp
    ensures Stands(cfg, plan + [t], t, if t < e.expires then Entry(e.count + 1, e.expires) else Entry(1, t + cfg.window), from,
                   count + if from <= t < from + cfg.window then 1 else 0)
  {
    assert (plan + [t])[..|plan + [t]| - 1] == plan;
  }

  lemma {:induction false} Several(cfg: Config, plan: seq<Time>, last: Time, e: Entry, from: Time, count: nat, t: Time, n: nat)
    requires Stands(cfg, plan, last, e, from, count) && last <= t < e.expires && from <= t < from + cfg.window
    requires 0 < e.count && e.count + n <= cfg.maxPerIp
    ensures Stands(cfg, Again(plan, t, n), if n == 0 then last else t, Entry(e.count + n, e.expires), from, count + n)
  {
    if n > 0 {
      Several(cfg, plan, last, e, from, count, t, n - 1);
      OneMore(cfg, Again(plan, t, n - 1), if n == 1 then last else t, Entry(e.count + n - 1, e.expires), from, count + n - 1, t);
    }
  }

  function Plan(cfg: Config): seq<Time>
    requires ValidConfig(cfg)
  {
    if cfg.maxPerIp == 1 then [0]
    else Again(Again([0], cfg.window - 1, cfg.maxPerIp - 2) + [cfg.window], cfg.window, cfg.maxPerIp - 1)
  }

  lemma PlanStands(cfg: Config)
    requires ValidConfig(cfg) && cfg.window > 1
    ensures Planned(cfg, Plan(cfg)) && TimesIn(Plan(cfg), if cfg.maxPerIp == 1 then 0 else cfg.window - 1, cfg.window) == Bound(cfg.maxPerIp)
  {
    var max, w, from := cfg.maxPerIp, cfg.window, cfg.window - 1;
    FirstStands(cfg, 0, if max == 1 then 0 else from);
    if max > 1 {
      var first := Again([0], w - 1, max - 2);
      Several(cfg, [0], 0, Entry(1, w), from, 0, w - 1, max - 2);
      OneMore(cfg, first, if max == 2 then 0 else w - 1, Entry(max - 1, w), from, max - 2, w);
      Several(cfg, first + [w], w, Entry(1, w + w), from, max - 1, w, max - 1);
    }
  }

  /** As many failures as the bound allows reach the agent in the window that begins at from. */
  predicate Attains(cfg: Config, ip: string, attempts: seq<Attempt>, from: Time)
    requires ValidConfig(cfg)
  {
    Sequential(attempts) && CountIn(Failures(cfg, attempts, ip), from, cfg.window) == Bound(cfg.maxPerIp)
  }

  /** The bound is the best possible, for every limit and every window of more than one tick of the clock. */
  lemma BoundIsReached(cfg: Config, ip: string)
    requires ValidConfig(cfg) && ip != "" && cfg.window > 1
    ensures Attains(cfg, ip, WrongAtEach(ip, Plan(cfg)), if cfg.maxPerIp == 1 then 0 else cfg.window - 1)
  {
    PlanStands(cfg);
    SequentialPlan(cfg, ip, Plan(cfg));
    CountOfPlan(cfg, ip, Plan(cfg), if cfg.maxPerIp == 1 then 0 else cfg.window - 1);
  }

  /** Without an address there is nothing to count by: nothing is ever refused and nothing stored. */
  lemma NoAddressNoLimit(cfg: Config, m: Entries, a: Attempt)
    requires a.ip == ""
    ensures !Limited(m, a.ip, a.user, a.check) && After(cfg, m, a) == m
  {
  }

  /** A success lets its pair start over: the next failure is the pair's first, and earns no lock by itself. */
  lemma SuccessStartsOver(cfg: Config, m: Entries, ip: string, user: string, now: Time)
    requires ip != "" && user != "" && cfg.maxPerPair > 1
    ensures var m1 := Succeeded(m, ip, user);
      var m2 := Failed(cfg, m1, ip, user, now);
      && !Alive(m1, LockPair(ip, user), now)
      && (cfg.window > 0 ==> FailPair(ip, user) in m2 && m2[FailPair(ip, user)] == Entry(1, now + cfg.window))
      && LockPair(ip, user) !in m2
  {
    var m1 := Succeeded(m, ip, user);
    var m2 := PairCounted(cfg, m1, ip, user, now);
    IpKeysAreOwn(ip, ip, user);
    assert FailPair(ip, user)[5] == 'f' && LockPair(ip, user)[5] == 'l';
    assert FailPair(ip, user) in m2 && m2[FailPair(ip, user)] == Entry(1, now + cfg.window) && LockPair(ip, user) !in m2;
    CountLeavesAlone(cfg, m2, FailIp(ip), LockIp(ip), cfg.maxPerIp, now, FailPair(ip, user));
    CountLeavesAlone(cfg, m2, FailIp(ip), LockIp(ip), cfg.maxPerIp, now, LockPair(ip, user));
  }

  /** The failures of a pair that still count. */
  function PairFailures(m: Entries, ip: string, user: string, now: Time): nat {
    if Alive(m, FailPair(ip, user), now) then m[FailPair(ip, user)].count else 0
  }

  /** A failure locks its pair, for exactly the lockout, if and only if it is the one that reaches the limit. */
  lemma FailureLocksPairIff(cfg: Config, m: Entries, ip: string, user: string, now: Time, later: Time)
    requires ip != "" && user != "" && cfg.maxPerPair > 0 && now <= later && !Alive(m, LockPair(ip, user), now)
    ensures Alive(Failed(cfg, m, ip, user, now), LockPair(ip, user), later)
       <==> PairFailures(m, ip, user, now) + 1 >= cfg.maxPerPair && later < now + cfg.lockout
  {
    var lock, m1 := LockPair(ip, user), PairCounted(cfg, m, ip, user, now);
    IpKeysAreOwn(ip, ip, user);
    assert FailPair(ip, user)[5] == 'f' && lock[5] == 'l';
    assert Alive(m1, lock, later)
      <==> PairFailures(m, ip, user, now) + 1 >= cfg.maxPerPair && later < now + cfg.lockout;
    CountLeavesAlone(cfg, m1, FailIp(ip), LockIp(ip), cfg.maxPerIp, now, lock);
  }

  // ------------------------------------------------------- a locked pair is refused

  /** Failures of one pair, one after another. */
  predicate FailuresOf(attempts: seq<Attempt>, ip: string, user: string) {
    Sequential(attempts) && forall i | 0 <= i < |attempts| :: attempts[i].ip == ip && attempts[i].user == user && !attempts[i].success
  }

  /** Every failure falls within the window that the first one opened. */
  predicate WithinWindow(cfg: Config, attempts: seq<Attempt>) {
    forall i | 0 <= i < |attempts| :: attempts[i].record < attempts[0].record + cfg.window
  }

  /** The store after n failures of one pair and nothing else, none of which has locked anything. */
  predicate Tallied(cfg: Config, m: Entries, ip: string, user: string, n: nat, end: Time) {
    && LockPair(ip, user) !in m && LockIp(ip) !in m
    && (if n == 0 then FailPair(ip, user) !in m && FailIp(ip) !in m
        else FailPair(ip, user) in m && m[FailPair(ip, user)] == Entry(n, end))
    && (n > 0 && cfg.maxPerIp > 0 ==> FailIp(ip) in m && m[FailIp(ip)] == Entry(n, end))
  }

  lemma PairKeysDiffer(ip: string, user: string)
    ensures FailPair(ip, user) != LockPair(ip, user)
  {
    assert FailPair(ip, user)[5] == 'f' && LockPair(ip, user)[5] == 'l';
  }

  lemma TallyOneMore(cfg: Config, m: Entries, ip: string, user: string, n: nat, end: Time, a: Attempt)
    requires ip != "" && user != "" && 0 < n + 1 < cfg.maxPerPair && (cfg.maxPerIp > 0 ==> n + 1 < cfg.maxPerIp)
    requires Tallied(cfg, m, ip, user, n, end) && a.record < end && (n == 0 ==> end == a.record + cfg.window)
    requires a.ip == ip && a.user == user && !a.success && a.check <= a.record
    ensures !Limited(m, ip, user, a.check) && Tallied(cfg, After(cfg, m, a), ip, user, n + 1, end)
  {
    IpKeysAreOwn(ip, ip, user);
    PairKeysDiffer(ip, user);
    var m1 := PairCounted(cfg, m, ip, user, a.record);
    assert FailPair(ip, user) in m1 && m1[FailPair(ip, user)] == Entry(n + 1, end);
    assert LockPair(ip, user) !in m1 && LockIp(ip) !in m1;
    assert if n > 0 && cfg.maxPerIp > 0 then FailIp(ip) in m1 && m1[FailIp(ip)] == Entry(n, end) else n > 0 || FailIp(ip) !in m1;
    CountLeavesAlone(cfg, m1, FailIp(ip), LockIp(ip), cfg.maxPerIp, a.record, FailPair(ip, user));
    CountLeavesAlone(cfg, m1, FailIp(ip), LockIp(ip), cfg.maxPerIp, a.record, LockPair(ip, user));
    var m2 := Incremented(m1, FailIp(ip), cfg.window, a.record);
    assert cfg.maxPerIp > 0 ==> m2[FailIp(ip)] == Entry(n + 1, end);
    assert LockIp(ip) !in m2;
    assert Checked(m, ip, user, a.check) == m;
    assert After(cfg, m, a) == if cfg.maxPerIp > 0 then m2 else m1;
  }

  lemma {:induction false} FailuresTally(cfg: Config, attempts: seq<Attempt>, ip: string, user: string)
    requires ip != "" && user != "" && |attempts| < cfg.maxPerPair && (cfg.maxPerIp > 0 ==> |attempts| < cfg.maxPerIp)
    requires FailuresOf(attempts, ip, user) && WithinWindow(cfg, attempts)
    ensures Tallied(cfg, Final(cfg, attempts), ip, user, |attempts|, if attempts == [] then 0 else attempts[0].record + cfg.window)
  {
    if attempts != [] {
      var n := |attempts| - 1;
      var before := attempts[..n];
      FailuresTally(cfg, before, ip, user);
      TallyOneMore(cfg, Final(cfg, before), ip, user, n, attempts[0].record + cfg.window, attempts[n]);
    }
  }

  /** The failure that reaches the limit of its pair locks it, and not the address, whose own limit is higher. */
  lemma LastFailureLocks(cfg: Config, m: Entries, ip: string, user: string, n: nat, end: Time, a: Attempt)
    requires ip != "" && user != "" && n + 1 == cfg.maxPerPair && (cfg.maxPerIp > 0 ==> n + 1 < cfg.maxPerIp)
    requires Tallied(cfg, m, ip, user, n, end) && a.record < end && (n == 0 ==> end == a.record + cfg.window)
    requires a.ip == ip && a.user == user && !a.success && a.check <= a.record
    ensures !Limited(m, ip, user, a.check)
    ensures forall t: Time | a.record <= t :: Limited(After(cfg, m, a), ip, user, t) <==> t < a.record + cfg.lockout
  {
    IpKeysAreOwn(ip, ip, user);
    PairKeysDiffer(ip, user);
    var m1 := PairCounted(cfg, m, ip, user, a.record);
    assert LockIp(ip) !in m1;
    assert if n > 0 && cfg.maxPerIp > 0 then FailIp(ip) in m1 && m1[FailIp(ip)] == Entry(n, end) else n > 0 || FailIp(ip) !in m1;
    var m2 := Incremented(m1, FailIp(ip), cfg.window, a.record);
    assert cfg.maxPerIp > 0 ==> m2[FailIp(ip)] == Entry(n + 1, end);
    assert LockIp(ip) !in m2;
    assert Checked(m, ip, user, a.check) == m;
    assert After(cfg, m, a) == Failed(cfg, m, ip, user, a.record) && LockIp(ip) !in After(cfg, m, a);
    forall t: Time | a.record <= t ensures Limited(After(cfg, m, a), ip, user, t) <==> t < a.record + cfg.lockout {
      FailureLocksPairIff(cfg, m, ip, user, a.record, t);
    }
  }

  /**
    As many failures of one pair as its limit allows, within one window, all reach the
    agent; from the last of them on the pair is refused until the lockout has passed,
    and no longer.
   */
  lemma PairIsRefused(cfg: Config, attempts: seq<Attempt>, ip: string, user: string)
    requires ip != "" && user != "" && |attempts| == cfg.maxPerPair > 0 && (cfg.maxPerIp > 0 ==> cfg.maxPerPair < cfg.maxPerIp)
    requires FailuresOf(attempts, ip, user) && WithinWindow(cfg, attempts)
    ensures forall i | 0 <= i < |attempts| :: !Limited(Final(cfg, attempts[..i]), ip, user, attempts[i].check)
    ensures var last := attempts[|attempts| - 1].record;
      forall t: Time | last <= t :: Limited(Final(cfg, attempts), ip, user, t) <==> t < last + cfg.lockout
  {
    var n := |attempts| - 1;
    forall i | 0 <= i < |attempts| ensures !Limited(Final(cfg, attempts[..i]), ip, user, attempts[i].check) {
      PrefixFails(cfg, attempts, ip, user, i);
      FailuresTally(cfg, attempts[..i], ip, user);
    }
    PrefixFails(cfg, attempts, ip, user, n);
    FailuresTally(cfg, attempts[..n], ip, user);
    LastFailureLocks(cfg, Final(cfg, attempts[..n]), ip, user, n, attempts[0].record + cfg.window, attempts[n]);
  }

  lemma {:induction false} PrefixFails(cfg: Config, attempts: seq<Attempt>, ip: string, user: string, i: nat)
    requires FailuresOf(attempts, ip, user) && WithinWindow(cfg, attempts) && i <= |attempts|
    ensures FailuresOf(attempts[..i], ip, user) && WithinWindow(cfg, attempts[..i])
  {
    if i == |attempts| {
      assert attempts[..i] == attempts;
    } else {
      var n := |attempts| - 1;
      PrefixFails(cfg, attempts[..n], ip, user, i);
      assert attempts[..n][..i] == attempts[..i];
    }
  }

  // ----------------------------------------------------- a lock cannot be shortened

  /** The pair's lock stands, and ends at this time. */
  predicate Stays(m: Entries, ip: string, user: string, end: Time) {
    LockPair(ip, user) in m && m[LockPair(ip, user)].expires == end
  }

  lemma LockKeyIsOwn(ip: string, user: string, x: string, y: string)
    requires '\0' !in ip && '\0' !in x && (x != ip || y != user)
    ensures LockPair(ip, user) != LockPair(x, y)
  {
    PairIsInjective(ip, user, x, y);
    assert LockPair(ip, user)[17..] == Pair(ip, user) && LockPair(x, y)[17..] == Pair(x, y);
  }

  lemma FailureKeepsLock(cfg: Config, m: Entries, x: string, y: string, now: Time, ip: string, user: string, end: Time)
    requires Stays(m, ip, user, end) && now < end && '\0' !in ip && '\0' !in x && (x != ip || y != user)
    ensures Stays(Failed(cfg, m, x, y, now), ip, user, end)
  {
    var lock := LockPair(ip, user);
    LockKeyIsOwn(ip, user, x, y);
    IpKeysAreOwn(x, ip, user);
    assert lock[5] == 'l' && FailPair(x, y)[5] == 'f';
    if y != "" {
      CountLeavesAlone(cfg, m, FailPair(x, y), LockPair(x, y), cfg.maxPerPair, now, lock);
    }
    CountLeavesAlone(cfg, PairCounted(cfg, m, x, y, now), FailIp(x), LockIp(x), cfg.maxPerIp, now, lock);
  }

  lemma AttemptKeepsLock(cfg: Config, m: Entries, a: Attempt, ip: string, user: string, end: Time)
    requires ip != "" && user != "" && Stays(m, ip, user, end) && a.check < end && a.record < end
    requires '\0' !in ip && '\0' !in a.ip
    ensures Stays(After(cfg, m, a), ip, user, end)
  {
    IpKeysAreOwn(a.ip, ip, user);
    var m1 := Checked(m, a.ip, a.user, a.check);
    if a.ip == ip && a.user == user {
      assert Limited(m, ip, user, a.check);
    } else {
      LockKeyIsOwn(ip, user, a.ip, a.user);
      assert LockPair(ip, user)[5] == 'l' && FailPair(a.ip, a.user)[5] == 'f';
      assert Stays(m1, ip, user, end);
      FailureKeepsLock(cfg, m1, a.ip, a.user, a.record, ip, user, end);
    }
  }

  /**
    Whoever else logs in or fails meanwhile, a pair that is locked stays refused until
    its lock ends: it cannot succeed, and nobody else's success clears it.
   */
  lemma {:induction false} LockCannotBeCleared(cfg: Config, before: seq<Attempt>, later: seq<Attempt>, ip: string, user: string, end: Time)
    requires ip != "" && user != "" && '\0' !in ip && Stays(Final(cfg, before), ip, user, end)
    requires forall i | 0 <= i < |later| :: '\0' !in later[i].ip && later[i].check < end && later[i].record < end
    ensures forall t: Time | t < end :: Limited(Final(cfg, before + later), ip, user, t)
    ensures Stays(Final(cfg, before + later), ip, user, end)
  {
    if later == [] {
      assert before + later == before;
    } else {
      var n := |later| - 1;
      var all := before + later;
      LockCannotBeCleared(cfg, before, later[..n], ip, user, end);
      assert all[..|all| - 1] == before + later[..n] && all[|all| - 1] == later[n];
      AttemptKeepsLock(cfg, Final(cfg, before + later[..n]), later[n], ip, user, end);
    }
  }

  // ------------------------------------------------------------------ the router

  class Router {
    const cfg: Config
    const store: MemLimitStore
    ghost var attempts: seq<Attempt>

    ghost predicate Valid()
      reads this, store
    {
      store.entries == Final(cfg, attempts)
    }

    constructor (cfg: Config)
      ensures Valid() && fresh(store) && this.cfg == cfg && attempts == []
    {
      this.cfg := cfg;
      store := new MemLimitStore();
      attempts := [];
    }

    /** The agent is asked unless a lock is in force, and its answer is recorded. */
    method Authenticate(a: Attempt) returns (asked: bool)
      requires Valid()
      modifies this, store
      ensures Valid() && attempts == old(attempts) + [a]
      ensures asked == !Limited(old(store.entries), a.ip, a.user, a.check)
    {
      ghost var before := store.entries;
      var limited := IsLimited(a.ip, a.user, a.check);
      if !limited {
        if a.success {
          RecordSuccess(a.ip, a.user);
        } else {
          RecordFailure(a.ip, a.user, a.record);
        }
      }
      asked := !limited;
      attempts := attempts + [a];
      assert attempts[..|attempts| - 1] == old(attempts);
      assert store.entries == After(cfg, before, a);
    }

    method IsLimited(ip: string, user: string, now: Time) returns (limited: bool)
      modifies store
      ensures limited == Limited(old(store.entries), ip, user, now)
      ensures store.entries == Checked(old(store.entries), ip, user, now)
    {
      if ip == "" {
        return false;
      }
      if user != "" {
        IpKeysAreOwn(ip, ip, user);
        limited := store.Exists(LockPair(ip, user), now);
        if limited {
          return;
        }
      }
      limited := store.Exists(LockIp(ip), now);
    }

    method RecordFailure(ip: string, user: string, now: Time)
      modifies store
      ensures store.entries == Failed(cfg, old(store.entries), ip, user, now)
    {
      if ip == "" {
        return;
      }
      if user != "" {
        Count(FailPair(ip, user), LockPair(ip, user), cfg.maxPerPair, now);
      }
      Count(FailIp(ip), LockIp(ip), cfg.maxPerIp, now);
    }

    method Count(counter: Key, lock: Key, max: int, now: Time)
      modifies store
      ensures store.entries == Counted(cfg, old(store.entries), counter, lock, max, now)
    {
      if max <= 0 {
        return;
      }
      var n := store.Incr(counter, cfg.window, now);
      if n >= max {
        store.Set(lock, cfg.lockout, now);
      }
    }

    /** Only the pair is cleared: the address keeps what it has against it. */
    method RecordSuccess(ip: string, user: string)
      modifies store
      ensures store.entries == Succeeded(old(store.entries), ip, user)
    {
      if ip == "" || user == "" {
        return;
      }
      store.Del(FailPair(ip, user), LockPair(ip, user));
    }
  }
}
