/**
  The peer gate's connection-rate counter: accepts per key in a fixed window, kept
  in two generations of bounded size, and one report for each window in which the
  threshold is reached. Eviction may lose counts; these are the limits of the harm.
 */
module ConnRate {
  import opened Text

  type Key = string

  datatype Entry = Entry(count: nat, start: int, reported: bool)

  datatype Counter = Counter(cur: map<Key, Entry>, prev: map<Key, Entry>)

  datatype Params = Params(threshold: nat, max: nat, window: nat)

  datatype Accept = Accept(key: Key, now: int)

  predicate ValidParams(p: Params) {
    p.threshold > 0 && p.max > 0 && p.window > 0
  }

  // -------------------------------------------------------------- operations

  function Find(c: Counter, k: Key): Option<Entry> {
    if k in c.cur then Some(c.cur[k]) else if k in c.prev then Some(c.prev[k]) else None
  }

  /** The entry the accept is counted in: a lapsed window starts again. */
  function Opened(p: Params, e: Entry, now: int): Entry {
    if now - e.start >= p.window then Entry(0, now, false) else e
  }

  predicate Crosses(p: Params, e: Entry) {
    e.count + 1 >= p.threshold && !e.reported
  }

  function Bumped(p: Params, e: Entry): Entry {
    Entry(e.count + 1, e.start, e.reported || Crosses(p, e))
  }

  /** The window in which an accept of k is counted. */
  function OpenedFor(p: Params, c: Counter, a: Accept): Entry {
    Opened(p, if Find(c, a.key).Some? then Find(c, a.key).value else Entry(0, a.now, false), a.now)
  }

  predicate Reports(p: Params, c: Counter, a: Accept) {
    Crosses(p, OpenedFor(p, c, a))
  }

  /** Stores an entry where its key is, or else in the newer generation, making room by a roll. */
  function Store(p: Params, c: Counter, k: Key, e: Entry): Counter {
    if k in c.cur then c.(cur := c.cur[k := e])
    else if k in c.prev then
      if |c.cur| < p.max then Counter(c.cur[k := e], c.prev - {k}) else c.(prev := c.prev[k := e])
    else if |c.cur| >= p.max then Counter(map[k := e], c.cur)
    else c.(cur := c.cur[k := e])
  }

  function Observed(p: Params, c: Counter, a: Accept): Counter {
    Store(p, c, a.key, Bumped(p, OpenedFor(p, c, a)))
  }

  function Final(p: Params, h: seq<Accept>): Counter {
    if h == [] then Counter(map[], map[]) else Observed(p, Final(p, h[..|h| - 1]), h[|h| - 1])
  }

  // --------------------------------------------------------------- histories

  predicate Ordered(h: seq<Accept>) {
    |h| >= 2 ==> h[|h| - 2].now <= h[|h| - 1].now && Ordered(h[..|h| - 1])
  }

  /** How many accepts of k there were at or after a time. */
  function CountSince(h: seq<Accept>, k: Key, t: int): nat {
    if h == [] then 0
    else CountSince(h[..|h| - 1], k, t) + Once(h[|h| - 1].key == k && h[|h| - 1].now >= t)
  }

  function Accepts(h: seq<Accept>, k: Key): nat {
    if h == [] then 0 else Accepts(h[..|h| - 1], k) + Once(h[|h| - 1].key == k)
  }

  function Once(b: bool): nat {
    if b then 1 else 0
  }

  function ReportCount(p: Params, h: seq<Accept>, k: Key): nat {
    if h == [] then 0
    else ReportCount(p, h[..|h| - 1], k) + Once(h[|h| - 1].key == k && Reports(p, Final(p, h[..|h| - 1]), h[|h| - 1]))
  }

  lemma FinalOfLonger(p: Params, h: seq<Accept>, a: Accept)
    ensures Final(p, h + [a]) == Observed(p, Final(p, h), a)
    ensures Ordered(h) && (h != [] ==> h[|h| - 1].now <= a.now) ==> Ordered(h + [a])
  {
    assert (h + [a])[..|h + [a]| - 1] == h;
  }

  // --------------------------------------------------------- size and sharing

  predicate WellFormed(p: Params, c: Counter) {
    c.cur.Keys !! c.prev.Keys && |c.cur| <= p.max && |c.prev| <= p.max
  }

  lemma StoreKeepsWellFormed(p: Params, c: Counter, k: Key, e: Entry)
    requires ValidParams(p) && WellFormed(p, c)
    ensures WellFormed(p, Store(p, c, k, e))
  {
    InsertSize(c.cur, k, e);
    if k in c.prev {
      InsertSize(c.prev, k, e);
      assert c.prev.Keys + {k} == c.prev.Keys;
      assert (c.prev - {k}).Keys == c.prev.Keys - {k};
    } else {
      assert map[k := e].Keys == {k};
    }
  }

  lemma InsertSize(m: map<Key, Entry>, k: Key, e: Entry)
    ensures m[k := e].Keys == m.Keys + {k}
    ensures |m[k := e]| == |m| + Once(k !in m)
  {
    assert m[k := e].Keys == m.Keys + {k};
    assert k in m ==> m.Keys + {k} == m.Keys;
  }

  /** No key is in both generations, and together they hold at most twice the configured size. */
  lemma {:induction false} SizeIsBounded(p: Params, h: seq<Accept>)
    requires ValidParams(p)
    ensures WellFormed(p, Final(p, h))
    ensures |Final(p, h).cur| + |Final(p, h).prev| <= 2 * p.max
    decreases |h|
  {
    if h != [] {
      SizeIsBounded(p, h[..|h| - 1]);
      var c, a := Final(p, h[..|h| - 1]), h[|h| - 1];
      StoreKeepsWellFormed(p, c, a.key, Bumped(p, OpenedFor(p, c, a)));
    }
  }

  /** An accept changes no other key's entry, except that a roll may lose it. */
  lemma StoreLeavesOthers(p: Params, c: Counter, k: Key, e: Entry, other: Key)
    requires WellFormed(p, c) && other != k
    ensures Find(Store(p, c, k, e), other) == Find(c, other) || Find(Store(p, c, k, e), other) == None
  {
    assert other in c.cur ==> other !in c.prev;
  }

  lemma StoreStores(p: Params, c: Counter, k: Key, e: Entry)
    ensures Find(Store(p, c, k, e), k) == Some(e)
  {
  }

  // ---------------------------------------------------------------- soundness

  /** The entry of k, if any, counts accepts that did happen since its window began. */
  predicate Backed(h: seq<Accept>, e: Option<Entry>, k: Key) {
    e.Some? ==> h != [] && e.value.start <= h[|h| - 1].now && e.value.count <= CountSince(h, k, e.value.start)
  }

  lemma {:induction false} EntriesAreBacked(p: Params, h: seq<Accept>, k: Key)
    requires ValidParams(p) && Ordered(h)
    ensures Backed(h, Find(Final(p, h), k), k)
    decreases |h|
  {
    if h != [] {
      EntriesAreBacked(p, h[..|h| - 1], k);
      SizeIsBounded(p, h[..|h| - 1]);
      ObserveKeepsBacked(p, Final(p, h[..|h| - 1]), h, k);
    }
  }

  lemma ObserveKeepsBacked(p: Params, c: Counter, h: seq<Accept>, k: Key)
    requires ValidParams(p) && WellFormed(p, c) && h != [] && Ordered(h) && Backed(h[..|h| - 1], Find(c, k), k)
    ensures Backed(h, Find(Observed(p, c, h[|h| - 1]), k), k)
  {
    var a := h[|h| - 1];
    var e := OpenedFor(p, c, a);
    if a.key != k {
      StoreLeavesOthers(p, c, a.key, Bumped(p, e), k);
    } else {
      StoreStores(p, c, a.key, Bumped(p, e));
    }
  }

  /**
    A report is never made without cause: at least threshold accepts of that key
    happened less than one window ago.
   */
  lemma {:induction false} ReportHasCause(p: Params, h: seq<Accept>, a: Accept)
    requires ValidParams(p) && Ordered(h)
    requires Reports(p, Final(p, h), a)
    ensures CountSince(h, a.key, a.now - p.window + 1) + 1 >= p.threshold
  {
    EntriesAreBacked(p, h, a.key);
    WindowIsRecent(p, Final(p, h), a, h);
  }

  lemma WindowIsRecent(p: Params, c: Counter, a: Accept, h: seq<Accept>)
    requires ValidParams(p) && Backed(h, Find(c, a.key), a.key)
    ensures OpenedFor(p, c, a).count <= CountSince(h, a.key, a.now - p.window + 1)
  {
    var e := OpenedFor(p, c, a);
    if e.count > 0 {
      CountSinceGrows(h, a.key, a.now - p.window + 1, e.start);
    }
  }

  lemma {:induction false} CountSinceGrows(h: seq<Accept>, k: Key, t: int, u: int)
    requires t <= u
    ensures CountSince(h, k, u) <= CountSince(h, k, t)
  {
    if h != [] {
      CountSinceGrows(h[..|h| - 1], k, t, u);
    }
  }

  // ------------------------------------------------------------- conservation

  /** The accepts that count towards the next report of k. */
  function Pending(c: Counter, k: Key): nat {
    var e := Find(c, k);
    if e.Some? && !e.value.reported then e.value.count else 0
  }

  /** An unreported entry is below the threshold. */
  predicate BelowThreshold(p: Params, c: Counter, k: Key) {
    Pending(c, k) < p.threshold
  }

  lemma ObserveConserves(p: Params, c: Counter, a: Accept, k: Key)
    requires ValidParams(p) && WellFormed(p, c) && BelowThreshold(p, c, k)
    ensures BelowThreshold(p, Observed(p, c, a), k)
    ensures a.key != k ==> Pending(Observed(p, c, a), k) <= Pending(c, k)
    ensures a.key == k ==> Pending(Observed(p, c, a), k) + Cost(p, Reports(p, c, a)) <= Pending(c, k) + 1
  {
    var e := OpenedFor(p, c, a);
    if a.key != k {
      StoreLeavesOthers(p, c, a.key, Bumped(p, e), k);
    } else {
      StoreStores(p, c, a.key, Bumped(p, e));
    }
  }

  function Cost(p: Params, report: bool): nat {
    if report then p.threshold else 0
  }

  /** What the reports of k cost in all. */
  function Charged(p: Params, h: seq<Accept>, k: Key): nat {
    if h == [] then 0
    else Charged(p, h[..|h| - 1], k) + Cost(p, h[|h| - 1].key == k && Reports(p, Final(p, h[..|h| - 1]), h[|h| - 1]))
  }

  lemma {:induction false} ChargedForReports(p: Params, h: seq<Accept>, k: Key)
    ensures Charged(p, h, k) == p.threshold * ReportCount(p, h, k)
    decreases |h|
  {
    if h != [] {
      ChargedForReports(p, h[..|h| - 1], k);
      CostOfReports(p, ReportCount(p, h[..|h| - 1], k), h[|h| - 1].key == k && Reports(p, Final(p, h[..|h| - 1]), h[|h| - 1]));
    }
  }

  lemma CostOfReports(p: Params, n: nat, report: bool)
    ensures p.threshold * (n + Once(report)) == p.threshold * n + Cost(p, report)
  {
  }

  lemma {:induction false} ChargesArePaid(p: Params, h: seq<Accept>, k: Key)
    requires ValidParams(p)
    ensures BelowThreshold(p, Final(p, h), k)
    ensures Charged(p, h, k) + Pending(Final(p, h), k) <= Accepts(h, k)
    decreases |h|
  {
    if h != [] {
      ChargesArePaid(p, h[..|h| - 1], k);
      SizeIsBounded(p, h[..|h| - 1]);
      ObserveConserves(p, Final(p, h[..|h| - 1]), h[|h| - 1], k);
    }
  }

  /** Every report is paid for by threshold accepts of its key, each used once. */
  lemma {:induction false} ReportsArePaidFor(p: Params, h: seq<Accept>, k: Key)
    requires ValidParams(p)
    ensures p.threshold * ReportCount(p, h, k) + Pending(Final(p, h), k) <= Accepts(h, k)
  {
    ChargesArePaid(p, h, k);
    ChargedForReports(p, h, k);
  }

  // ---------------------------------------------- agreement with plain counting

  /** The plain counter of one key: a fixed window, nothing evicted. */
  function Plain(p: Params, h: seq<Accept>, k: Key): Option<Entry> {
    if h == [] then None
    else
      var rest, a := h[..|h| - 1], h[|h| - 1];
      if a.key != k then Plain(p, rest, k)
      else Some(Bumped(p, Opened(p, if Plain(p, rest, k).Some? then Plain(p, rest, k).value else Entry(0, a.now, false), a.now)))
  }

  function Keys(h: seq<Accept>): set<Key> {
    set i | 0 <= i < |h| :: h[i].key
  }

  lemma KeysOfLonger(h: seq<Accept>)
    requires h != []
    ensures Keys(h) == Keys(h[..|h| - 1]) + {h[|h| - 1].key}
  {
    var rest := h[..|h| - 1];
    forall k | k in Keys(h) ensures k in Keys(rest) + {h[|h| - 1].key} {
      var i :| 0 <= i < |h| && h[i].key == k;
      assert i < |rest| ==> rest[i].key == k;
    }
    forall k | k in Keys(rest) ensures k in Keys(h) {
      var i :| 0 <= i < |rest| && rest[i].key == k;
      assert h[i].key == k;
    }
    assert h[|h| - 1].key in Keys(h);
  }

  /** As long as no more keys were seen than fit, nothing is evicted and the counter is the plain one. */
  lemma {:induction false} FewKeysIsPlain(p: Params, h: seq<Accept>, k: Key)
    requires ValidParams(p) && |Keys(h)| <= p.max
    ensures Final(p, h).prev == map[] && Final(p, h).cur.Keys == Keys(h)
    ensures Find(Final(p, h), k) == Plain(p, h, k)
    decreases |h|
  {
    if h != [] {
      var rest, a := h[..|h| - 1], h[|h| - 1];
      KeysOfLonger(h);
      FewerKeys(Keys(rest), a.key);
      FewKeysIsPlain(p, rest, k);
      FewKeysIsPlain(p, rest, a.key);
      var c := Final(p, rest);
      InsertSize(c.cur, a.key, Bumped(p, OpenedFor(p, c, a)));
      assert |c.cur| == |c.cur.Keys|;
      StoreStores(p, c, a.key, Bumped(p, OpenedFor(p, c, a)));
    }
  }

  lemma FewerKeys(s: set<Key>, k: Key)
    ensures |s| <= |s + {k}|
    ensures k !in s ==> |s| < |s + {k}|
  {
    assert k in s ==> s + {k} == s;
    assert k !in s ==> s * {k} == {};
  }

  // ------------------------------------------------------------------ promotion

  predicate Seen(h: seq<Accept>, k: Key) {
    h != [] && (h[|h| - 1].key == k || Seen(h[..|h| - 1], k))
  }

  /** How many accepts there were since the last one of k. */
  function Gap(h: seq<Accept>, k: Key): nat {
    if h == [] || h[|h| - 1].key == k then 0 else Gap(h[..|h| - 1], k) + 1
  }

  /** From its first accept on, k is never absent for as many accepts as a generation holds. */
  predicate Frequent(p: Params, h: seq<Accept>, k: Key) {
    h != [] ==> Frequent(p, h[..|h| - 1], k) && (Seen(h, k) ==> Gap(h, k) < p.max)
  }

  /** The entry is in the newer generation, or that has taken in at most gap keys since. */
  predicate Kept(c: Counter, k: Key, e: Option<Entry>, gap: nat) {
    if e.None? then Find(c, k) == None
    else (k in c.cur && c.cur[k] == e.value) || (k !in c.cur && k in c.prev && c.prev[k] == e.value && |c.cur| <= gap)
  }

  lemma OtherIsKept(p: Params, c: Counter, a: Accept, k: Key, e: Option<Entry>, gap: nat)
    requires ValidParams(p) && WellFormed(p, c) && Kept(c, k, e, gap) && a.key != k && (e.Some? ==> gap < p.max)
    ensures Kept(Observed(p, c, a), k, e, gap + 1)
  {
    var b := Bumped(p, OpenedFor(p, c, a));
    InsertSize(c.cur, a.key, b);
    assert |map[a.key := b]| == 1;
  }

  lemma OwnIsPromoted(p: Params, c: Counter, a: Accept, e: Option<Entry>, gap: nat)
    requires ValidParams(p) && Kept(c, a.key, e, gap) && (e.Some? ==> gap < p.max)
    ensures Kept(Observed(p, c, a), a.key, Some(Bumped(p, OpenedFor(p, c, a))), 0)
  {
  }

  /**
    What promotion is for: a key that keeps connecting is counted as if nothing
    were ever evicted, however many other keys there are.
   */
  lemma {:induction false} FrequentIsPlain(p: Params, h: seq<Accept>, k: Key)
    requires ValidParams(p) && Frequent(p, h, k)
    ensures Find(Final(p, h), k) == Plain(p, h, k)
    ensures Kept(Final(p, h), k, Plain(p, h, k), Gap(h, k)) && (Plain(p, h, k).Some? <==> Seen(h, k))
    decreases |h|
  {
    if h != [] {
      var rest, a := h[..|h| - 1], h[|h| - 1];
      FrequentIsPlain(p, rest, k);
      SizeIsBounded(p, rest);
      if a.key == k {
        OwnIsPromoted(p, Final(p, rest), a, Plain(p, rest, k), Gap(rest, k));
      } else {
        OtherIsKept(p, Final(p, rest), a, k, Plain(p, rest, k), Gap(rest, k));
      }
    }
  }

  // ----------------------------------------------------- when a report is made

  /** When the current window of k began: with the first accept, and again with each one that comes a window later. */
  function WindowStart(p: Params, h: seq<Accept>, k: Key): Option<int> {
    if h == [] then None
    else
      var before, a := WindowStart(p, h[..|h| - 1], k), h[|h| - 1];
      if a.key != k then before
      else if before.None? || a.now >= before.value + p.window then Some(a.now)
      else before
  }

  /** The accepts of k in its current window. */
  function InWindow(p: Params, h: seq<Accept>, k: Key): nat {
    match WindowStart(p, h, k)
    case None => 0
    case Some(start) => CountSince(h, k, start)
  }

  predicate CountsWindow(p: Params, h: seq<Accept>, k: Key, e: Option<Entry>) {
    match e
    case None => WindowStart(p, h, k).None?
    case Some(e) =>
      && WindowStart(p, h, k) == Some(e.start)
      && e.count == InWindow(p, h, k)
      && (e.reported <==> e.count >= p.threshold)
  }

  /** No accept of k is later than its window. */
  lemma {:induction false} NothingLater(p: Params, h: seq<Accept>, k: Key, t: int)
    requires ValidParams(p) && Ordered(h)
    requires WindowStart(p, h, k).Some? ==> t >= WindowStart(p, h, k).value + p.window
    ensures CountSince(h, k, t) == 0
    decreases |h|
  {
    if h != [] {
      NothingLater(p, h[..|h| - 1], k, t);
    }
  }

  lemma {:induction false} StartIsPast(p: Params, h: seq<Accept>, k: Key)
    requires Ordered(h) && WindowStart(p, h, k).Some?
    ensures h != [] && WindowStart(p, h, k).value <= h[|h| - 1].now
    decreases |h|
  {
    if |h| >= 2 && WindowStart(p, h[..|h| - 1], k).Some? {
      StartIsPast(p, h[..|h| - 1], k);
    }
  }

  lemma {:induction false} PlainCountsWindow(p: Params, h: seq<Accept>, k: Key)
    requires ValidParams(p) && Ordered(h)
    ensures CountsWindow(p, h, k, Plain(p, h, k))
    decreases |h|
  {
    if h != [] {
      var rest, a := h[..|h| - 1], h[|h| - 1];
      PlainCountsWindow(p, rest, k);
      if a.key == k {
        StartIsPast(p, h, k);
        if WindowStart(p, rest, k).None? || a.now >= WindowStart(p, rest, k).value + p.window {
          NothingLater(p, rest, k, a.now);
        }
      }
    }
  }

  /** As long as nothing of its key was evicted, an accept is reported exactly when it brings its window to the threshold. */
  lemma ReportsAtThreshold(p: Params, h: seq<Accept>, a: Accept)
    requires ValidParams(p) && Ordered(h + [a]) && (|Keys(h)| <= p.max || Frequent(p, h, a.key))
    ensures Reports(p, Final(p, h), a) <==> InWindow(p, h + [a], a.key) == p.threshold
  {
    var longer := h + [a];
    assert longer[..|longer| - 1] == h && longer[|h|] == a;
    if |Keys(h)| <= p.max {
      FewKeysIsPlain(p, h, a.key);
    } else {
      FrequentIsPlain(p, h, a.key);
    }
    PlainCountsWindow(p, h, a.key);
    PlainCountsWindow(p, longer, a.key);
  }

  // --------------------------------------------------------------- the counter

  class RateCounter {
    const params: Params
    var cur: map<Key, Entry>
    var prev: map<Key, Entry>
    ghost var history: seq<Accept>

    ghost function Value(): Counter
      reads this
    {
      Counter(cur, prev)
    }

    ghost predicate Valid()
      reads this
    {
      ValidParams(params) && Ordered(history) && Value() == Final(params, history)
    }

    constructor (params: Params)
      requires ValidParams(params)
      ensures Valid() && this.params == params && history == []
    {
      this.params := params;
      cur, prev, history := map[], map[], [];
    }

    /** Counts one accept. */
    method Observe(key: Key, now: int) returns (crossed: bool)
      requires Valid() && (history != [] ==> history[|history| - 1].now <= now)
      modifies this
      ensures Valid() && history == old(history) + [Accept(key, now)]
      ensures crossed == Reports(params, old(Value()), Accept(key, now))
    {
      ghost var a := Accept(key, now);
      SizeIsBounded(params, history);
      FinalOfLonger(params, history, a);
      crossed := Count(key, now);
      history := history + [a];
    }

    method Count(key: Key, now: int) returns (crossed: bool)
      requires ValidParams(params) && WellFormed(params, Value())
      modifies this`cur, this`prev
      ensures Value() == Observed(params, old(Value()), Accept(key, now))
      ensures crossed == Reports(params, old(Value()), Accept(key, now))
    {
      var entry := Lookup(key);
      if entry.None? {
        if |cur| >= params.max {
          prev := cur;
          cur := map[];
        }
        entry := Some(Entry(0, now, false));
      }
      var e := Opened(params, entry.value, now);
      crossed := Crosses(params, e);
      if key in prev {
        prev := prev[key := Bumped(params, e)];
      } else {
        cur := cur[key := Bumped(params, e)];
      }
    }

    /** Finds the entry, moving it to the newer generation when there is room. */
    method Lookup(key: Key) returns (entry: Option<Entry>)
      requires WellFormed(params, Value())
      modifies this`cur, this`prev
      ensures entry == old(Find(Value(), key))
      ensures cur.Keys !! prev.Keys
      ensures old(key !in cur && key in prev && |cur| < params.max) ==>
        entry.Some? && cur == old(cur)[key := entry.value] && prev == old(prev) - {key}
      ensures !old(key !in cur && key in prev && |cur| < params.max) ==> cur == old(cur) && prev == old(prev)
    {
      if key in cur {
        return Some(cur[key]);
      }
      if key !in prev {
        return None;
      }
      entry := Some(prev[key]);
      if |cur| < params.max {
        cur := cur[key := prev[key]];
        prev := prev - {key};
      }
    }
  }
}
