/**
  The peer gate's verdict cache: two generations instead of one map, so that an
  insert never has to look for something to evict. Compared here with a plain map
  that never evicts, over any sequence of lookups, inserts and removals.
 */
module PeerGate {
  import opened Text

  type Key = string
  type Time = int

  datatype Verdict = Verdict(banned: bool, shadowBanned: bool, tarpit: nat, reason: string)

  const DEFAULT_CACHE_SIZE: nat := 8192

  const PASS := Verdict(false, false, 0, "")

  datatype Entry = Entry(verdict: Verdict, expires: Time)

  datatype Cache = Cache(cur: map<Key, Entry>, prev: map<Key, Entry>)

  datatype Op = Get(key: Key, now: Time) | Put(key: Key, entry: Entry) | Forget(key: Key)

  // -------------------------------------------------------------- operations

  function Lookup(c: Cache, k: Key): Option<Entry> {
    if k in c.cur then Some(c.cur[k]) else if k in c.prev then Some(c.prev[k]) else None
  }

  /** The verdict a lookup returns: the newer generation's entry, when it is still live. */
  function Hit(c: Cache, k: Key, now: Time): Option<Verdict> {
    var e := Lookup(c, k);
    if e.Some? && now < e.value.expires then Some(e.value.verdict) else None
  }

  /** An expired entry is removed from the generation it was found in. */
  function AfterGet(c: Cache, k: Key, now: Time): Cache {
    var e := Lookup(c, k);
    if e.None? || now < e.value.expires then c
    else if k in c.cur then c.(cur := c.cur - {k})
    else c.(prev := c.prev - {k})
  }

  function AfterPut(c: Cache, max: nat, k: Key, e: Entry): Cache {
    if |c.cur| >= max then Cache(map[k := e], c.cur) else c.(cur := c.cur[k := e])
  }

  function AfterForget(c: Cache, k: Key): Cache {
    Cache(c.cur - {k}, c.prev - {k})
  }

  function Apply(c: Cache, max: nat, op: Op): Cache {
    match op
    case Get(k, now) => AfterGet(c, k, now)
    case Put(k, e) => AfterPut(c, max, k, e)
    case Forget(k) => AfterForget(c, k)
  }

  function Final(max: nat, ops: seq<Op>): Cache {
    if ops == [] then Cache(map[], map[]) else Apply(Final(max, ops[..|ops| - 1]), max, ops[|ops| - 1])
  }

  // ------------------------------------------------------- what was inserted

  /** What a map that never evicts holds for k. */
  function Newest(ops: seq<Op>, k: Key): Option<Entry> {
    if ops == [] then None else
    var op := ops[|ops| - 1];
    if op.Get? || op.key != k then Newest(ops[..|ops| - 1], k)
    else if op.Put? then Some(op.entry) else None
  }

  /** Everything inserted for k since it was last forgotten. */
  function Inserted(ops: seq<Op>, k: Key): set<Entry> {
    if ops == [] then {} else
    var op := ops[|ops| - 1];
    if op.Get? || op.key != k then Inserted(ops[..|ops| - 1], k)
    else if op.Put? then Inserted(ops[..|ops| - 1], k) + {op.entry} else {}
  }

  predicate Disjoint(c: Cache) {
    c.cur.Keys !! c.prev.Keys
  }

  /** Inserting k now would leave an older entry for it behind in the other generation. */
  predicate Clash(c: Cache, max: nat, k: Key) {
    if |c.cur| >= max then k in c.cur else k in c.prev
  }

  lemma PutKeepsDisjointIff(c: Cache, max: nat, k: Key, e: Entry)
    requires Disjoint(c)
    ensures Disjoint(AfterPut(c, max, k, e)) <==> !Clash(c, max, k)
  {
    if |c.cur| >= max {
      assert map[k := e].Keys == {k};
      assert {k} !! c.cur.Keys <==> k !in c.cur;
    } else {
      InsertKeepsDisjointIff(c.cur, c.prev, k, e);
    }
  }

  lemma InsertKeepsDisjointIff(m: map<Key, Entry>, n: map<Key, Entry>, k: Key, e: Entry)
    requires m.Keys !! n.Keys
    ensures m[k := e].Keys !! n.Keys <==> k !in n
  {
    assert m[k := e].Keys == m.Keys + {k};
  }

  /** No insert of the run leaves an older entry behind. */
  predicate Careful(max: nat, ops: seq<Op>) {
    ops != [] ==>
      && Careful(max, ops[..|ops| - 1])
      && (ops[|ops| - 1].Put? ==> !Clash(Final(max, ops[..|ops| - 1]), max, ops[|ops| - 1].key))
  }

  // -------------------------------------------------------------- invariants

  predicate Bounded(c: Cache, max: nat) {
    |c.cur| <= max && |c.prev| <= max
  }

  lemma ApplyKeepsBounded(c: Cache, max: nat, op: Op)
    requires max > 0 && Bounded(c, max)
    ensures Bounded(Apply(c, max, op), max)
  {
    DeleteShrinks(c.cur, op.key);
    DeleteShrinks(c.prev, op.key);
    if op.Put? {
      InsertGrows(c.cur, op.key, op.entry);
      assert |map[op.key := op.entry]| == 1;
    }
  }

  lemma InsertGrows(m: map<Key, Entry>, k: Key, e: Entry)
    ensures |m[k := e]| <= |m| + 1
  {
    assert m[k := e].Keys == m.Keys + {k};
  }

  lemma DeleteShrinks(m: map<Key, Entry>, k: Key)
    ensures |m - {k}| <= |m|
  {
    assert (m - {k}).Keys == m.Keys - {k};
  }

  /** Both generations together hold at most twice the configured size, whatever is asked of the cache. */
  lemma {:induction false} SizeIsBounded(max: nat, ops: seq<Op>)
    requires max > 0
    ensures Bounded(Final(max, ops), max)
    ensures |Final(max, ops).cur| + |Final(max, ops).prev| <= 2 * max
    decreases |ops|
  {
    if ops != [] {
      SizeIsBounded(max, ops[..|ops| - 1]);
      ApplyKeepsBounded(Final(max, ops[..|ops| - 1]), max, ops[|ops| - 1]);
    }
  }

  /** Each generation holds for k only what was inserted since k was last forgotten. */
  lemma {:induction false} HoldsOnlyInserted(max: nat, ops: seq<Op>, k: Key)
    ensures k in Final(max, ops).cur ==> Final(max, ops).cur[k] in Inserted(ops, k)
    ensures k in Final(max, ops).prev ==> Final(max, ops).prev[k] in Inserted(ops, k)
    decreases |ops|
  {
    if ops != [] {
      HoldsOnlyInserted(max, ops[..|ops| - 1], k);
    }
  }

  ghost predicate WasInserted(ops: seq<Op>, k: Key, v: Verdict, now: Time) {
    exists e :: e in Inserted(ops, k) && e.verdict == v && now < e.expires
  }

  /** Every hit is a verdict inserted for that key since it was last forgotten, and still live. */
  lemma HitWasInserted(max: nat, ops: seq<Op>, k: Key, now: Time)
    ensures Hit(Final(max, ops), k, now).Some? ==> WasInserted(ops, k, Hit(Final(max, ops), k, now).value, now)
  {
    HoldsOnlyInserted(max, ops, k);
  }

  lemma {:induction false} CarefulIsDisjoint(max: nat, ops: seq<Op>)
    requires Careful(max, ops)
    ensures Disjoint(Final(max, ops))
    decreases |ops|
  {
    if ops != [] {
      var before := Final(max, ops[..|ops| - 1]);
      CarefulIsDisjoint(max, ops[..|ops| - 1]);
      if ops[|ops| - 1].Put? {
        PutKeepsDisjointIff(before, max, ops[|ops| - 1].key, ops[|ops| - 1].entry);
      }
    }
  }

  /** The cache holds for k nothing but the newest entry. */
  predicate Agrees(c: Cache, k: Key, newest: Option<Entry>) {
    Lookup(c, k).Some? ==> Lookup(c, k) == newest
  }

  lemma {:induction false} CarefulAgrees(max: nat, ops: seq<Op>, k: Key)
    requires Careful(max, ops)
    ensures Agrees(Final(max, ops), k, Newest(ops, k))
    decreases |ops|
  {
    if ops != [] {
      CarefulAgrees(max, ops[..|ops| - 1], k);
      CarefulIsDisjoint(max, ops[..|ops| - 1]);
      ApplyAgrees(Final(max, ops[..|ops| - 1]), max, ops[|ops| - 1], k, Newest(ops[..|ops| - 1], k));
    }
  }

  function NewestAfter(newest: Option<Entry>, op: Op, k: Key): Option<Entry> {
    if op.Get? || op.key != k then newest else if op.Put? then Some(op.entry) else None
  }

  lemma ApplyAgrees(c: Cache, max: nat, op: Op, k: Key, newest: Option<Entry>)
    requires Disjoint(c) && Agrees(c, k, newest)
    ensures Agrees(Apply(c, max, op), k, NewestAfter(newest, op, k))
  {
    assert k in c.cur ==> k !in c.prev;
  }

  /** A map that never evicts would answer v. */
  predicate IsNewest(ops: seq<Op>, k: Key, v: Verdict, now: Time) {
    Newest(ops, k).Some? && Newest(ops, k).value.verdict == v && now < Newest(ops, k).value.expires
  }

  /** When no insert of the run clashes, every hit is the newest verdict, whatever the clock does. */
  lemma CarefulHitIsNewest(max: nat, ops: seq<Op>, k: Key, now: Time)
    requires Careful(max, ops)
    ensures Hit(Final(max, ops), k, now).Some? ==> IsNewest(ops, k, Hit(Final(max, ops), k, now).value, now)
  {
    CarefulAgrees(max, ops, k);
  }

  // ------------------------------------------------------------------- clashes

  /** The older entry that inserting k leaves behind. */
  function Left(c: Cache, max: nat, k: Key): Entry
    requires Clash(c, max, k)
  {
    if |c.cur| >= max then c.cur[k] else c.prev[k]
  }

  /** Nothing is left behind that outlives the new entry. */
  predicate Harmless(c: Cache, max: nat, k: Key, newer: Entry) {
    Clash(c, max, k) ==> Left(c, max, k).expires <= newer.expires
  }

  /** A lookup that finds the new entry expired removes it; a second one at the same time finds something. */
  predicate BringsBack(c: Cache, max: nat, k: Key, newer: Entry, now: Time) {
    newer.expires <= now && Hit(AfterGet(AfterPut(c, max, k, newer), k, now), k, now).Some?
  }

  /**
    An insert can bring an older verdict back if, and only if, it clashes with an
    entry that expires later than the new one. What comes back is that entry, at any
    time between the two expiries.
   */
  lemma BringsBackIff(c: Cache, max: nat, k: Key, newer: Entry)
    ensures (exists now :: BringsBack(c, max, k, newer, now)) <==> !Harmless(c, max, k, newer)
    ensures !Harmless(c, max, k, newer) ==> forall now | newer.expires <= now < Left(c, max, k).expires ::
      Hit(AfterGet(AfterPut(c, max, k, newer), k, now), k, now) == Some(Left(c, max, k).verdict)
  {
    if !Harmless(c, max, k, newer) {
      assert BringsBack(c, max, k, newer, newer.expires);
    }
  }

  /** No insert of the run leaves behind an entry that outlives the new one. */
  predicate HarmlessRun(max: nat, ops: seq<Op>) {
    ops != [] ==>
      var before, op := ops[..|ops| - 1], ops[|ops| - 1];
      HarmlessRun(max, before) && (op.Put? ==> Harmless(Final(max, before), max, op.key, op.entry))
  }

  /** All lookups of the run happened by now. */
  predicate By(ops: seq<Op>, now: Time) {
    forall i | 0 <= i < |ops| :: ops[i].Get? ==> ops[i].now <= now
  }

  /** The clock of the lookups does not go back. */
  predicate Timed(ops: seq<Op>) {
    ops != [] ==> Timed(ops[..|ops| - 1]) && (ops[|ops| - 1].Get? ==> By(ops[..|ops| - 1], ops[|ops| - 1].now))
  }

  /** What is found for k is the newest entry, or has expired. */
  predicate Settled(c: Cache, k: Key, newest: Option<Entry>, now: Time) {
    && (k in c.cur ==> newest == Some(c.cur[k]))
    && (k in c.prev && k !in c.cur ==> newest == Some(c.prev[k]) || c.prev[k].expires <= now)
    && (k in c.prev && k in c.cur ==> c.prev[k].expires <= c.cur[k].expires)
  }

  lemma ApplySettles(c: Cache, max: nat, op: Op, k: Key, newest: Option<Entry>, now: Time)
    requires Settled(c, k, newest, if op.Get? then op.now else now) && (op.Get? ==> op.now <= now)
    requires op.Put? ==> Harmless(c, max, op.key, op.entry)
    ensures Settled(Apply(c, max, op), k, NewestAfter(newest, op, k), now)
  {
  }

  lemma {:induction false} HarmlessSettles(max: nat, ops: seq<Op>, k: Key, now: Time)
    requires HarmlessRun(max, ops) && Timed(ops) && By(ops, now)
    ensures Settled(Final(max, ops), k, Newest(ops, k), now)
    decreases |ops|
  {
    if ops != [] {
      var before, op := ops[..|ops| - 1], ops[|ops| - 1];
      HarmlessSettles(max, before, k, if op.Get? then op.now else now);
      ApplySettles(Final(max, before), max, op, k, Newest(before, k), now);
    }
  }

  /**
    With a clock that does not go back, when no insert of the run leaves behind an
    entry that outlives the new one, every hit is what a map that never evicts would
    answer. By BringsBackIff no weaker condition on the inserts would do.
   */
  lemma HitIsNewest(max: nat, ops: seq<Op>, k: Key, now: Time)
    requires HarmlessRun(max, ops) && Timed(ops) && By(ops, now)
    ensures Hit(Final(max, ops), k, now).Some? ==> IsNewest(ops, k, Hit(Final(max, ops), k, now).value, now)
  {
    HarmlessSettles(max, ops, k, now);
  }

  /** A run in which no insert clashes is one of these. */
  lemma {:induction false} CarefulIsHarmless(max: nat, ops: seq<Op>)
    requires Careful(max, ops)
    ensures HarmlessRun(max, ops)
    decreases |ops|
  {
    if ops != [] {
      CarefulIsHarmless(max, ops[..|ops| - 1]);
    }
  }

  /**
    The condition is exact: after any run, an insert that is not harmless is followed
    by a hit that a map that never evicts would not give.
   */
  lemma HarmfulHitsOlder(max: nat, ops: seq<Op>, k: Key, newer: Entry)
    requires !Harmless(Final(max, ops), max, k, newer)
    ensures var longer := ops + [Op.Put(k, newer)] + [Op.Get(k, newer.expires)];
      var hit := Hit(Final(max, longer), k, newer.expires);
      hit.Some? && !IsNewest(longer, k, hit.value, newer.expires)
  {
    var one := ops + [Op.Put(k, newer)];
    var two := one + [Op.Get(k, newer.expires)];
    assert one[..|one| - 1] == ops && two[..|two| - 1] == one;
    assert Newest(one, k) == Some(newer) && Newest(two, k) == Newest(one, k);
    BringsBackIff(Final(max, ops), max, k, newer);
  }

  /** After a removal nothing is found until the key is inserted again. */
  lemma {:induction false} ForgottenIsMissed(max: nat, ops: seq<Op>, later: seq<Op>, k: Key, now: Time)
    requires forall i | 0 <= i < |later| :: later[i].Put? ==> later[i].key != k
    ensures Hit(Final(max, ops + [Op.Forget(k)] + later), k, now) == None
  {
    NothingInserted(ops, later, k);
    HoldsOnlyInserted(max, ops + [Op.Forget(k)] + later, k);
  }

  lemma {:induction false} NothingInserted(ops: seq<Op>, later: seq<Op>, k: Key)
    requires forall i | 0 <= i < |later| :: later[i].Put? ==> later[i].key != k
    ensures Inserted(ops + [Op.Forget(k)] + later, k) == {}
    decreases |later|
  {
    var all := ops + [Op.Forget(k)] + later;
    if later == [] {
      assert all[..|all| - 1] == ops && all[|all| - 1] == Op.Forget(k);
    } else {
      NothingInserted(ops, later[..|later| - 1], k);
      assert all[..|all| - 1] == ops + [Op.Forget(k)] + later[..|later| - 1];
      assert all[|all| - 1] == later[|later| - 1];
    }
  }

  // ---------------------------------------------------------------- survival

  function Puts(ops: seq<Op>): nat {
    if ops == [] then 0 else Puts(ops[..|ops| - 1]) + if ops[|ops| - 1].Put? then 1 else 0
  }

  function RunFrom(c: Cache, max: nat, ops: seq<Op>): Cache {
    if ops == [] then c else Apply(RunFrom(c, max, ops[..|ops| - 1]), max, ops[|ops| - 1])
  }

  /** Nothing in the run removes or replaces the entry that k has, apart from evictions. */
  predicate LeavesAlone(op: Op, k: Key, e: Entry) {
    op.key == k ==> op.Get? && op.now < e.expires
  }

  /** After n inserts the entry is in the newer generation, or the newer one has at most n keys. */
  predicate Kept(c: Cache, k: Key, e: Entry, n: nat) {
    || (k in c.cur && c.cur[k] == e)
    || (k !in c.cur && k in c.prev && c.prev[k] == e && |c.cur| <= n)
  }

  lemma ApplyKeeps(c: Cache, max: nat, op: Op, k: Key, e: Entry, n: nat)
    requires Kept(c, k, e, n) && LeavesAlone(op, k, e) && max > 0
    requires op.Put? ==> n < max
    ensures Kept(Apply(c, max, op), k, e, if op.Put? then n + 1 else n)
  {
    DeleteShrinks(c.cur, op.key);
    if op.Put? {
      InsertGrows(c.cur, op.key, op.entry);
    }
  }

  /** An entry just inserted survives as many further inserts as the cache is large. */
  lemma {:induction false} SurvivesMaxInserts(c: Cache, max: nat, k: Key, e: Entry, ops: seq<Op>)
    requires max > 0 && k in c.cur && c.cur[k] == e
    requires forall i | 0 <= i < |ops| :: LeavesAlone(ops[i], k, e)
    requires Puts(ops) <= max
    ensures Lookup(RunFrom(c, max, ops), k) == Some(e)
    ensures Kept(RunFrom(c, max, ops), k, e, Puts(ops))
    decreases |ops|
  {
    if ops != [] {
      SurvivesMaxInserts(c, max, k, e, ops[..|ops| - 1]);
      ApplyKeeps(RunFrom(c, max, ops[..|ops| - 1]), max, ops[|ops| - 1], k, e, Puts(ops[..|ops| - 1]));
    }
  }

  // ---------------------------------------------------------------- the gate

  function CacheKey(ip: string, authFacing: bool): Key {
    (if authFacing then "a:" else "i:") + ip
  }

  lemma CacheKeyInjective(ip: string, authFacing: bool, ip': string, authFacing': bool)
    ensures CacheKey(ip, authFacing) == CacheKey(ip', authFacing') <==> ip == ip' && authFacing == authFacing'
  {
    var k, k' := CacheKey(ip, authFacing), CacheKey(ip', authFacing');
    assert k[0] == (if authFacing then 'a' else 'i') && k[2..] == ip;
    assert k'[0] == (if authFacing' then 'a' else 'i') && k'[2..] == ip';
  }

  /** The gate, with the history of what it has asked of its cache. */
  class Gate {
    const max: nat
    const allowTtl: nat
    const denyTtl: nat
    var cur: map<Key, Entry>
    var prev: map<Key, Entry>
    ghost var ops: seq<Op>

    ghost function Value(): Cache
      reads this
    {
      Cache(cur, prev)
    }

    ghost predicate Valid()
      reads this
    {
      max > 0 && Value() == Final(max, ops)
    }

    constructor (size: int, allowTtl: nat, denyTtl: nat)
      ensures Valid() && ops == []
      ensures max == (if size <= 0 then DEFAULT_CACHE_SIZE else size)
      ensures this.allowTtl == allowTtl && this.denyTtl == denyTtl
    {
      this.max, this.allowTtl, this.denyTtl := if size <= 0 then DEFAULT_CACHE_SIZE else size, allowTtl, denyTtl;
      cur, prev, ops := map[], map[], [];
    }

    method Get(key: Key, now: Time) returns (verdict: Option<Verdict>)
      requires Valid()
      modifies this
      ensures Valid() && ops == old(ops) + [Op.Get(key, now)]
      ensures verdict == Hit(old(Value()), key, now)
      ensures old(Careful(max, ops)) ==> Careful(max, ops)
      ensures old(Careful(max, ops)) && verdict.None? ==> key !in cur && key !in prev
    {
      ghost var before := ops;
      ops := ops + [Op.Get(key, now)];
      verdict := None;
      if key in cur {
        if now < cur[key].expires {
          verdict := Some(cur[key].verdict);
        } else {
          cur := cur - {key};
        }
      } else if key in prev {
        if now < prev[key].expires {
          verdict := Some(prev[key].verdict);
        } else {
          prev := prev - {key};
        }
      }
      assert ops[..|ops| - 1] == before;
      if Careful(max, before) {
        CarefulIsDisjoint(max, before);
      }
    }

    method Put(key: Key, verdict: Verdict, ttl: nat, now: Time)
      requires Valid()
      modifies this
      ensures Valid() && ops == old(ops) + [Op.Put(key, Entry(verdict, now + ttl))]
      ensures old(Careful(max, ops) && !Clash(Value(), max, key)) ==> Careful(max, ops)
      ensures key in cur && cur[key] == Entry(verdict, now + ttl)
    {
      if |cur| >= max {
        prev := cur;
        cur := map[];
      }
      cur := cur[key := Entry(verdict, now + ttl)];
      ops := ops + [Op.Put(key, Entry(verdict, now + ttl))];
      assert ops[..|ops| - 1] == old(ops);
    }

    /** A ban is remembered for the deny lifetime, also one that is only counted. */
    function Ttl(v: Verdict): nat {
      if v.banned || v.shadowBanned then denyTtl else allowTtl
    }

    /**
      A hit is passed on, a miss asks the session manager, an error is passed on and
      leaves nothing behind, and an answer is kept for as long as its kind is: a ban or
      shadow ban is found until the deny lifetime has passed, anything else until the
      allow lifetime has. Checks made one at a time never clash, so that each hit is what a map that never
      evicts would answer.
     */
    method CheckPeer(ip: string, authFacing: bool, allowed: bool, answer: Option<Verdict>, now: Time, later: Time)
      returns (verdict: Option<Verdict>)
      requires Valid()
      modifies this
      ensures Valid()
      ensures old(Careful(max, ops)) ==> Careful(max, ops)
      ensures allowed ==> verdict == Some(PASS) && ops == old(ops)
      ensures !allowed ==>
        var k := CacheKey(ip, authFacing);
        var hit := Hit(old(Value()), k, now);
        if hit.Some? then
          verdict == hit && ops == old(ops) + [Op.Get(k, now)]
        else
          && verdict == answer
          && (answer.None? ==> ops == old(ops) + [Op.Get(k, now)])
          && (answer.Some? ==>
                ops == old(ops) + [Op.Get(k, now)] + [Op.Put(k, Entry(answer.value, later + Ttl(answer.value)))])
      ensures !allowed && answer.Some? && Hit(old(Value()), CacheKey(ip, authFacing), now).None? ==>
        var life := if answer.value.banned || answer.value.shadowBanned then denyTtl else allowTtl;
        forall t: Time :: Hit(Value(), CacheKey(ip, authFacing), t) == if t < later + life then answer else None
      ensures !allowed && old(Careful(max, ops)) ==>
        var k := CacheKey(ip, authFacing);
        Hit(old(Value()), k, now).Some? ==> IsNewest(old(ops), k, Hit(old(Value()), k, now).value, now)
    {
      if allowed {
        return Some(PASS);
      }
      var key := CacheKey(ip, authFacing);
      if Careful(max, ops) {
        CarefulHitIsNewest(max, ops, key, now);
      }
      verdict := Get(key, now);
      if verdict.None? && answer.Some? {
        verdict := answer;
        Put(key, answer.value, Ttl(answer.value), later);
      }
    }

    /** Neither listener role finds a verdict for the address until it is asked about again. */
    method Forget(ip: string)
      requires Valid()
      modifies this
      ensures Valid()
      ensures old(Careful(max, ops)) ==> Careful(max, ops)
      ensures ops == old(ops) + [Op.Forget(CacheKey(ip, true))] + [Op.Forget(CacheKey(ip, false))]
      ensures forall role: bool, now: Time :: Hit(Value(), CacheKey(ip, role), now) == None
      ensures forall other: string, role: bool | other != ip ::
                Lookup(Value(), CacheKey(other, role)) == old(Lookup(Value(), CacheKey(other, role)))
    {
      ForgetKey(CacheKey(ip, true));
      ForgetKey(CacheKey(ip, false));
      forall other: string, role: bool | other != ip
        ensures Lookup(Value(), CacheKey(other, role)) == old(Lookup(Value(), CacheKey(other, role)))
      {
        CacheKeyInjective(other, role, ip, true);
        CacheKeyInjective(other, role, ip, false);
      }
    }

    method ForgetKey(key: Key)
      requires Valid()
      modifies this
      ensures Valid() && ops == old(ops) + [Op.Forget(key)]
      ensures old(Careful(max, ops)) ==> Careful(max, ops)
      ensures cur == old(cur) - {key} && prev == old(prev) - {key}
    {
      cur := cur - {key};
      prev := prev - {key};
      ops := ops + [Op.Forget(key)];
      assert ops[..|ops| - 1] == old(ops);
    }
  }
}
