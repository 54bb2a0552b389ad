/**
  The signing-key ledger of the OpenID Connect provider: at most one current key
  for each domain, and every key published for as long as a token it signed lives.
 */
module OidcKeys {
  import opened Text

  type Time = int

  /** A key's name; the domain and the key identifier contain no NUL, so that the pair stands for the joined string. */
  datatype Id = Id(domain: string, kid: string)

  /** key stands for the key pair itself; expires is meaningful for a retiring key. */
  datatype Record = Record(key: nat, current: bool, expires: Time)

  type Ledger = map<Id, Record>

  /** One second after the epoch: what a revoked key's expiry is set to. */
  const REVOKED: Time := 1

  datatype Event =
    | Insert(id: Id, key: nat, now: Time)
    | Rotate(id: Id, key: nat, now: Time)
    | Revoke(id: Id, now: Time)
    | Sweep(at: Time, now: Time)

  // -------------------------------------------------------------- operations

  predicate HasCurrent(m: Ledger, domain: string) {
    exists id :: id in m && id.domain == domain && m[id].current
  }

  function AfterInsert(m: Ledger, id: Id, key: nat): Ledger {
    if HasCurrent(m, id.domain) then m else m[id := Record(key, true, 0)]
  }

  function Retired(m: Ledger, domain: string, expires: Time): Ledger {
    map id | id in m :: if id.domain == domain && m[id].current then Record(m[id].key, false, expires) else m[id]
  }

  function AfterRotate(m: Ledger, id: Id, key: nat, expires: Time): Ledger {
    if id in m then m else Retired(m, id.domain, expires)[id := Record(key, true, 0)]
  }

  function AfterRevoke(m: Ledger, id: Id): Ledger {
    if id in m then m[id := Record(m[id].key, false, REVOKED)] else m
  }

  /** A record that has not lapsed. */
  predicate Lives(r: Record, now: Time) {
    r.current || now < r.expires
  }

  function AfterSweep(m: Ledger, at: Time): Ledger {
    map id | id in m && Lives(m[id], at) :: m[id]
  }

  function Apply(m: Ledger, e: Event, retention: nat): Ledger {
    match e
    case Insert(id, key, now) => AfterInsert(m, id, key)
    case Rotate(id, key, now) => AfterRotate(m, id, key, now + retention)
    case Revoke(id, now) => AfterRevoke(m, id)
    case Sweep(at, now) => AfterSweep(m, at)
  }

  function Run(m: Ledger, events: seq<Event>, retention: nat): Ledger
    decreases |events|
  {
    if events == [] then m else Run(Apply(m, events[0], retention), events[1..], retention)
  }

  /** The clock never goes back, and a sweep works with a time already past. */
  predicate Timed(events: seq<Event>, now: Time)
    decreases |events|
  {
    events != [] ==>
      && now <= events[0].now
      && (events[0].Sweep? ==> events[0].at <= events[0].now)
      && Timed(events[1..], events[0].now)
  }

  function EndTime(events: seq<Event>, now: Time): Time {
    if events == [] then now else events[|events| - 1].now
  }

  // --------------------------------------------------- at most one current key

  predicate OneCurrent(m: Ledger) {
    forall a, b | a in m && b in m && a.domain == b.domain && m[a].current && m[b].current :: a == b
  }

  lemma ApplyKeepsOneCurrent(m: Ledger, e: Event, retention: nat)
    requires OneCurrent(m)
    ensures OneCurrent(Apply(m, e, retention))
  {
  }

  /** However keys are inserted, rotated, revoked and swept, a domain never has two current keys. */
  lemma {:induction false} NeverTwoCurrent(m: Ledger, events: seq<Event>, retention: nat)
    requires OneCurrent(m)
    ensures OneCurrent(Run(m, events, retention))
    decreases |events|
  {
    if events != [] {
      ApplyKeepsOneCurrent(m, events[0], retention);
      NeverTwoCurrent(Apply(m, events[0], retention), events[1..], retention);
    }
  }

  /** The event is the revocation of the domain's current key. */
  predicate RevokesCurrent(m: Ledger, e: Event, domain: string) {
    e.Revoke? && e.id.domain == domain && e.id in m && m[e.id].current
  }

  predicate NeverRevokesCurrent(m: Ledger, events: seq<Event>, domain: string, retention: nat)
    decreases |events|
  {
    events != [] ==>
      && !RevokesCurrent(m, events[0], domain)
      && NeverRevokesCurrent(Apply(m, events[0], retention), events[1..], domain, retention)
  }

  /** One event takes a domain's only current key away exactly when it revokes it. */
  lemma LosesCurrentIff(m: Ledger, e: Event, domain: string, retention: nat)
    requires OneCurrent(m) && HasCurrent(m, domain)
    ensures HasCurrent(Apply(m, e, retention), domain) <==> !RevokesCurrent(m, e, domain)
  {
    var id :| id in m && id.domain == domain && m[id].current;
    var m' := Apply(m, e, retention);
    if RevokesCurrent(m, e, domain) {
      assert forall x | x in m' && x.domain == domain :: !m'[x].current;
    } else if e.Rotate? && e.id.domain == domain && e.id !in m {
      assert e.id in m' && m'[e.id].current;
    } else {
      assert id in m' && m'[id].current;
    }
  }

  /** Once a domain has a key to sign with, it has exactly one until that one is revoked. */
  lemma {:induction false} AlwaysOneCurrent(m: Ledger, events: seq<Event>, domain: string, retention: nat)
    requires OneCurrent(m) && HasCurrent(m, domain) && NeverRevokesCurrent(m, events, domain, retention)
    ensures OneCurrent(Run(m, events, retention)) && HasCurrent(Run(m, events, retention), domain)
    decreases |events|
  {
    if events != [] {
      ApplyKeepsOneCurrent(m, events[0], retention);
      LosesCurrentIff(m, events[0], domain, retention);
      AlwaysOneCurrent(Apply(m, events[0], retention), events[1..], domain, retention);
    }
  }

  // ------------------------------------------------------------ published keys

  /** A relying party that asks now finds this key. */
  predicate Published(m: Ledger, id: Id, key: nat, now: Time) {
    id in m && m[id].key == key && Lives(m[id], now)
  }

  /** The key will be published until the time given, come what may but a revocation. */
  predicate HeldUntil(m: Ledger, id: Id, key: nat, end: Time) {
    id in m && m[id].key == key && (m[id].current || end <= m[id].expires)
  }

  /** The event neither revokes the key nor inserts another under its name. */
  predicate Spares(m: Ledger, e: Event, id: Id) {
    && (e.Revoke? ==> e.id != id)
    && (e.Insert? && e.id == id ==> HasCurrent(m, id.domain))
  }

  predicate AllSpare(m: Ledger, events: seq<Event>, id: Id, retention: nat)
    decreases |events|
  {
    events != [] ==>
      && Spares(m, events[0], id)
      && AllSpare(Apply(m, events[0], retention), events[1..], id, retention)
  }

  lemma ApplyHolds(m: Ledger, e: Event, id: Id, key: nat, end: Time, retention: nat)
    requires HeldUntil(m, id, key, end) && Spares(m, e, id)
    requires e.Rotate? ==> end <= e.now + retention
    requires e.Sweep? ==> e.at < end
    ensures HeldUntil(Apply(m, e, retention), id, key, end)
  {
  }

  lemma {:induction false} RunHolds(m: Ledger, events: seq<Event>, id: Id, key: nat, signed: Time, now: Time, retention: nat)
    requires HeldUntil(m, id, key, signed + retention) && signed <= now
    requires Timed(events, now) && AllSpare(m, events, id, retention)
    requires EndTime(events, now) < signed + retention
    ensures HeldUntil(Run(m, events, retention), id, key, signed + retention)
    decreases |events|
  {
    if events != [] {
      var e := events[0];
      EndIsLast(events[1..], e.now);
      assert EndTime(events, now) == EndTime(events[1..], e.now);
      ApplyHolds(m, e, id, key, signed + retention, retention);
      RunHolds(Apply(m, e, retention), events[1..], id, key, signed, e.now, retention);
    }
  }

  lemma {:induction false} EndIsLast(events: seq<Event>, now: Time)
    requires Timed(events, now)
    ensures now <= EndTime(events, now)
    decreases |events|
  {
    if events != [] {
      EndIsLast(events[1..], events[0].now);
      assert |events| > 1 ==> events[1..][|events| - 2] == events[|events| - 1];
    }
  }

  /**
    A token signed with the domain's current key, with a lifetime within the
    retention, finds that key published at every time before it expires, unless the
    key is revoked or another is inserted under its name.
   */
  lemma TokenFindsItsKey(
    m: Ledger, events: seq<Event>, id: Id, key: nat, signed: Time, lifetime: nat, retention: nat, asked: Time)
    requires id in m && m[id].current && m[id].key == key
    requires Timed(events, signed) && AllSpare(m, events, id, retention)
    requires lifetime <= retention && EndTime(events, signed) <= asked < signed + lifetime
    ensures Published(Run(m, events, retention), id, key, asked)
  {
    RunHolds(m, events, id, key, signed, signed, retention);
  }

  /** A revoked key is published no more, and stays so until something is inserted under its name. */
  lemma {:induction false} RevokedStaysOut(m: Ledger, events: seq<Event>, id: Id, key: nat, retention: nat, now: Time, asked: Time)
    requires Timed(events, now) && REVOKED <= now && EndTime(events, now) <= asked
    requires id in m ==> m[id].key == key && !m[id].current && m[id].expires == REVOKED
    requires forall i | 0 <= i < |events| :: (events[i].Insert? || events[i].Rotate?) ==> events[i].id != id
    ensures !Published(Run(m, events, retention), id, key, asked)
    decreases |events|
  {
    if events == [] {
    } else {
      var e := events[0];
      EndIsLast(events[1..], e.now);
      assert |events| > 1 ==> events[1..][|events| - 2] == events[|events| - 1];
      RevokedStaysOut(Apply(m, e, retention), events[1..], id, key, retention, e.now, asked);
    }
  }

  predicate NeverNamed(events: seq<Event>, id: Id) {
    forall i | 0 <= i < |events| :: (events[i].Insert? || events[i].Rotate?) ==> events[i].id != id
  }

  /** Whether it was current or retiring, a key is published no more from its revocation on. */
  lemma RevocationIsFinal(m: Ledger, events: seq<Event>, id: Id, retention: nat, now: Time, asked: Time)
    requires id in m && events != [] && events[0] == Revoke(id, now)
    requires Timed(events, now) && REVOKED <= now && EndTime(events, now) <= asked && NeverNamed(events, id)
    ensures !Published(Run(m, events, retention), id, m[id].key, asked)
  {
    var rest := events[1..];
    assert forall i | 0 <= i < |rest| :: rest[i] == events[i + 1];
    assert EndTime(rest, now) == EndTime(events, now);
    RevokedStaysOut(AfterRevoke(m, id), rest, id, m[id].key, retention, now, asked);
  }

  /** The key is retiring until the time given, or has been swept since. */
  predicate RetiresAt(m: Ledger, id: Id, key: nat, end: Time, now: Time) {
    if id in m then m[id] == Record(key, false, end) else end <= now
  }

  lemma {:induction false} RetiringRun(m: Ledger, events: seq<Event>, id: Id, key: nat, end: Time, retention: nat, now: Time, asked: Time)
    requires RetiresAt(m, id, key, end, now) && Timed(events, now) && EndTime(events, now) <= asked
    requires NeverNamed(events, id) && forall i | 0 <= i < |events| :: events[i].Revoke? ==> events[i].id != id
    ensures Published(Run(m, events, retention), id, key, asked) <==> asked < end
    decreases |events|
  {
    EndIsLast(events, now);
    if events != [] {
      var e, rest := events[0], events[1..];
      assert forall i | 0 <= i < |rest| :: rest[i] == events[i + 1];
      assert EndTime(rest, e.now) == EndTime(events, now);
      RetiringRun(Apply(m, e, retention), rest, id, key, end, retention, e.now, asked);
    }
  }

  /** A key that a rotation retires is published until the retention has passed, and no longer. */
  lemma RetiredUntilRetention(m: Ledger, events: seq<Event>, id: Id, next: Id, key: nat, retention: nat, now: Time, asked: Time)
    requires id in m && m[id].current && events != [] && events[0] == Rotate(next, key, now)
    requires next.domain == id.domain && next !in m
    requires Timed(events, now) && EndTime(events, now) <= asked
    requires NeverNamed(events, id) && forall i | 0 <= i < |events| :: events[i].Revoke? ==> events[i].id != id
    ensures Published(Run(m, events, retention), id, m[id].key, asked) <==> asked < now + retention
  {
    var rest := events[1..];
    assert forall i | 0 <= i < |rest| :: rest[i] == events[i + 1];
    assert EndTime(rest, now) == EndTime(events, now);
    RetiringRun(Apply(m, events[0], retention), rest, id, m[id].key, now + retention, retention, now, asked);
  }

  /** A sweep changes nothing that is published from then on, and leaves nothing that is not. */
  lemma SweepIsUnseen(m: Ledger, at: Time, id: Id, key: nat, asked: Time)
    requires at <= asked
    ensures Published(AfterSweep(m, at), id, key, asked) <==> Published(m, id, key, asked)
    ensures id in AfterSweep(m, at) ==> Published(AfterSweep(m, at), id, m[id].key, at)
  {
  }

  /** Inserting under the name of a retiring key takes that key away at once. */
  lemma InsertReplacesRetiring(m: Ledger, id: Id, key: nat, other: nat, now: Time, retention: nat)
    requires Published(m, id, key, now) && !HasCurrent(m, id.domain) && other != key
    ensures !Published(Apply(m, Insert(id, other, now), retention), id, key, now)
  {
  }

  // ------------------------------------------------------------------ the store

  class KeyStore {
    var keys: Ledger

    constructor ()
      ensures keys == map[]
    {
      keys := map[];
    }

    method InsertSigningKey(id: Id, key: nat) returns (ok: bool)
      modifies this
      ensures ok == !HasCurrent(old(keys), id.domain)
      ensures keys == AfterInsert(old(keys), id, key)
    {
      var todo := keys.Keys;
      while todo != {}
        invariant todo <= keys.Keys && keys == old(keys)
        invariant forall x | x in keys && x !in todo :: !(x.domain == id.domain && keys[x].current)
        decreases |todo|
      {
        var x :| x in todo;
        if x.domain == id.domain && keys[x].current {
          return false;
        }
        todo := todo - {x};
      }
      keys := keys[id := Record(key, true, 0)];
      return true;
    }

    method RotateSigningKey(id: Id, key: nat, retention: nat, now: Time) returns (ok: bool)
      modifies this
      ensures ok == (id !in old(keys))
      ensures keys == AfterRotate(old(keys), id, key, now + retention)
    {
      if id in keys {
        return false;
      }
      ghost var done := Retired(keys, id.domain, now + retention);
      var todo := keys.Keys;
      while todo != {}
        invariant todo <= keys.Keys == old(keys).Keys == done.Keys
        invariant forall x | x in keys :: keys[x] == if x in todo then old(keys)[x] else done[x]
        decreases |todo|
      {
        var x :| x in todo;
        if x.domain == id.domain && keys[x].current {
          keys := keys[x := Record(keys[x].key, false, now + retention)];
        }
        todo := todo - {x};
      }
      assert keys == done;
      keys := keys[id := Record(key, true, 0)];
      return true;
    }

    method RevokeSigningKey(id: Id) returns (ok: bool)
      modifies this
      ensures ok == (id in old(keys))
      ensures keys == AfterRevoke(old(keys), id)
    {
      if id !in keys {
        return false;
      }
      keys := keys[id := Record(keys[id].key, false, REVOKED)];
      return true;
    }

    /** Removes what has lapsed and hands it back. */
    method SweepExpiredSigningKeys(now: Time) returns (removed: set<Id>)
      modifies this
      ensures keys == AfterSweep(old(keys), now)
      ensures removed == old(keys).Keys - keys.Keys
    {
      var todo := keys.Keys;
      removed := {};
      while todo != {}
        invariant todo <= keys.Keys && keys.Keys + removed == old(keys).Keys && keys.Keys !! removed
        invariant forall x | x in keys :: keys[x] == old(keys)[x]
        invariant forall x | x in old(keys) && x !in todo :: x in keys <==> Lives(old(keys)[x], now)
        decreases |todo|
      {
        var x :| x in todo;
        if !keys[x].current && now >= keys[x].expires {
          removed := removed + {x};
          keys := keys - {x};
        }
        todo := todo - {x};
      }
      assert keys.Keys == AfterSweep(old(keys), now).Keys;
    }

    /** The key to sign with: the domain's only current one. */
    method CurrentKeyFor(domain: string) returns (id: Option<Id>)
      ensures id.Some? <==> HasCurrent(keys, domain)
      ensures id.Some? ==> id.value in keys && id.value.domain == domain && keys[id.value].current
      ensures id.Some? && OneCurrent(keys) ==>
        forall x | x in keys && x.domain == domain && keys[x].current :: x == id.value
    {
      var todo := keys.Keys;
      while todo != {}
        invariant todo <= keys.Keys
        invariant forall x | x in keys && x !in todo :: !(x.domain == domain && keys[x].current)
        decreases |todo|
      {
        var x :| x in todo;
        if x.domain == domain && keys[x].current {
          return Some(x);
        }
        todo := todo - {x};
      }
      return None;
    }

    /** What a relying party is offered: exactly the published keys of the domain. */
    method ActivePublicKeysFor(domain: string, now: Time) returns (ids: set<Id>)
      ensures forall id :: id in ids <==> id in keys && id.domain == domain && Published(keys, id, keys[id].key, now)
    {
      var todo := keys.Keys;
      ids := {};
      while todo != {}
        invariant todo <= keys.Keys && ids <= keys.Keys && ids !! todo
        invariant forall x | x in keys && x !in todo :: x in ids <==> x.domain == domain && Lives(keys[x], now)
        decreases |todo|
      {
        var x :| x in todo;
        todo := todo - {x};
        if x.domain == domain && (keys[x].current || now < keys[x].expires) {
          ids := ids + {x};
        }
      }
    }
  }
}
