/**
  The persistent UID list of one Maildir folder: its value, how it is reconciled
  against the keys found in cur/, and the object that does so in place.
 */
module UidList {
  const UINT32: nat := 0x1_0000_0000
  const UIDLIST_VERSION := 3

  type Uint32 = n: int | 0 <= n < 0x1_0000_0000
  type Int64 = n: int | -0x8000_0000_0000_0000 <= n < 0x8000_0000_0000_0000

  datatype Entry = Entry(uid: Uint32, key: string)

  /** The contents of a list: the header fields, the entries and the two indexes. */
  datatype Listing = Listing(
    version: Int64,
    validity: Uint32,
    next: Uint32,
    entries: seq<Entry>,
    keyToUid: map<string, Uint32>,
    uidToKey: map<Uint32, string>)

  function KeySet(keys: seq<string>): set<string> {
    set k | k in keys
  }

  // ------------------------------------------------------ sorting of keys

  /** Go's byte-wise order on strings. */
  predicate KeyLe(a: string, b: string) {
    a == "" || (b != "" && (a[0] < b[0] || (a[0] == b[0] && KeyLe(a[1..], b[1..]))))
  }

  function Insert(k: string, ks: seq<string>): seq<string> {
    if ks == [] then [k]
    else if KeyLe(k, ks[0]) then [k] + ks
    else [ks[0]] + Insert(k, ks[1..])
  }

  /** sort.Strings. */
  function SortKeys(ks: seq<string>): seq<string> {
    if ks == [] then [] else Insert(ks[0], SortKeys(ks[1..]))
  }

  predicate Sorted(ks: seq<string>) {
    forall i, j | 0 <= i < j < |ks| :: KeyLe(ks[i], ks[j])
  }

  lemma {:induction false} KeyLeTotal(a: string, b: string)
    ensures KeyLe(a, b) || KeyLe(b, a)
    ensures KeyLe(a, b) && KeyLe(b, a) ==> a == b
  {
    if a != "" && b != "" {
      KeyLeTotal(a[1..], b[1..]);
      assert a == [a[0]] + a[1..] && b == [b[0]] + b[1..];
    }
  }

  /** The order is the lexicographic one: a is a prefix of b, or has the smaller character where they first differ. */
  ghost predicate LexLe(a: string, b: string) {
    a <= b || exists i: nat :: DiffersBelow(a, b, i)
  }

  predicate DiffersBelow(a: string, b: string, i: nat) {
    i < |a| && i < |b| && a[..i] == b[..i] && a[i] < b[i]
  }

  lemma {:induction false} KeyLeIsLexicographic(a: string, b: string)
    ensures KeyLe(a, b) <==> LexLe(a, b)
  {
    if a != "" && b != "" {
      if a[0] == b[0] {
        KeyLeIsLexicographic(a[1..], b[1..]);
        LexLeCons(a, b);
      } else if a[0] < b[0] {
        assert DiffersBelow(a, b, 0);
      } else {
        forall i: nat ensures !DiffersBelow(a, b, i) {
          assert i > 0 && i <= |a| && i <= |b| ==> a[..i][0] != b[..i][0];
        }
        NoPrefix(a, b);
      }
    }
  }

  lemma NoPrefix(a: string, b: string)
    requires a != "" && b != "" && a[0] != b[0]
    ensures !(a <= b)
  {
  }

  lemma LexLeCons(a: string, b: string)
    requires a != "" && b != "" && a[0] == b[0]
    ensures LexLe(a, b) <==> LexLe(a[1..], b[1..])
  {
    var p, q := a[1..], b[1..];
    assert a <= b <==> p <= q by {
      assert |a| <= |b| ==> b[..|a|] == [b[0]] + q[..|p|];
      assert a == [a[0]] + p;
    }
    forall i: nat ensures DiffersBelow(p, q, i) <==> DiffersBelow(a, b, i + 1) {
      assert i < |p| && i < |q| ==> a[..i + 1] == [a[0]] + p[..i] && b[..i + 1] == [b[0]] + q[..i];
      assert i < |p| && i < |q| ==> (a[..i + 1] == b[..i + 1] <==> p[..i] == q[..i]) by {
        assert i < |p| && i < |q| ==> a[..i + 1][1..] == p[..i] && b[..i + 1][1..] == q[..i];
      }
    }
    forall i: nat ensures DiffersBelow(a, b, i) ==> i > 0 && DiffersBelow(p, q, i - 1) {
      assert i > 0 ==> (DiffersBelow(p, q, i - 1) <==> DiffersBelow(a, b, i - 1 + 1));
    }
  }

  lemma {:induction false} KeyLeTransitive(a: string, b: string, c: string)
    requires KeyLe(a, b) && KeyLe(b, c)
    ensures KeyLe(a, c)
  {
    if a != "" && a[0] == b[0] && b[0] == c[0] {
      KeyLeTransitive(a[1..], b[1..], c[1..]);
    }
  }

  lemma {:induction false} InsertBag(k: string, ks: seq<string>)
    ensures multiset(Insert(k, ks)) == multiset{k} + multiset(ks)
  {
    if ks != [] {
      assert ks == [ks[0]] + ks[1..];
      InsertBag(k, ks[1..]);
    }
  }

  lemma {:induction false} InsertSorts(k: string, ks: seq<string>)
    requires Sorted(ks)
    ensures Sorted(Insert(k, ks))
  {
    if ks != [] {
      if KeyLe(k, ks[0]) {
        forall j | 0 < j < |ks| ensures KeyLe(k, ks[j]) {
          KeyLeTransitive(k, ks[0], ks[j]);
        }
      } else {
        KeyLeTotal(k, ks[0]);
        InsertSorts(k, ks[1..]);
        var rest := Insert(k, ks[1..]);
        InsertBag(k, ks[1..]);
        forall j | 0 <= j < |rest| ensures KeyLe(ks[0], rest[j]) {
          assert rest[j] in multiset(rest);
        }
      }
    }
  }

  lemma SameBag(a: seq<string>, b: seq<string>)
    requires multiset(a) == multiset(b)
    ensures |a| == |b| && KeySet(a) == KeySet(b)
  {
    assert |multiset(a)| == |a| && |multiset(b)| == |b|;
    forall k ensures k in KeySet(a) <==> k in KeySet(b) {
      assert k in a <==> k in multiset(a);
      assert k in b <==> k in multiset(b);
    }
  }

  lemma {:induction false} SortKeysSorts(ks: seq<string>)
    ensures Sorted(SortKeys(ks))
    ensures multiset(SortKeys(ks)) == multiset(ks)
    ensures |SortKeys(ks)| == |ks|
    ensures KeySet(SortKeys(ks)) == KeySet(ks)
  {
    if ks != [] {
      SortKeysSorts(ks[1..]);
      InsertSorts(ks[0], SortKeys(ks[1..]));
      InsertBag(ks[0], SortKeys(ks[1..]));
      assert ks == [ks[0]] + ks[1..];
    }
    SameBag(SortKeys(ks), ks);
  }

  // ------------------------------------------------ reconciling, as a value

  function Kept(es: seq<Entry>, present: set<string>): seq<Entry> {
    if es == [] then []
    else
      var n := |es| - 1;
      var front := Kept(es[..n], present);
      if es[n].key in present then front + [es[n]] else front
  }

  function GoneKeys(es: seq<Entry>, present: set<string>): set<string> {
    if es == [] then {}
    else
      var n := |es| - 1;
      var front := GoneKeys(es[..n], present);
      if es[n].key in present then front else front + {es[n].key}
  }

  function GoneUids(es: seq<Entry>, present: set<string>): set<Uint32> {
    if es == [] then {}
    else
      var n := |es| - 1;
      var front := GoneUids(es[..n], present);
      if es[n].key in present then front else front + {es[n].uid}
  }

  /** The list without the entries whose key has left cur/. */
  function Pruned(l: Listing, present: set<string>): Listing {
    l.(entries := Kept(l.entries, present),
       keyToUid := l.keyToUid - GoneKeys(l.entries, present),
       uidToKey := l.uidToKey - GoneUids(l.entries, present))
  }

  /** The snapshot's keys that have no UID yet, in snapshot order. */
  function Unknown(keys: seq<string>, known: set<string>): seq<string> {
    if keys == [] then []
    else
      var n := |keys| - 1;
      var front := Unknown(keys[..n], known);
      if keys[n] in known then front else front + [keys[n]]
  }

  /** One assignment; the counter is a uint32 and wraps. */
  function Assign(l: Listing, k: string): Listing {
    l.(next := (l.next + 1) % UINT32,
       entries := l.entries + [Entry(l.next, k)],
       keyToUid := l.keyToUid[k := l.next],
       uidToKey := l.uidToKey[l.next := k])
  }

  function AssignAll(l: Listing, ks: seq<string>): Listing {
    if ks == [] then l else Assign(AssignAll(l, ks[..|ks| - 1]), ks[|ks| - 1])
  }

  function NewKeys(l: Listing, keys: seq<string>): seq<string> {
    SortKeys(Unknown(keys, Pruned(l, KeySet(keys)).keyToUid.Keys))
  }

  function Reconciled(l: Listing, keys: seq<string>): Listing {
    AssignAll(Pruned(l, KeySet(keys)), NewKeys(l, keys))
  }

  /** Whether reconciling has anything to write back: an entry dropped or a key added. */
  predicate Changes(l: Listing, keys: seq<string>) {
    |Kept(l.entries, KeySet(keys))| < |l.entries| || NewKeys(l, keys) != []
  }

  function EmptyListing(validity: Uint32): Listing {
    Listing(UIDLIST_VERSION, validity, 1, [], map[], map[])
  }

  function Bootstrapped(keys: seq<string>, now: Uint32): Listing {
    AssignAll(EmptyListing(now), SortKeys(keys))
  }

  // ------------------------------------------------------------ the object

  class UidList {
    var version: Int64
    var validity: Uint32
    var next: Uint32
    var entries: seq<Entry>
    var keyToUid: map<string, Uint32>
    var uidToKey: map<Uint32, string>

    function Value(): Listing
      reads this
    {
      Listing(version, validity, next, entries, keyToUid, uidToKey)
    }

    constructor Of(l: Listing)
      ensures Value() == l
    {
      version, validity, next := l.version, l.validity, l.next;
      entries, keyToUid, uidToKey := l.entries, l.keyToUid, l.uidToKey;
    }

    /** bootstrapUIDList: now is the Unix time, truncated to 32 bits. */
    constructor Bootstrap(curKeys: seq<string>, now: Uint32)
      ensures Value() == Bootstrapped(curKeys, now)
    {
      version, validity, next := UIDLIST_VERSION, now, 1;
      entries, keyToUid, uidToKey := [], map[], map[];
      new;
      var sorted := SortKeys(curKeys);
      for i := 0 to |sorted|
        invariant Value() == AssignAll(EmptyListing(now), sorted[..i])
      {
        assert sorted[..i + 1][..i] == sorted[..i];
        AssignNext(sorted[i]);
      }
      assert sorted[..|sorted|] == sorted;
    }

    method AssignNext(k: string)
      modifies this
      ensures Value() == Assign(old(Value()), k)
    {
      entries := entries + [Entry(next, k)];
      keyToUid := keyToUid[k := next];
      uidToKey := uidToKey[next := k];
      next := (next + 1) % UINT32;
    }

    /** The removal pass: drops the entries whose key is not in curSet. */
    method Prune(curSet: set<string>) returns (changed: bool)
      modifies this
      ensures Value() == Pruned(old(Value()), curSet)
      ensures changed <==> |entries| < |old(entries)|
    {
      changed := false;
      var kept: seq<Entry> := [];
      var all := entries;
      for i := 0 to |all|
        invariant entries == all == old(entries)
        invariant version == old(version) && validity == old(validity) && next == old(next)
        invariant kept == Kept(all[..i], curSet)
        invariant keyToUid == old(keyToUid) - GoneKeys(all[..i], curSet)
        invariant uidToKey == old(uidToKey) - GoneUids(all[..i], curSet)
        invariant |kept| <= i && (changed <==> |kept| < i)
      {
        var e := all[i];
        assert all[..i + 1][..i] == all[..i];
        if e.key in curSet {
          kept := kept + [e];
        } else {
          assert old(keyToUid) - GoneKeys(all[..i], curSet) - {e.key}
              == old(keyToUid) - (GoneKeys(all[..i], curSet) + {e.key});
          assert old(uidToKey) - GoneUids(all[..i], curSet) - {e.uid}
              == old(uidToKey) - (GoneUids(all[..i], curSet) + {e.uid});
          keyToUid := keyToUid - {e.key};
          uidToKey := uidToKey - {e.uid};
          changed := true;
        }
      }
      assert all[..|all|] == all;
      entries := kept;
    }

    /** reconcile: false exactly when there is nothing to write back. */
    method Reconcile(curKeys: seq<string>) returns (changed: bool)
      modifies this
      ensures Value() == Reconciled(old(Value()), curKeys)
      ensures changed <==> Changes(old(Value()), curKeys)
    {
      changed := Prune(KeySet(curKeys));
      var pruned := Value();
      var newKeys: seq<string> := [];
      for i := 0 to |curKeys|
        invariant Value() == pruned
        invariant newKeys == Unknown(curKeys[..i], pruned.keyToUid.Keys)
      {
        assert curKeys[..i + 1][..i] == curKeys[..i];
        if curKeys[i] !in keyToUid {
          newKeys := newKeys + [curKeys[i]];
        }
      }
      assert curKeys[..|curKeys|] == curKeys;
      newKeys := SortKeys(newKeys);
      for i := 0 to |newKeys|
        invariant Value() == AssignAll(pruned, newKeys[..i])
        invariant changed <==> |pruned.entries| < |old(entries)| || i > 0
      {
        assert newKeys[..i + 1][..i] == newKeys[..i];
        AssignNext(newKeys[i]);
        changed := true;
      }
      assert newKeys[..|newKeys|] == newKeys;
    }
  }
}
