/**
  What one reconciliation keeps: the consistency of the list, the UIDs already
  handed out, and the order of new ones (section 2.3.1.1 of RFC 3501).
 */
module UidRules {
  import opened Text
  import opened UidList

  // ----------------------------------------------------------- consistency

  /** The indexes a list of entries determines: a later entry wins. */
  function KeyIndex(es: seq<Entry>): map<string, Uint32> {
    if es == [] then map[]
    else
      var n := |es| - 1;
      KeyIndex(es[..n])[es[n].key := es[n].uid]
  }

  function UidIndex(es: seq<Entry>): map<Uint32, string> {
    if es == [] then map[]
    else
      var n := |es| - 1;
      UidIndex(es[..n])[es[n].uid := es[n].key]
  }

  predicate Ascending(es: seq<Entry>) {
    forall i, j | 0 <= i < j < |es| :: es[i].uid < es[j].uid
  }

  predicate AllBelow(es: seq<Entry>, bound: nat) {
    forall i | 0 <= i < |es| :: es[i].uid < bound
  }

  predicate Consistent(l: Listing) {
    && Ascending(l.entries)
    && AllBelow(l.entries, l.next)
    && l.keyToUid == KeyIndex(l.entries)
    && l.uidToKey == UidIndex(l.entries)
  }

  /** No key is listed twice. */
  predicate KeysDistinct(es: seq<Entry>) {
    forall i, j | 0 <= i < j < |es| :: es[i].key != es[j].key
  }

  predicate MutuallyInverse(l: Listing) {
    && (forall k | k in l.keyToUid :: l.keyToUid[k] in l.uidToKey && l.uidToKey[l.keyToUid[k]] == k)
    && (forall u | u in l.uidToKey :: l.uidToKey[u] in l.keyToUid && l.keyToUid[l.uidToKey[u]] == u)
  }

  predicate NoRepeats(ks: seq<string>) {
    forall i, j | 0 <= i < j < |ks| :: ks[i] != ks[j]
  }

  /** The new UIDs stay below the 32-bit limit. */
  predicate Fits(l: Listing, keys: seq<string>) {
    l.next + |NewKeys(l, keys)| < UINT32
  }

  // ---------------------------------------------------- reading the indexes

  lemma {:induction false} UidIndexAt(es: seq<Entry>, i: nat)
    requires Ascending(es) && i < |es|
    ensures es[i].uid in UidIndex(es) && UidIndex(es)[es[i].uid] == es[i].key
  {
    var n := |es| - 1;
    if i < n {
      UidIndexAt(es[..n], i);
    }
  }

  lemma {:induction false} UidIndexFrom(es: seq<Entry>, u: Uint32) returns (i: nat)
    requires u in UidIndex(es)
    ensures i < |es| && es[i] == Entry(u, UidIndex(es)[u])
  {
    var n := |es| - 1;
    if es[n].uid == u {
      i := n;
    } else {
      i := UidIndexFrom(es[..n], u);
    }
  }

  lemma {:induction false} KeyIndexAt(es: seq<Entry>, i: nat)
    requires Ascending(es) && i < |es|
    ensures es[i].key in KeyIndex(es) && es[i].uid <= KeyIndex(es)[es[i].key]
  {
    var n := |es| - 1;
    if i < n {
      KeyIndexAt(es[..n], i);
    }
  }

  lemma {:induction false} KeyIndexFrom(es: seq<Entry>, k: string) returns (i: nat)
    requires k in KeyIndex(es)
    ensures i < |es| && es[i] == Entry(KeyIndex(es)[k], k)
  {
    var n := |es| - 1;
    if es[n].key == k {
      i := n;
    } else {
      i := KeyIndexFrom(es[..n], k);
    }
  }

  lemma UidsBelowNext(l: Listing)
    requires Consistent(l)
    ensures forall u | u in l.uidToKey :: u < l.next
  {
    forall u | u in l.uidToKey ensures u < l.next {
      var i := UidIndexFrom(l.entries, u);
    }
  }

  /** The two indexes are inverse to each other exactly when no key is listed twice. */
  lemma DistinctIffInverse(l: Listing)
    requires Consistent(l)
    ensures KeysDistinct(l.entries) <==> MutuallyInverse(l)
  {
    var es := l.entries;
    if MutuallyInverse(l) {
      forall i, j | 0 <= i < j < |es| ensures es[i].key != es[j].key {
        UidIndexAt(es, i);
        UidIndexAt(es, j);
      }
    }
    if KeysDistinct(es) {
      forall k | k in l.keyToUid ensures l.keyToUid[k] in l.uidToKey && l.uidToKey[l.keyToUid[k]] == k {
        var i := KeyIndexFrom(es, k);
        UidIndexAt(es, i);
      }
      forall u | u in l.uidToKey ensures l.uidToKey[u] in l.keyToUid && l.keyToUid[l.uidToKey[u]] == u {
        var i := UidIndexFrom(es, u);
        KeyIndexAt(es, i);
        var j := KeyIndexFrom(es, es[i].key);
      }
    }
  }

  // --------------------------------------------------------------- pruning

  lemma {:induction false} GoneKeysAbsent(es: seq<Entry>, present: set<string>)
    ensures GoneKeys(es, present) == KeyIndex(es).Keys - present
  {
    if es != [] {
      GoneKeysAbsent(es[..|es| - 1], present);
    }
  }

  lemma {:induction false} GoneUidsListed(es: seq<Entry>, present: set<string>)
    ensures GoneUids(es, present) <= UidIndex(es).Keys
  {
    if es != [] {
      GoneUidsListed(es[..|es| - 1], present);
    }
  }

  lemma {:induction false} KeptKeyIndex(es: seq<Entry>, present: set<string>)
    ensures KeyIndex(Kept(es, present)) == KeyIndex(es) - GoneKeys(es, present)
  {
    if es != [] {
      var n := |es| - 1;
      var front, kept := es[..n], Kept(es[..n], present);
      KeptKeyIndex(front, present);
      GoneKeysAbsent(front, present);
      if es[n].key in present {
        assert (kept + [es[n]])[..|kept|] == kept;
      }
    }
  }

  lemma FrontAscends(es: seq<Entry>)
    requires es != [] && Ascending(es)
    ensures Ascending(es[..|es| - 1])
    ensures es[|es| - 1].uid !in UidIndex(es[..|es| - 1])
  {
    var front := es[..|es| - 1];
    if es[|es| - 1].uid in UidIndex(front) {
      var i := UidIndexFrom(front, es[|es| - 1].uid);
      assert false;
    }
  }

  lemma {:induction false} KeptUidIndex(es: seq<Entry>, present: set<string>)
    requires Ascending(es)
    ensures UidIndex(Kept(es, present)) == UidIndex(es) - GoneUids(es, present)
  {
    if es != [] {
      var n := |es| - 1;
      var front, kept := es[..n], Kept(es[..n], present);
      FrontAscends(es);
      KeptUidIndex(front, present);
      GoneUidsListed(front, present);
      if es[n].key in present {
        assert (kept + [es[n]])[..|kept|] == kept;
      }
    }
  }

  /** Every kept entry is one of the entries given. */
  lemma {:induction false} KeptFrom(es: seq<Entry>, present: set<string>, i: nat) returns (j: nat)
    requires i < |Kept(es, present)|
    ensures j < |es| && Kept(es, present)[i] == es[j]
  {
    var n := |es| - 1;
    if i < |Kept(es[..n], present)| {
      j := KeptFrom(es[..n], present, i);
    } else {
      j := n;
    }
  }

  lemma {:induction false} KeptOrder(es: seq<Entry>, present: set<string>)
    requires Ascending(es)
    ensures Ascending(Kept(es, present))
    ensures KeysDistinct(es) ==> KeysDistinct(Kept(es, present))
  {
    if es != [] {
      var n := |es| - 1;
      KeptOrder(es[..n], present);
      var front := Kept(es[..n], present);
      forall i | 0 <= i < |front|
        ensures front[i].uid < es[n].uid && (KeysDistinct(es) ==> front[i].key != es[n].key)
      {
        var j := KeptFrom(es[..n], present, i);
      }
    }
  }

  lemma PruneKeepsConsistent(l: Listing, present: set<string>)
    requires Consistent(l)
    ensures Consistent(Pruned(l, present))
    ensures KeysDistinct(l.entries) ==> KeysDistinct(Pruned(l, present).entries)
  {
    KeptKeyIndex(l.entries, present);
    KeptUidIndex(l.entries, present);
    KeptOrder(l.entries, present);
    forall i | 0 <= i < |Kept(l.entries, present)| ensures Kept(l.entries, present)[i].uid < l.next {
      var j := KeptFrom(l.entries, present, i);
    }
  }

  // ------------------------------------------------------------- assigning

  lemma AppendAscends(es: seq<Entry>, e: Entry)
    requires Ascending(es) && AllBelow(es, e.uid)
    ensures Ascending(es + [e]) && AllBelow(es + [e], e.uid + 1)
  {
  }

  lemma AppendIndexes(es: seq<Entry>, e: Entry)
    ensures KeyIndex(es + [e]) == KeyIndex(es)[e.key := e.uid]
    ensures UidIndex(es + [e]) == UidIndex(es)[e.uid := e.key]
  {
    assert (es + [e])[..|es + [e]| - 1] == es;
  }

  lemma AssignKeepsConsistent(l: Listing, k: string)
    requires Consistent(l) && l.next + 1 < UINT32
    ensures Consistent(Assign(l, k))
  {
    AppendAscends(l.entries, Entry(l.next, k));
    AppendIndexes(l.entries, Entry(l.next, k));
  }

  lemma AssignKeepsDistinct(l: Listing, k: string)
    requires Consistent(l) && KeysDistinct(l.entries) && k !in l.keyToUid
    ensures KeysDistinct(Assign(l, k).entries)
  {
    forall i | 0 <= i < |l.entries| ensures l.entries[i].key != k {
      KeyIndexAt(l.entries, i);
    }
  }

  lemma {:induction false} AssignAllKeepsConsistent(l: Listing, ks: seq<string>)
    requires Consistent(l) && l.next + |ks| < UINT32
    ensures Consistent(AssignAll(l, ks))
    ensures AssignAll(l, ks).next == l.next + |ks|
  {
    if ks != [] {
      var front := ks[..|ks| - 1];
      AssignAllKeepsConsistent(l, front);
      var a := AssignAll(l, front);
      AssignKeepsConsistent(a, ks[|ks| - 1]);
    }
  }

  lemma {:induction false} AssignAllKeepsDistinct(l: Listing, ks: seq<string>)
    requires Consistent(l) && l.next + |ks| < UINT32 && KeysDistinct(l.entries)
    requires NoRepeats(ks) && forall i | 0 <= i < |ks| :: ks[i] !in l.keyToUid
    ensures KeysDistinct(AssignAll(l, ks).entries)
  {
    if ks != [] {
      var front, last := ks[..|ks| - 1], ks[|ks| - 1];
      AssignAllKeepsDistinct(l, front);
      AssignAllKeepsConsistent(l, front);
      AssignAllKeys(l, front);
      assert last !in KeySet(front);
      AssignKeepsDistinct(AssignAll(l, front), last);
    }
  }

  /** The keys a run of assignments lists, and the UIDs it leaves alone. */
  lemma {:induction false} AssignAllKeys(l: Listing, ks: seq<string>)
    ensures AssignAll(l, ks).keyToUid.Keys == l.keyToUid.Keys + KeySet(ks)
    ensures forall k | k in l.keyToUid && k !in KeySet(ks) :: AssignAll(l, ks).keyToUid[k] == l.keyToUid[k]
  {
    if ks != [] {
      AssignAllKeys(l, ks[..|ks| - 1]);
      assert KeySet(ks) == KeySet(ks[..|ks| - 1]) + {ks[|ks| - 1]} by {
        assert ks == ks[..|ks| - 1] + [ks[|ks| - 1]];
      }
    }
  }

  /** Once the counter wraps, the entry with the greatest UID is not below it. */
  lemma {:induction false} WrapBreaks(l: Listing, ks: seq<string>)
    requires l.next + |ks| >= UINT32
    ensures exists i :: 0 <= i < |AssignAll(l, ks).entries| && AssignAll(l, ks).entries[i].uid == UINT32 - 1
  {
    var front := ks[..|ks| - 1];
    var a := AssignAll(l, front);
    var es := AssignAll(l, ks).entries;
    if l.next + |front| >= UINT32 {
      WrapBreaks(l, front);
      var i :| 0 <= i < |a.entries| && a.entries[i].uid == UINT32 - 1;
      assert es[i] == a.entries[i];
    } else {
      NextCounts(l, front);
      assert es[|a.entries|].uid == UINT32 - 1;
    }
  }

  lemma {:induction false} NextCounts(l: Listing, ks: seq<string>)
    requires l.next + |ks| < UINT32
    ensures AssignAll(l, ks).next == l.next + |ks|
  {
    if ks != [] {
      NextCounts(l, ks[..|ks| - 1]);
    }
  }

  // -------------------------------------------------------------- new keys

  lemma {:induction false} UnknownMembers(keys: seq<string>, known: set<string>)
    ensures KeySet(Unknown(keys, known)) == KeySet(keys) - known
  {
    if keys != [] {
      var n := |keys| - 1;
      UnknownMembers(keys[..n], known);
      assert keys == keys[..n] + [keys[n]];
      var front, all := Unknown(keys[..n], known), Unknown(keys, known);
      if keys[n] !in known {
        assert KeySet(all) == KeySet(front) + {keys[n]};
      }
    }
  }

  lemma {:induction false} UnknownNoRepeats(keys: seq<string>, known: set<string>)
    requires NoRepeats(keys)
    ensures NoRepeats(Unknown(keys, known))
  {
    if keys != [] {
      var n := |keys| - 1;
      UnknownNoRepeats(keys[..n], known);
      UnknownMembers(keys[..n], known);
      assert keys[n] !in KeySet(Unknown(keys[..n], known));
    }
  }

  lemma NewKeysMembers(l: Listing, keys: seq<string>)
    requires Consistent(l)
    ensures KeySet(NewKeys(l, keys)) == KeySet(keys) - l.keyToUid.Keys
    ensures Sorted(NewKeys(l, keys))
  {
    var known := Pruned(l, KeySet(keys)).keyToUid.Keys;
    GoneKeysAbsent(l.entries, KeySet(keys));
    UnknownMembers(keys, known);
    SortKeysSorts(Unknown(keys, known));
  }

  lemma NewKeysNoRepeats(l: Listing, keys: seq<string>)
    requires NoRepeats(keys)
    ensures NoRepeats(NewKeys(l, keys))
  {
    var known := Pruned(l, KeySet(keys)).keyToUid.Keys;
    UnknownNoRepeats(keys, known);
    SortKeysSorts(Unknown(keys, known));
    NoRepeatsIffBag(Unknown(keys, known));
    NoRepeatsIffBag(NewKeys(l, keys));
  }

  lemma {:induction false} NoRepeatsIffBag(ks: seq<string>)
    ensures NoRepeats(ks) <==> forall k :: multiset(ks)[k] <= 1
  {
    if ks != [] {
      var front, last := ks[..|ks| - 1], ks[|ks| - 1];
      NoRepeatsIffBag(front);
      assert ks == front + [last];
      assert forall k :: multiset(ks)[k] == multiset(front)[k] + if k == last then 1 else 0;
      if last in front {
        assert multiset(ks)[last] >= 2;
        var i :| 0 <= i < |front| && front[i] == last;
        assert ks[i] == ks[|ks| - 1];
      } else {
        assert NoRepeats(front) ==> NoRepeats(ks);
        assert NoRepeats(ks) ==> NoRepeats(front);
      }
    }
  }

  // ----------------------------------------------------------- the results

  /** Consistency survives exactly while the 32-bit counter does not wrap. */
  lemma ReconcileConsistentIffFits(l: Listing, keys: seq<string>)
    requires Consistent(l)
    ensures Consistent(Reconciled(l, keys)) <==> Fits(l, keys)
  {
    var p, ks := Pruned(l, KeySet(keys)), NewKeys(l, keys);
    PruneKeepsConsistent(l, KeySet(keys));
    if Fits(l, keys) {
      AssignAllKeepsConsistent(p, ks);
    } else {
      WrapBreaks(p, ks);
    }
  }

  /** Within an epoch a later list holds old bindings or UIDs never issued before. */
  predicate Extends(a: Listing, b: Listing) {
    && a.version == b.version && a.validity == b.validity && a.next <= b.next
    && forall u | u in b.uidToKey ::
         a.next <= u || (u in a.uidToKey && a.uidToKey[u] == b.uidToKey[u])
  }

  lemma ExtendsTransitive(a: Listing, b: Listing, c: Listing)
    requires Extends(a, b) && Extends(b, c)
    ensures Extends(a, c)
  {
    forall u | u in c.uidToKey && u < a.next ensures u in a.uidToKey && a.uidToKey[u] == c.uidToKey[u] {
      assert u in b.uidToKey;
    }
  }

  lemma {:induction false} AssignAllExtends(l: Listing, ks: seq<string>)
    requires l.next + |ks| < UINT32
    ensures Extends(l, AssignAll(l, ks))
  {
    if ks != [] {
      AssignAllExtends(l, ks[..|ks| - 1]);
      NextCounts(l, ks[..|ks| - 1]);
    }
  }

  lemma ReconcileExtends(l: Listing, keys: seq<string>)
    requires Consistent(l) && Fits(l, keys)
    ensures Extends(l, Reconciled(l, keys))
  {
    AssignAllExtends(Pruned(l, KeySet(keys)), NewKeys(l, keys));
  }

  /** The list's keys become exactly the snapshot's, and a key already listed keeps its UID. */
  lemma ReconcileTracksSnapshot(l: Listing, keys: seq<string>)
    requires Consistent(l)
    ensures Reconciled(l, keys).keyToUid.Keys == KeySet(keys)
    ensures forall k | k in l.keyToUid && k in KeySet(keys) :: Reconciled(l, keys).keyToUid[k] == l.keyToUid[k]
  {
    GoneKeysAbsent(l.entries, KeySet(keys));
    NewKeysMembers(l, keys);
    AssignAllKeys(Pruned(l, KeySet(keys)), NewKeys(l, keys));
  }

  /** Fresh snapshots of distinct keys keep the two indexes mutually inverse. */
  lemma ReconcileKeepsInverse(l: Listing, keys: seq<string>)
    requires Consistent(l) && MutuallyInverse(l) && Fits(l, keys) && NoRepeats(keys)
    ensures MutuallyInverse(Reconciled(l, keys))
  {
    var p, ks := Pruned(l, KeySet(keys)), NewKeys(l, keys);
    DistinctIffInverse(l);
    PruneKeepsConsistent(l, KeySet(keys));
    NewKeysMembers(l, keys);
    NewKeysNoRepeats(l, keys);
    assert forall i | 0 <= i < |ks| :: ks[i] in KeySet(ks);
    AssignAllKeepsDistinct(p, ks);
    ReconcileConsistentIffFits(l, keys);
    DistinctIffInverse(Reconciled(l, keys));
  }

  /** Reconciling that reports no change leaves the list as it was. */
  lemma UnchangedIsIdentity(l: Listing, keys: seq<string>)
    requires !Changes(l, keys)
    ensures Reconciled(l, keys) == l
  {
    KeptAll(l.entries, KeySet(keys));
    assert Pruned(l, KeySet(keys)) == l;
  }

  lemma {:induction false} KeptAll(es: seq<Entry>, present: set<string>)
    ensures |Kept(es, present)| <= |es|
    ensures |Kept(es, present)| == |es| ==>
              Kept(es, present) == es && GoneKeys(es, present) == {} && GoneUids(es, present) == {}
  {
    if es != [] {
      KeptAll(es[..|es| - 1], present);
      assert es == es[..|es| - 1] + [es[|es| - 1]];
    }
  }

  /** A first list that fits in 32 bits is consistent and lists exactly the keys it was given. */
  lemma BootstrapConsistent(keys: seq<string>, now: Uint32)
    requires 1 + |keys| < UINT32
    ensures Consistent(Bootstrapped(keys, now))
    ensures Bootstrapped(keys, now).keyToUid.Keys == KeySet(keys)
    ensures NoRepeats(keys) ==> MutuallyInverse(Bootstrapped(keys, now))
  {
    var empty, sorted := EmptyListing(now), SortKeys(keys);
    SortKeysSorts(keys);
    AssignAllKeepsConsistent(empty, sorted);
    AssignAllKeys(empty, sorted);
    if NoRepeats(keys) {
      NoRepeatsIffBag(keys);
      NoRepeatsIffBag(sorted);
      AssignAllKeepsDistinct(empty, sorted);
      DistinctIffInverse(Bootstrapped(keys, now));
    }
  }

  // ------------------------------------------------------- numbers in order

  function KeysOfEntries(es: seq<Entry>): seq<string> {
    seq(|es|, i requires 0 <= i < |es| => es[i].key)
  }

  /** The entries number these keys one after another from first on. */
  predicate Numbered(es: seq<Entry>, first: nat, ks: seq<string>) {
    |es| == |ks| && forall i | 0 <= i < |es| :: es[i].uid == first + i && es[i].key == ks[i]
  }

  lemma {:induction false} AssignAllNumbers(l: Listing, ks: seq<string>)
    requires l.next + |ks| < UINT32
    ensures var r := AssignAll(l, ks);
      && r.version == l.version && r.validity == l.validity && r.next == l.next + |ks|
      && |r.entries| == |l.entries| + |ks| && r.entries[..|l.entries|] == l.entries
      && Numbered(r.entries[|l.entries|..], l.next, ks)
  {
    var r := AssignAll(l, ks);
    if ks == [] {
      assert r.entries[..|l.entries|] == l.entries;
    } else {
      var front := AssignAll(l, ks[..|ks| - 1]);
      AssignAllNumbers(l, ks[..|ks| - 1]);
      assert r.entries == front.entries + [Entry(front.next, ks[|ks| - 1])];
      assert r.entries[..|l.entries|] == front.entries[..|l.entries|];
      assert r.entries[|l.entries|..] == front.entries[|l.entries|..] + [Entry(front.next, ks[|ks| - 1])];
    }
  }

  /** A first list: version 3, the time as validity, and the keys in order numbered from 1. */
  predicate FirstList(l: Listing, keys: seq<string>, now: Uint32) {
    var ks := KeysOfEntries(l.entries);
    && l.version == 3 && l.validity == now && l.next == 1 + |keys|
    && |l.entries| == |keys| && (forall i | 0 <= i < |l.entries| :: l.entries[i].uid == 1 + i)
    && Sorted(ks) && multiset(ks) == multiset(keys)
  }

  lemma BootstrapIsFirstList(keys: seq<string>, now: Uint32)
    requires 1 + |keys| < UINT32
    ensures FirstList(LoadedList(None, keys, now), keys, now)
  {
    var l := LoadedList(None, keys, now);
    SortKeysSorts(keys);
    AssignAllNumbers(EmptyListing(now), SortKeys(keys));
    assert l.entries[0..] == l.entries;
    NumberedKeys(l.entries, 1, SortKeys(keys));
  }

  lemma NumberedKeys(es: seq<Entry>, first: nat, ks: seq<string>)
    requires Numbered(es, first, ks)
    ensures KeysOfEntries(es) == ks
  {
  }

  lemma {:induction false} UnknownCounts(keys: seq<string>, known: set<string>, k: string)
    ensures multiset(Unknown(keys, known))[k] == if k in known then 0 else multiset(keys)[k]
  {
    if keys != [] {
      var front, last := keys[..|keys| - 1], keys[|keys| - 1];
      UnknownCounts(front, known, k);
      assert keys == front + [last];
    }
  }

  lemma {:induction false} KeptMembers(es: seq<Entry>, present: set<string>, e: Entry)
    ensures multiset(Kept(es, present))[e] == if e.key in present then multiset(es)[e] else 0
  {
    if es != [] {
      var front, last := es[..|es| - 1], es[|es| - 1];
      KeptMembers(front, present, e);
      assert es == front + [last];
    }
  }

  /** Of the entries, exactly those whose key is in the snapshot. */
  ghost predicate KeepsListed(es: seq<Entry>, keys: seq<string>, kept: seq<Entry>) {
    forall e: Entry :: multiset(kept)[e] == if e.key in keys then multiset(es)[e] else 0
  }

  /** Of the snapshot, exactly the keys not yet listed, in order, as often as it has them. */
  ghost predicate AddsUnlisted(known: set<string>, keys: seq<string>, ks: seq<string>) {
    Sorted(ks) && forall k: string :: multiset(ks)[k] == if k in known then 0 else multiset(keys)[k]
  }

  /**
    What reconciling does to the entries: those whose key is in the snapshot stay,
    and behind them come the snapshot's other keys in order, with the next UIDs.
    Header fields but the next UID stay as they are.
   */
  ghost predicate InOrder(l: Listing, keys: seq<string>, r: Listing, kept: seq<Entry>, ks: seq<string>) {
    && r.version == l.version && r.validity == l.validity && r.next == l.next + |ks|
    && |r.entries| == |kept| + |ks| && r.entries[..|kept|] == kept && Numbered(r.entries[|kept|..], l.next, ks)
    && KeepsListed(l.entries, keys, kept) && AddsUnlisted(l.keyToUid.Keys, keys, ks)
  }

  lemma ReconcileInOrder(l: Listing, keys: seq<string>)
    requires Consistent(l) && Fits(l, keys)
    ensures exists kept, ks :: InOrder(l, keys, Reconciled(l, keys), kept, ks)
  {
    var p, ks := Pruned(l, KeySet(keys)), NewKeys(l, keys);
    AssignAllNumbers(p, ks);
    KeptListed(l.entries, keys);
    AddedUnlisted(l, keys);
    assert InOrder(l, keys, Reconciled(l, keys), p.entries, ks);
  }

  lemma KeptListed(es: seq<Entry>, keys: seq<string>)
    ensures KeepsListed(es, keys, Kept(es, KeySet(keys)))
  {
    forall e: Entry ensures multiset(Kept(es, KeySet(keys)))[e] == if e.key in keys then multiset(es)[e] else 0 {
      KeptMembers(es, KeySet(keys), e);
    }
  }

  lemma AddedUnlisted(l: Listing, keys: seq<string>)
    requires Consistent(l)
    ensures AddsUnlisted(l.keyToUid.Keys, keys, NewKeys(l, keys))
  {
    NewKeysMembers(l, keys);
    forall k: string ensures multiset(NewKeys(l, keys))[k] == if k in l.keyToUid then 0 else multiset(keys)[k] {
      NewKeysCounts(l, keys, k);
    }
  }

  lemma NewKeysCounts(l: Listing, keys: seq<string>, k: string)
    requires Consistent(l)
    ensures multiset(NewKeys(l, keys))[k] == if k in l.keyToUid then 0 else multiset(keys)[k]
  {
    var known := Pruned(l, KeySet(keys)).keyToUid.Keys;
    GoneKeysAbsent(l.entries, KeySet(keys));
    SortKeysSorts(Unknown(keys, known));
    UnknownCounts(keys, known, k);
    if k in l.keyToUid && k !in known {
      assert k !in KeySet(keys) && k !in keys;
    }
  }

  // --------------------------------------------------------------- loading

  /** The list a load yields from the list on disk, if there is a readable one. */
  function LoadedList(disk: Option<Listing>, keys: seq<string>, now: Uint32): Listing {
    match disk
    case None => Bootstrapped(keys, now)
    case Some(l) => Reconciled(l, keys)
  }

  predicate LoadFits(disk: Option<Listing>, keys: seq<string>) {
    match disk
    case None => 1 + |keys| < UINT32
    case Some(l) => Fits(l, keys)
  }

  lemma LoadedListRules(disk: Option<Listing>, keys: seq<string>, now: Uint32)
    requires LoadFits(disk, keys) && (disk.Some? ==> Consistent(disk.value))
    ensures Consistent(LoadedList(disk, keys, now))
    ensures LoadedList(disk, keys, now).keyToUid.Keys == KeySet(keys)
    ensures disk.Some? ==> Extends(disk.value, LoadedList(disk, keys, now))
  {
    match disk {
      case None =>
        BootstrapConsistent(keys, now);
      case Some(l) =>
        ReconcileConsistentIffFits(l, keys);
        ReconcileTracksSnapshot(l, keys);
        ReconcileExtends(l, keys);
    }
  }

  /**
    CopyMessage answers with next - 1. For the key of the copy, new to the list, that
    is its UID exactly when the copy is in cur/ and no other key new to the list sorts
    after it; a copy delivered to new/ is not in the snapshot and has no UID yet.
   */
  lemma CopyUidIffGreatestNewKey(l: Listing, keys: seq<string>, k: string)
    requires Consistent(l) && Fits(l, keys) && k !in l.keyToUid
    ensures k in Reconciled(l, keys).keyToUid && Reconciled(l, keys).keyToUid[k] == Reconciled(l, keys).next - 1
            <==> k in keys && forall k' | k' in NewKeys(l, keys) :: KeyLe(k', k)
  {
    ReconcileTracksSnapshot(l, keys);
    NewKeysMembers(l, keys);
    if k in keys {
      assert k in KeySet(keys);
      assert k in KeySet(NewKeys(l, keys));
      GreatestNewKey(l, keys, k);
    }
  }

  lemma GreatestNewKey(l: Listing, keys: seq<string>, k: string)
    requires Consistent(l) && Fits(l, keys) && k in NewKeys(l, keys)
    ensures k in Reconciled(l, keys).keyToUid
    ensures Reconciled(l, keys).keyToUid[k] == Reconciled(l, keys).next - 1
            <==> forall k' | k' in NewKeys(l, keys) :: KeyLe(k', k)
  {
    var p, ks, r := Pruned(l, KeySet(keys)), NewKeys(l, keys), Reconciled(l, keys);
    var n := |ks| - 1;
    PruneKeepsConsistent(l, KeySet(keys));
    NewKeysMembers(l, keys);
    AssignAllKeys(p, ks);
    LastAssigned(p, ks, k);
    forall k' | k' in ks ensures KeyLe(k', ks[n]) {
      KeyLeTotal(k', k');
    }
    if forall k' | k' in ks :: KeyLe(k', k) {
      KeyLeTotal(ks[n], k);
    }
  }

  /** The last key assigned, and it alone, holds the UID just below next. */
  lemma LastAssigned(l: Listing, ks: seq<string>, k: string)
    requires Consistent(l) && l.next + |ks| < UINT32 && ks != [] && k in AssignAll(l, ks).keyToUid
    ensures AssignAll(l, ks).keyToUid[k] == AssignAll(l, ks).next - 1 <==> k == ks[|ks| - 1]
  {
    AssignAllKeepsConsistent(l, ks[..|ks| - 1]);
    JustAssigned(AssignAll(l, ks[..|ks| - 1]), ks[|ks| - 1], k);
  }

  lemma JustAssigned(l: Listing, last: string, k: string)
    requires Consistent(l) && l.next + 1 < UINT32 && k in Assign(l, last).keyToUid
    ensures Assign(l, last).keyToUid[k] == Assign(l, last).next - 1 <==> k == last
  {
    KeysBelowNext(l);
  }

  lemma KeysBelowNext(l: Listing)
    requires Consistent(l)
    ensures forall k | k in l.keyToUid :: l.keyToUid[k] < l.next
  {
    forall k | k in l.keyToUid ensures l.keyToUid[k] < l.next {
      var i := KeyIndexFrom(l.entries, k);
    }
  }
}
