/**
  One folder of the Maildir store: the messages in cur/, the list on disk shared
  with other processes, and this process's cached list and deletion marks. The
  list on disk is the value the .uidlist file reads back as; UidRuns.LoadReadsBack
  is what makes the two interchangeable.
 */
module MaildirStore {
  import opened Text
  import opened UidList
  import opened UidRules

  /** What LIST shows of a message. */
  datatype Info = Info(uid: Uint32, key: string, trashed: bool)

  datatype Outcome = Done | RemoveFailed

  /** The entries not marked for deletion whose message is still in cur/. */
  function Visible(es: seq<Entry>, marks: set<Uint32>, cur: set<string>, trashed: set<string>): seq<Info> {
    if es == [] then []
    else
      var n := |es| - 1;
      var e := es[n];
      var front := Visible(es[..n], marks, cur, trashed);
      if e.uid in marks || e.key !in cur then front else front + [Info(e.uid, e.key, e.key in trashed)]
  }

  /**
    Every message shown is an unmarked entry still in cur/, flagged exactly when its
    file name carries the flag; and every such entry is shown.
   */
  predicate ShowsAll(es: seq<Entry>, marks: set<Uint32>, cur: set<string>, trashed: set<string>, infos: seq<Info>) {
    && (forall x | x in infos :: x.uid !in marks && x.key in cur && (x.trashed <==> x.key in trashed) && Entry(x.uid, x.key) in es)
    && (forall e | e in es && e.uid !in marks && e.key in cur :: Info(e.uid, e.key, e.key in trashed) in infos)
  }

  lemma ShowsOneMore(es: seq<Entry>, e: Entry, marks: set<Uint32>, cur: set<string>, trashed: set<string>, infos: seq<Info>)
    requires ShowsAll(es, marks, cur, trashed, infos)
    ensures ShowsAll(es + [e], marks, cur, trashed,
                     if e.uid in marks || e.key !in cur then infos else infos + [Info(e.uid, e.key, e.key in trashed)])
  {
  }

  lemma {:induction false} VisibleShowsAll(es: seq<Entry>, marks: set<Uint32>, cur: set<string>, trashed: set<string>)
    ensures ShowsAll(es, marks, cur, trashed, Visible(es, marks, cur, trashed))
  {
    if es != [] {
      var n := |es| - 1;
      VisibleShowsAll(es[..n], marks, cur, trashed);
      ShowsOneMore(es[..n], es[n], marks, cur, trashed, Visible(es[..n], marks, cur, trashed));
      assert es[..n] + [es[n]] == es;
    }
  }

  /** The keys that a set of UIDs names in a list. */
  function KeysOf(l: Listing, uids: set<Uint32>): set<string> {
    set u | u in uids && u in l.uidToKey :: l.uidToKey[u]
  }

  /** The list binds UIDs only as they were issued. */
  predicate AsIssued(l: Listing, issued: map<Uint32, string>) {
    forall u | u in l.uidToKey :: u in issued && issued[u] == l.uidToKey[u]
  }

  /** The file agrees with everything ever issued, and every UID issued is below its next one. */
  predicate Ledger(disk: Option<Listing>, issued: map<Uint32, string>) {
    && (disk.None? ==> issued == map[])
    && (disk.Some? ==> Consistent(disk.value) && AsIssued(disk.value, issued))
    && (disk.Some? ==> forall u | u in issued :: u < disk.value.next)
  }

  /** A load issues only UIDs never issued before, so that no earlier binding is lost or changed. */
  lemma LoadExtendsLedger(disk: Option<Listing>, issued: map<Uint32, string>, keys: seq<string>, now: Uint32)
    requires Ledger(disk, issued) && LoadFits(disk, keys)
    ensures var l := LoadedList(disk, keys, now);
      && Ledger(Some(l), issued + l.uidToKey)
      && l.keyToUid.Keys == KeySet(keys)
      && forall u | u in issued :: (issued + l.uidToKey)[u] == issued[u]
  {
    LoadedListRules(disk, keys, now);
    UidsBelowNext(LoadedList(disk, keys, now));
  }

  /** A load by another process or another call: what it saw of cur/, and when. */
  datatype Load = Load(keys: seq<string>, now: Uint32)

  function AfterLoads(disk: Option<Listing>, loads: seq<Load>): Option<Listing>
    decreases |loads|
  {
    if loads == [] then disk else AfterLoads(Some(LoadedList(disk, loads[0].keys, loads[0].now)), loads[1..])
  }

  predicate LoadsFit(disk: Option<Listing>, loads: seq<Load>)
    decreases |loads|
  {
    loads != [] ==>
      LoadFits(disk, loads[0].keys) && LoadsFit(Some(LoadedList(disk, loads[0].keys, loads[0].now)), loads[1..])
  }

  method BuildInfos(es: seq<Entry>, marks: set<Uint32>, cur: set<string>, trashed: set<string>)
    returns (infos: seq<Info>)
    ensures infos == Visible(es, marks, cur, trashed)
    ensures ShowsAll(es, marks, cur, trashed, infos)
  {
    infos := [];
    for i := 0 to |es|
      invariant infos == Visible(es[..i], marks, cur, trashed)
    {
      assert es[..i + 1][..i] == es[..i];
      if es[i].uid !in marks && es[i].key in cur {
        infos := infos + [Info(es[i].uid, es[i].key, es[i].key in trashed)];
      }
    }
    assert es[..|es|] == es;
    VisibleShowsAll(es, marks, cur, trashed);
  }

  lemma KeySetEmptyIff(ks: seq<string>)
    ensures KeySet(ks) == {} <==> ks == []
  {
    assert ks != [] ==> ks[0] in KeySet(ks);
  }

  /** Against a snapshot without new keys, reconciling only prunes. */
  lemma ShrinkingReconcile(l: Listing, keys: seq<string>)
    requires Consistent(l) && KeySet(keys) <= l.keyToUid.Keys
    ensures Reconciled(l, keys) == Pruned(l, KeySet(keys))
    ensures Consistent(Reconciled(l, keys))
  {
    NewKeysMembers(l, keys);
    KeySetEmptyIff(NewKeys(l, keys));
    PruneKeepsConsistent(l, KeySet(keys));
  }

  class Folder {
    var cur: set<string>       // keys in cur/
    var trashed: set<string>   // keys whose file name carries the T flag
    var disk: Option<Listing>  // what .uidlist holds
    var cache: Option<Listing> // the cached list of this process
    var marks: set<Uint32>     // UIDs marked by Delete
    ghost var issued: map<Uint32, string> // every binding any list of the epoch has held

    ghost predicate Valid()
      reads this
    {
      Ledger(disk, issued) && (cache.Some? ==> Past(cache.value))
    }

    /** A list that the file held at some time of this epoch agrees with what was issued. */
    ghost predicate Past(l: Listing)
      reads this
    {
      disk.Some? && AsIssued(l, issued)
    }

    /** Nothing issued is ever forgotten or bound again. */
    twostate predicate Remembers()
      reads this
    {
      forall u | u in old(issued) :: u in issued && issued[u] == old(issued[u])
    }

    constructor ()
      ensures Valid() && disk == None && cache == None && marks == {} && cur == {} && issued == map[]
    {
      cur, trashed, disk, cache, marks, issued := {}, {}, None, None, {}, map[];
    }

    /** Under the lock: load, reconcile against a snapshot, write back. */
    method LoadLocked(snapshot: seq<string>, now: Uint32) returns (ul: UidList)
      requires Valid() && LoadFits(disk, snapshot)
      modifies this`disk, this`issued
      ensures Valid() && Remembers()
      ensures fresh(ul) && ul.Value() == LoadedList(old(disk), snapshot, now)
      ensures disk == Some(ul.Value()) && ul.keyToUid.Keys == KeySet(snapshot)
    {
      LoadExtendsLedger(disk, issued, snapshot, now);
      if disk.None? {
        ul := new UidList.Bootstrap(snapshot, now);
      } else {
        ul := new UidList.Of(disk.value);
        var changed := ul.Reconcile(snapshot);
      }
      disk := Some(ul.Value());
      issued := issued + ul.uidToKey;
    }

    /** Loads by others, against any snapshots, while this call does not hold the lock. */
    method OthersLoad(loads: seq<Load>)
      requires Valid() && LoadsFit(disk, loads)
      modifies this`disk, this`issued
      ensures Valid() && Remembers()
      ensures disk == AfterLoads(old(disk), loads) && (old(disk).Some? ==> disk.Some?)
    {
      var rest := loads;
      while rest != []
        invariant Valid() && LoadsFit(disk, rest) && AfterLoads(disk, rest) == AfterLoads(old(disk), loads)
        invariant Remembers() && (old(disk).Some? ==> disk.Some?)
        decreases |rest|
      {
        var ul := LoadLocked(rest[0].keys, rest[0].now);
        rest := rest[1..];
      }
    }

    /**
      listDir. The snapshot is taken before the lock, so it need not be cur/, and the
      list is cached after the lock is released, so that others may have loaded again.
     */
    method List(snapshot: seq<string>, now: Uint32, others: seq<Load>) returns (infos: seq<Info>)
      requires Valid() && LoadFits(disk, snapshot)
      requires LoadsFit(Some(LoadedList(disk, snapshot, now)), others)
      modifies this`disk, this`cache, this`issued
      ensures Valid() && Remembers()
      ensures var l := LoadedList(old(disk), snapshot, now);
        && cache == Some(l) && disk == AfterLoads(Some(l), others)
        && infos == Visible(l.entries, marks, cur, trashed)
        && ShowsAll(l.entries, marks, cur, trashed, infos)
    {
      var ul := LoadLocked(snapshot, now);
      ghost var after := issued;
      OthersLoad(others);
      assert forall u | u in after :: u in issued && issued[u] == after[u];
      cache := Some(ul.Value());
      infos := BuildInfos(ul.entries, marks, cur, trashed);
    }

    /**
      lookupKey. Through a stale cache or not, the key found for a UID is the one that
      was issued with it: the key the file lists for it, or, when the file lists the UID
      no more, the key that has since been removed. It is never another message's.
     */
    method LookupKey(uid: Uint32, snapshot: seq<string>, now: Uint32, others: seq<Load>) returns (r: Option<string>)
      requires Valid()
      requires cache.None? ==> LoadFits(disk, snapshot) && LoadsFit(Some(LoadedList(disk, snapshot, now)), others)
      modifies this`disk, this`cache, this`issued
      ensures Valid() && Remembers() && disk.Some? && cache.Some?
      ensures r.Some? <==> uid in cache.value.uidToKey
      ensures r.Some? ==> uid in issued && r.value == issued[uid]
      ensures r.Some? && uid in disk.value.uidToKey ==> r.value == disk.value.uidToKey[uid]
      ensures old(cache).Some? ==> cache == old(cache) && disk == old(disk)
      ensures old(cache).None? ==>
        cache == Some(LoadedList(old(disk), snapshot, now)) && disk == AfterLoads(cache, others)
    {
      if cache.None? {
        var infos := List(snapshot, now, others);
      }
      r := if uid in cache.value.uidToKey then Some(cache.value.uidToKey[uid]) else None;
    }

    method Delete(uid: Uint32)
      modifies this`marks
      ensures marks == old(marks) + {uid}
    {
      marks := marks + {uid};
    }

    /**
      AppendToFolder, once the message has been moved to cur/. The snapshot is cur/ as
      it is read under the lock; the key may have been removed again by then, and is
      then not found.
     */
    method Append(key: string, trash: bool, snapshot: seq<string>, now: Uint32) returns (uid: Option<Uint32>)
      requires Valid() && LoadFits(disk, snapshot)
      modifies this
      ensures Valid() && Remembers() && cache == None && marks == old(marks) && cur == KeySet(snapshot)
      ensures trashed == if trash then old(trashed) + {key} else old(trashed)
      ensures disk == Some(LoadedList(old(disk), snapshot, now))
      ensures uid.Some? <==> key in cur
      ensures uid.Some? ==> key in disk.value.keyToUid && disk.value.keyToUid[key] == uid.value
    {
      var ul := LoadLocked(snapshot, now);
      cur, cache := KeySet(snapshot), None;
      if trash {
        trashed := trashed + {key};
      }
      uid := if key in ul.keyToUid then Some(ul.keyToUid[key]) else None;
    }

    /** The end of Expunge, still under the lock: reconcile against the second snapshot and write. */
    method Settle(ul: UidList, remaining: seq<string>)
      requires Valid() && disk == Some(ul.Value()) && Fits(ul.Value(), remaining)
      modifies this`cur, this`disk, this`cache, this`issued, ul
      ensures Valid() && Remembers() && cache == None && cur == KeySet(remaining)
      ensures disk == Some(Reconciled(old(ul.Value()), remaining)) && disk.value.keyToUid.Keys == cur
    {
      LoadExtendsLedger(disk, issued, remaining, 0);
      var changed := ul.Reconcile(remaining);
      cur, disk, cache := KeySet(remaining), Some(ul.Value()), None;
      issued := issued + ul.uidToKey;
    }

    /** What Expunge does for the UIDs that were marked, under the lock. */
    method RemoveMarked(doomed: set<Uint32>, snapshot: seq<string>, remaining: seq<string>, stuck: set<string>, now: Uint32)
      returns (r: Outcome, removed: set<string>)
      requires Valid() && LoadFits(disk, snapshot) && Fits(LoadedList(disk, snapshot, now), remaining)
      modifies this`cur, this`disk, this`cache, this`issued
      ensures Valid() && Remembers()
      ensures var l := LoadedList(old(disk), snapshot, now);
        var gone := KeysOf(l, doomed);
        && removed == gone - stuck
        && (r == RemoveFailed <==> gone * stuck != {})
        && (r == RemoveFailed ==> cur == KeySet(snapshot) - removed && disk == Some(l) && cache == old(cache))
        && (r == Done ==> cur == KeySet(remaining) && disk == Some(Reconciled(l, remaining)) && cache == None)
        && (r == Done ==> disk.value.keyToUid.Keys == cur)
    {
      var ul := LoadLocked(snapshot, now);
      var gone := KeysOf(ul.Value(), doomed);
      removed := gone - stuck;
      if gone * stuck != {} {
        r, cur := RemoveFailed, KeySet(snapshot) - removed;
      } else {
        r := Done;
        Settle(ul, remaining);
      }
    }

    /**
      Expunge. The two snapshots are cur/ as it is read before and after the removals;
      messages may arrive in between. stuck is the set of keys whose file cannot be
      removed: if a marked message is among them the call stops after the removals.
      Otherwise the list loaded is reconciled against what the second snapshot shows.
     */
    method Expunge(snapshot: seq<string>, remaining: seq<string>, stuck: set<string>, now: Uint32)
      returns (r: Outcome, removed: set<string>)
      requires Valid()
      requires marks != {} ==> LoadFits(disk, snapshot) && Fits(LoadedList(disk, snapshot, now), remaining)
      modifies this
      ensures Valid() && Remembers() && marks == {} && trashed == old(trashed)
      ensures old(marks) == {} ==>
        r == Done && removed == {} && cur == old(cur) && disk == old(disk) && cache == old(cache)
      ensures old(marks) != {} ==>
        var l := LoadedList(old(disk), snapshot, now);
        var gone := KeysOf(l, old(marks));
        && removed == gone - stuck
        && (r == RemoveFailed <==> gone * stuck != {})
        && (r == RemoveFailed ==> cur == KeySet(snapshot) - removed && disk == Some(l) && cache == old(cache))
        && (r == Done ==> cur == KeySet(remaining) && disk == Some(Reconciled(l, remaining)) && cache == None)
        && (r == Done ==> disk.value.keyToUid.Keys == cur)
    {
      var doomed := marks;
      marks, r, removed := {}, Done, {};
      if doomed != {} {
        r, removed := RemoveMarked(doomed, snapshot, remaining, stuck, now);
      }
    }
  }
}
