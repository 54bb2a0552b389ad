/**
  MOVE through a store that moves each message at once: copied, marked and expunged
  before the next one is looked at (section 3.3 of RFC 6851). However many steps it
  takes, the folder ends up as after one expunge of everything that was moved.
 */
module ImapMove {
  import opened Text
  import opened UidList
  import opened UidRules
  import opened MaildirStore
  import opened ImapExpunge

  // ------------------------------------------------------- pruning step by step

  lemma {:induction false} GoneUidsAbsent(es: seq<Entry>, present: set<string>, u: Uint32)
    requires Ascending(es)
    ensures u in GoneUids(es, present) <==> u in UidIndex(es) && UidIndex(es)[u] !in present
  {
    if es != [] {
      var n := |es| - 1;
      FrontAscends(es);
      GoneUidsAbsent(es[..n], present, u);
    }
  }

  /** Pruning in two steps is pruning in one. */
  lemma PrunedWithin(l: Listing, outer: set<string>, inner: set<string>)
    requires Consistent(l) && inner <= outer
    ensures Pruned(Pruned(l, outer), inner) == Pruned(l, inner)
  {
    KeptWithin(l.entries, outer, inner);
    PruneKeepsConsistent(l, outer);
    PruneKeepsConsistent(l, inner);
    PruneKeepsConsistent(Pruned(l, outer), inner);
  }

  lemma {:induction false} KeptEverything(es: seq<Entry>, present: set<string>)
    requires KeyIndex(es).Keys <= present
    ensures |Kept(es, present)| == |es|
  {
    if es != [] {
      var n := |es| - 1;
      assert KeyIndex(es[..n]).Keys <= KeyIndex(es).Keys;
      assert es[n].key in KeyIndex(es).Keys;
      KeptEverything(es[..n], present);
    }
  }

  lemma PrunedOfNothing(l: Listing)
    requires Consistent(l)
    ensures Pruned(l, l.keyToUid.Keys) == l
  {
    KeptEverything(l.entries, l.keyToUid.Keys);
    KeptAll(l.entries, l.keyToUid.Keys);
  }

  /** The keys left of a list once some UIDs have been expunged. */
  function Left(l: Listing, gone: set<Uint32>): set<string> {
    l.keyToUid.Keys - KeysOf(l, gone)
  }

  /** Expunging more UIDs from what is left is expunging them all from the list. */
  lemma LeftOfMore(l: Listing, gone: set<Uint32>, more: set<Uint32>)
    requires Consistent(l)
    ensures Left(l, gone) - KeysOf(Pruned(l, Left(l, gone)), more) == Left(l, gone + more)
    ensures Left(l, gone + more) <= Left(l, gone)
  {
    var p := Pruned(l, Left(l, gone));
    forall u ensures u in p.uidToKey <==> u in l.uidToKey && l.uidToKey[u] in Left(l, gone) {
      GoneUidsAbsent(l.entries, Left(l, gone), u);
    }
    forall k | k in Left(l, gone) ensures k in KeysOf(p, more) <==> k in KeysOf(l, more) {
      if k in KeysOf(l, more) {
        var u :| u in more && u in l.uidToKey && l.uidToKey[u] == k;
        assert u in p.uidToKey && p.uidToKey[u] == k;
      }
    }
    forall k ensures k in KeysOf(l, gone + more) <==> k in KeysOf(l, gone) || k in KeysOf(l, more) {
    }
  }

  lemma PrunedKeys(l: Listing, present: set<string>)
    requires Consistent(l) && present <= l.keyToUid.Keys
    ensures Pruned(l, present).keyToUid.Keys == present
  {
    GoneKeysAbsent(l.entries, present);
  }

  // -------------------------------------------------------------- one message

  /** Reading a directory lists exactly the keys in it, in some order. */
  ghost predicate Lists(dir: set<string> -> seq<string>) {
    forall keys: set<string> :: KeySet(dir(keys)) == keys
  }

  /** The folder holds what is left of l after the UIDs in gone, and so would its list if it were read now. */
  ghost predicate Stage(f: Folder, dir: set<string> -> seq<string>, now: Uint32, l: Listing, gone: set<Uint32>)
    reads f
  {
    && f.Valid() && LoadFits(f.disk, dir(f.cur)) && f.cur == Left(l, gone)
    && LoadedList(f.disk, dir(f.cur), now) == Pruned(l, f.cur)
  }

  /** What is on disk after an expunge reads as itself. */
  lemma StageAfter(l: Listing, gone: set<Uint32>, keys: seq<string>, now: Uint32)
    requires Consistent(l) && KeySet(keys) == Left(l, gone)
    ensures LoadFits(Some(Pruned(l, Left(l, gone))), keys)
    ensures LoadedList(Some(Pruned(l, Left(l, gone))), keys, now) == Pruned(l, Left(l, gone))
  {
    var left := Left(l, gone);
    PruneKeepsConsistent(l, left);
    PrunedKeys(l, left);
    ShrinkingFits(Pruned(l, left), keys);
    ShrinkingReconcile(Pruned(l, left), keys);
    PrunedWithin(l, left, left);
  }

  /** One message of the move: marked, and expunged with whatever else was marked. */
  method MoveOne(f: Folder, uid: Uint32, dir: set<string> -> seq<string>, now: Uint32, ghost l: Listing, ghost gone: set<Uint32>)
    requires Lists(dir) && Consistent(l) && Stage(f, dir, now, l, gone)
    modifies f
    ensures f.marks == {} && f.trashed == old(f.trashed)
    ensures Stage(f, dir, now, l, gone + (old(f.marks) + {uid}))
  {
    f.Delete(uid);
    ghost var doomed, p := f.marks, Pruned(l, f.cur);
    LeftOfMore(l, gone, doomed);
    PrunedKeys(l, f.cur);
    PruneKeepsConsistent(l, f.cur);
    PrunedWithin(l, f.cur, Left(l, gone + doomed));
    var snapshot := dir(f.cur);
    var remaining := dir(f.cur - KeysOf(LoadOf(f, snapshot, now), f.marks));
    ShrinkingFits(p, remaining);
    ShrinkingReconcile(p, remaining);
    StageAfter(l, gone + doomed, dir(Left(l, gone + doomed)), now);
    var r, removed := f.Expunge(snapshot, remaining, {}, now);
  }

  /** The list the store loads for the expunge. */
  function LoadOf(f: Folder, snapshot: seq<string>, now: Uint32): Listing
    reads f
  {
    LoadedList(f.disk, snapshot, now)
  }

  /** The message is still listed: its entry is there and its key has not been expunged. */
  lemma ListedIff(l: Listing, gone: set<Uint32>, uid: Uint32)
    requires Consistent(l)
    ensures uid in Pruned(l, Left(l, gone)).uidToKey ==> uid !in gone
  {
    GoneUidsAbsent(l.entries, Left(l, gone), uid);
    if uid in gone && uid in l.uidToKey {
      assert l.uidToKey[uid] in KeysOf(l, gone);
    }
  }

  // ----------------------------------------------------------------- the move

  /** What has happened to the folder once the messages at the positions in done have been moved. */
  ghost predicate Moved(s: Session, dir: set<string> -> seq<string>, now: Uint32, l: Listing, marks: set<Uint32>, done: seq<nat>,
                        gone: set<Uint32>)
    reads s, s.folder
  {
    && Stage(s.folder, dir, now, l, gone)
    && (done == [] ==> gone == {} && s.folder.marks == marks)
    && (done != [] ==> gone == marks + UidsAt(s.messages, Positions(done)) && s.folder.marks == {})
  }

  /**
    The loop over the messages. A message that is no longer listed cannot be moved, so
    that a message named twice fails the move.
   */
  method MoveEach(s: Session, indices: seq<int>, moveFails: set<Uint32>, dir: set<string> -> seq<string>, now: Uint32, ghost l: Listing)
    returns (ok: bool, ghost gone: set<Uint32>)
    requires Lists(dir) && Consistent(l) && Stage(s.folder, dir, now, l, {})
    modifies s.folder
    ensures s.folder.Valid() && s.folder.trashed == old(s.folder.trashed)
    ensures ok ==> Moved(s, dir, now, l, old(s.folder.marks), InRange(indices, |s.messages|), gone)
    ensures ok ==> Distinct(InRange(indices, |s.messages|))
    ensures ok && InRange(indices, |s.messages|) == [] ==> s.folder.cur == old(s.folder.cur) && s.folder.disk == old(s.folder.disk)
  {
    ghost var n, marks, done := |s.messages|, s.folder.marks, [];
    gone := {};
    for i := 0 to |indices|
      invariant done == InRange(indices[..i], n) && Distinct(done)
      invariant Moved(s, dir, now, l, marks, done, gone) && s.folder.trashed == old(s.folder.trashed)
      invariant done == [] ==> s.folder.cur == old(s.folder.cur) && s.folder.disk == old(s.folder.disk)
    {
      assert indices[..i + 1][..i] == indices[..i];
      var x := indices[i];
      if 0 <= x < |s.messages| {
        var uid := s.messages[x].uid;
        if uid in moveFails || uid !in LoadOf(s.folder, dir(s.folder.cur), now).uidToKey {
          return false, gone;
        }
        NotYetMoved(l, gone, s.messages, done, x, marks);
        MovedOneMore(s.messages, marks, done, x, gone, s.folder.marks);
        MoveOne(s.folder, uid, dir, now, l, gone);
        gone := marks + UidsAt(s.messages, Positions(done + [x]));
        done := done + [x];
      }
    }
    assert indices[..|indices|] == indices;
    ok := true;
  }

  lemma NotYetMoved(l: Listing, gone: set<Uint32>, view: seq<Info>, done: seq<nat>, x: nat, marks: set<Uint32>)
    requires Consistent(l) && x < |view| && Distinct(done) && view[x].uid in Pruned(l, Left(l, gone)).uidToKey
    requires done != [] ==> gone == marks + UidsAt(view, Positions(done))
    ensures Distinct(done + [x])
  {
    ListedIff(l, gone, view[x].uid);
    MovedIsGone(view, done, x);
  }

  lemma MovedIsGone(view: seq<Info>, done: seq<nat>, x: nat)
    requires x < |view|
    ensures x in done ==> view[x].uid in UidsAt(view, Positions(done))
  {
    if x in done {
      assert x in Positions(done);
    }
  }

  lemma MovedOneMore(view: seq<Info>, marks: set<Uint32>, done: seq<nat>, x: nat, gone: set<Uint32>, pending: set<Uint32>)
    requires x < |view|
    requires done == [] ==> gone == {} && pending == marks
    requires done != [] ==> gone == marks + UidsAt(view, Positions(done)) && pending == {}
    ensures gone + (pending + {view[x].uid}) == marks + UidsAt(view, Positions(done + [x]))
  {
    assert Positions(done + [x]) == Positions(done) + {x};
    MarkOne(view, Positions(done), x);
    assert UidsAt(view, Positions([])) == {};
  }

  /**
    Move with an atomic mover. A failure leaves the queue and the view as they were,
    although messages may have gone from the folder; otherwise no message was named
    twice, everything moved is gone, the numbers are queued and the folder is listed
    again, and the client that applies them is in step exactly when the marks agree.
   */
  method MoveAtomically(s: Session, indices: seq<int>, moveFails: set<Uint32>, ghost shown: set<Uint32>,
                        dir: set<string> -> seq<string>, now: Uint32) returns (ok: bool)
    requires SortedInts(indices) && Lists(dir) && s.folder.Valid() && LoadFits(s.folder.disk, dir(s.folder.cur))
    modifies s, s.folder
    ensures s.folder.Valid() && s.folder.trashed == old(s.folder.trashed)
    ensures !ok ==> s.tracker == old(s.tracker) && s.messages == old(s.messages)
    ensures ok ==> s.tracker == old(s.tracker) + MoveQueue(indices, |old(s.messages)|)
    ensures ok ==> Distinct(InRange(indices, |old(s.messages)|))
    ensures ok ==>
      s.messages == ListedAfter(LoadedList(old(s.folder.disk), dir(old(s.folder.cur)), now), old(s.folder.marks), indices,
                                old(s.messages), s.folder.trashed)
    ensures var l := LoadedList(old(s.folder.disk), dir(old(s.folder.cur)), now);
      ok && Shows(l, shown, s.folder.trashed, old(s.messages)) ==>
        (Apply(old(s.messages), s.tracker[|old(s.tracker)|..]) == Some(s.messages)
         <==> SameMarks(l, old(s.folder.marks), shown, UidsAt(old(s.messages), Positions(InRange(indices, |old(s.messages)|)))))
  {
    ghost var l := LoadedList(s.folder.disk, dir(s.folder.cur), now);
    ghost var marks, view, queue := s.folder.marks, s.messages, s.tracker;
    LoadedListRules(s.folder.disk, dir(s.folder.cur), now);
    PrunedOfNothing(l);
    assert Left(l, {}) == l.keyToUid.Keys;
    AtomicInStep(l, shown, marks, indices, s.folder.trashed, view);
    ghost var gone;
    ok, gone := MoveEach(s, indices, moveFails, dir, now, l);
    if ok {
      s.QueueMoved(indices);
      assert s.tracker[|queue|..] == MoveQueue(indices, |view|);
      s.messages := s.folder.List(dir(s.folder.cur), now, []);
    }
  }

  /** The folder as it is listed once the move is over. */
  function ListedAfter(l: Listing, marks: set<Uint32>, xs: seq<int>, view: seq<Info>, trashed: set<string>): seq<Info> {
    if InRange(xs, |view|) == [] then Visible(l.entries, marks, l.keyToUid.Keys, trashed)
    else Relisted(l, marks + UidsAt(view, Positions(InRange(xs, |view|))), trashed)
  }

  lemma AtomicInStep(l: Listing, shown: set<Uint32>, marks: set<Uint32>, xs: seq<int>, trashed: set<string>, view: seq<Info>)
    requires Consistent(l) && SortedInts(xs)
    ensures Shows(l, shown, trashed, view) && Distinct(InRange(xs, |view|)) ==>
      (Apply(view, MoveQueue(xs, |view|)) == Some(ListedAfter(l, marks, xs, view, trashed))
       <==> SameMarks(l, marks, shown, UidsAt(view, Positions(InRange(xs, |view|)))))
  {
    if Shows(l, shown, trashed, view) {
      if InRange(xs, |view|) == [] {
        MoveQueueLength(xs, |view|);
        RelistInStep(l, shown, marks, xs, trashed, view);
      } else {
        MoveInStep(l, shown, marks, xs, trashed, view);
      }
    }
  }
}
