/**
  EXPUNGE and MOVE in an IMAP session: the sequence numbers queued for the client
  against the message list the session keeps (section 7.4.1 of RFC 3501, section
  3.3 of RFC 6851).
 */
module ImapExpunge {
  import opened Text
  import opened UidList
  import opened UidRules
  import opened MaildirStore

  // ------------------------------------------------------- the client's view

  /**
    What a client does with queued EXPUNGE responses: each removes one message and
    renumbers those after it. None is a number that names no message.
   */
  function Apply<T>(view: seq<T>, queue: seq<nat>): Option<seq<T>>
    decreases |queue|
  {
    if queue == [] then Some(view)
    else
      var n := queue[0];
      if 1 <= n <= |view| then Apply(view[..n - 1] + view[n..], queue[1..]) else None
  }

  /** The messages at positions outside gone, in order. */
  function Survivors<T>(view: seq<T>, gone: set<nat>): seq<T> {
    if view == [] then []
    else
      var n := |view| - 1;
      var front := Survivors(view[..n], gone);
      if n in gone then front else front + [view[n]]
  }

  /** The sequence numbers of the positions in gone from lo up to n, highest first. */
  function Descending(gone: set<nat>, lo: nat, n: nat): seq<nat> {
    if n <= lo then []
    else if n - 1 in gone then [n] + Descending(gone, lo, n - 1)
    else Descending(gone, lo, n - 1)
  }

  lemma {:induction false} ApplyDescendingFrom<T>(front: seq<T>, tail: seq<T>, gone: set<nat>)
    ensures Apply(front + tail, Descending(gone, 0, |front|)) == Some(Survivors(front, gone) + tail)
  {
    if front == [] {
      assert front + tail == tail == Survivors(front, gone) + tail;
    } else {
      var n := |front| - 1;
      var init, last := front[..n], front[n];
      if n in gone {
        var view := front + tail;
        assert view[..n] + view[n + 1..] == init + tail;
        ApplyDescendingFrom(init, tail, gone);
        assert ([n + 1] + Descending(gone, 0, n))[1..] == Descending(gone, 0, n);
      } else {
        assert front + tail == init + ([last] + tail);
        ApplyDescendingFrom(init, [last] + tail, gone);
        assert Survivors(init, gone) + ([last] + tail) == (Survivors(init, gone) + [last]) + tail;
      }
    }
  }

  /** Queued highest first, the numbers remove exactly the positions they were queued for. */
  lemma ApplyDescending<T>(view: seq<T>, gone: set<nat>)
    ensures Apply(view, Descending(gone, 0, |view|)) == Some(Survivors(view, gone))
  {
    ApplyDescendingFrom(view, [], gone);
    assert view + [] == view;
    assert Survivors(view, gone) + [] == Survivors(view, gone);
  }

  lemma {:induction false} DescendingExtends(gone: set<nat>, lo: nat, n: nat)
    requires lo < n
    ensures Descending(gone, lo, n) == Descending(gone, lo + 1, n) + if lo in gone then [lo + 1] else []
  {
    if lo + 1 < n {
      DescendingExtends(gone, lo, n - 1);
    }
  }

  lemma {:induction false} InDescending(gone: set<nat>, lo: nat, n: nat, k: nat)
    ensures k in Descending(gone, lo, n) <==> lo < k <= n && k - 1 in gone
  {
    if n > lo {
      InDescending(gone, lo, n - 1, k);
    }
  }

  lemma FallsFrom(n: nat, rest: seq<nat>)
    requires StrictlyFalls(rest) && forall k | k in rest :: k < n
    ensures StrictlyFalls([n] + rest)
  {
    var queue := [n] + rest;
    assert forall b | 0 < b < |queue| :: queue[b] == rest[b - 1] && rest[b - 1] in rest;
  }

  lemma {:induction false} DescendingFalls(gone: set<nat>, lo: nat, n: nat)
    ensures StrictlyFalls(Descending(gone, lo, n))
  {
    if n > lo {
      DescendingFalls(gone, lo, n - 1);
      if n - 1 in gone {
        var rest := Descending(gone, lo, n - 1);
        forall k: nat | k in rest ensures k < n {
          InDescending(gone, lo, n - 1, k);
        }
        FallsFrom(n, rest);
      }
    }
  }

  /** The numbers queued are those of the positions in gone, each below the one before it. */
  lemma DescendingMembers(gone: set<nat>, lo: nat, n: nat)
    ensures forall k: nat :: k in Descending(gone, lo, n) <==> lo < k <= n && k - 1 in gone
    ensures StrictlyFalls(Descending(gone, lo, n))
  {
    DescendingFalls(gone, lo, n);
    forall k: nat ensures k in Descending(gone, lo, n) <==> lo < k <= n && k - 1 in gone {
      InDescending(gone, lo, n, k);
    }
  }

  predicate StrictlyFalls(queue: seq<nat>) {
    forall a, b | 0 <= a < b < |queue| :: queue[a] > queue[b]
  }

  // ------------------------------------------------- MOVE's list of indices

  predicate SortedInts(xs: seq<int>) {
    forall i, j | 0 <= i < j < |xs| :: xs[i] <= xs[j]
  }

  /** The indices that name a message, in the order given. */
  function InRange(xs: seq<int>, n: nat): seq<nat> {
    if xs == [] then []
    else
      var front := InRange(xs[..|xs| - 1], n);
      var x := xs[|xs| - 1];
      if 0 <= x < n then front + [x] else front
  }

  lemma {:induction false} InRangeMembers(xs: seq<int>, n: nat)
    ensures forall i | 0 <= i < |InRange(xs, n)| :: InRange(xs, n)[i] < n && InRange(xs, n)[i] in xs
  {
    if xs != [] {
      InRangeMembers(xs[..|xs| - 1], n);
    }
  }

  function Positions(xs: seq<nat>): set<nat> {
    set x | x in xs
  }

  /** The numbers Move queues: the last index first, those out of range skipped. */
  function MoveQueue(xs: seq<int>, n: nat): seq<nat> {
    if xs == [] then []
    else
      var x := xs[|xs| - 1];
      if 0 <= x < n then [x + 1] + MoveQueue(xs[..|xs| - 1], n) else MoveQueue(xs[..|xs| - 1], n)
  }

  predicate Distinct(xs: seq<nat>) {
    forall i, j | 0 <= i < j < |xs| :: xs[i] != xs[j]
  }

  lemma {:induction false} MoveQueueLength(xs: seq<int>, n: nat)
    ensures |MoveQueue(xs, n)| == |InRange(xs, n)|
  {
    if xs != [] {
      MoveQueueLength(xs[..|xs| - 1], n);
    }
  }

  lemma {:induction false} DistinctIffCount(xs: seq<nat>)
    ensures |Positions(xs)| <= |xs|
    ensures Distinct(xs) <==> |Positions(xs)| == |xs|
  {
    if xs != [] {
      var n := |xs| - 1;
      var front, last := xs[..n], xs[n];
      DistinctIffCount(front);
      assert xs == front + [last];
      assert Positions(xs) == Positions(front) + {last};
      DistinctSnoc(front, last);
      assert last in front <==> last in Positions(front);
      assert last in front ==> Positions(front) + {last} == Positions(front);
    }
  }

  lemma DistinctSnoc(front: seq<nat>, last: nat)
    ensures Distinct(front + [last]) <==> Distinct(front) && last !in front
  {
    var xs := front + [last];
    assert forall i | 0 <= i < |front| :: xs[i] == front[i];
    assert xs[|front|] == last;
  }

  lemma {:induction false} ApplyLength<T>(view: seq<T>, queue: seq<nat>)
    requires Apply(view, queue).Some?
    ensures |Apply(view, queue).value| == |view| - |queue|
    decreases |queue|
  {
    if queue != [] {
      var n := queue[0];
      ApplyLength(view[..n - 1] + view[n..], queue[1..]);
    }
  }

  lemma {:induction false} SurvivorsLength<T>(view: seq<T>, gone: set<nat>)
    requires forall x | x in gone :: x < |view|
    ensures |Survivors(view, gone)| == |view| - |gone|
  {
    if view == [] {
      assert gone == {};
    } else {
      var n := |view| - 1;
      SurvivorsLength(view[..n], gone - {n});
      SurvivorsAgree(view[..n], gone, gone - {n});
    }
  }

  lemma {:induction false} SurvivorsAgree<T>(view: seq<T>, a: set<nat>, b: set<nat>)
    requires forall i | 0 <= i < |view| :: i in a <==> i in b
    ensures Survivors(view, a) == Survivors(view, b)
  {
    if view != [] {
      SurvivorsAgree(view[..|view| - 1], a, b);
    }
  }

  lemma {:induction false} DescendingAgree(a: set<nat>, b: set<nat>, n: nat)
    requires forall i | 0 <= i < n :: i in a <==> i in b
    ensures Descending(a, 0, n) == Descending(b, 0, n)
  {
    if n > 0 {
      DescendingAgree(a, b, n - 1);
    }
  }

  function Reversed(r: seq<nat>): seq<nat> {
    if r == [] then [] else [r[|r| - 1] + 1] + Reversed(r[..|r| - 1])
  }

  lemma {:induction false} MoveQueueReverses(xs: seq<int>, n: nat)
    ensures MoveQueue(xs, n) == Reversed(InRange(xs, n))
  {
    if xs != [] {
      var m := |xs| - 1;
      var front := InRange(xs[..m], n);
      MoveQueueReverses(xs[..m], n);
      if 0 <= xs[m] < n {
        assert (front + [xs[m]])[..|front|] == front;
      }
    }
  }

  lemma {:induction false} InRangeSorted(xs: seq<int>, n: nat)
    requires SortedInts(xs)
    ensures SortedInts(InRange(xs, n))
  {
    if xs != [] {
      var m := |xs| - 1;
      InRangeSorted(xs[..m], n);
      InRangeMembers(xs[..m], n);
    }
  }

  /** A strictly ascending list of positions, reversed, is their descending queue. */
  lemma {:induction false} ReversedDescends(r: seq<nat>, bound: nat)
    requires SortedInts(r) && Distinct(r) && forall i | 0 <= i < |r| :: r[i] < bound
    ensures Reversed(r) == Descending(Positions(r), 0, bound)
    decreases bound
  {
    if bound > 0 {
      if r != [] && r[|r| - 1] == bound - 1 {
        var front := r[..|r| - 1];
        ReversedDescends(front, bound - 1);
        assert r == front + [bound - 1];
        DescendingAgree(Positions(r), Positions(front), bound - 1);
      } else {
        ReversedDescends(r, bound - 1);
      }
    }
  }

  /**
    The numbers Move queues remove exactly the moved messages from the client's
    view if, and only if, no message was named twice.
   */
  lemma MoveQueueCorrectIff<T>(view: seq<T>, xs: seq<int>)
    requires SortedInts(xs)
    ensures Apply(view, MoveQueue(xs, |view|)) == Some(Survivors(view, Positions(InRange(xs, |view|))))
            <==> Distinct(InRange(xs, |view|))
  {
    var n, r := |view|, InRange(xs, |view|);
    DistinctIffCount(r);
    InRangeMembers(xs, n);
    if Distinct(r) {
      MoveQueueReverses(xs, n);
      InRangeSorted(xs, n);
      ReversedDescends(r, n);
      ApplyDescending(view, Positions(r));
    } else {
      MoveQueueLength(xs, n);
      SurvivorsLength(view, Positions(r));
      if Apply(view, MoveQueue(xs, n)).Some? {
        ApplyLength(view, MoveQueue(xs, n));
      }
    }
  }

  // -------------------------------------------- the relisted folder agrees

  /** Marking a UID hides its message and nothing else. */
  lemma {:induction false} SurvivorsVisible(es: seq<Entry>, shown: set<Uint32>, uids: set<Uint32>, gone: set<nat>,
                                            cur: set<string>, trashed: set<string>)
    requires var view := Visible(es, shown, cur, trashed);
      forall i | 0 <= i < |view| :: i in gone <==> view[i].uid in uids
    ensures Survivors(Visible(es, shown, cur, trashed), gone) == Visible(es, shown + uids, cur, trashed)
  {
    if es != [] {
      var n := |es| - 1;
      var view, front := Visible(es, shown, cur, trashed), Visible(es[..n], shown, cur, trashed);
      assert forall i | 0 <= i < |front| :: view[i] == front[i];
      SurvivorsVisible(es[..n], shown, uids, gone, cur, trashed);
      assert |view| > |front| ==> view[..|front|] == front;
    }
  }

  /** Removing files from cur/ hides what marking their UIDs would hide. */
  lemma {:induction false} KeptVisible(es: seq<Entry>, marks: set<Uint32>, cur: set<string>, present: set<string>,
                                       trashed: set<string>)
    requires forall i | 0 <= i < |es| :: es[i].key in present <==> es[i].key in cur && es[i].uid !in marks
    ensures Visible(Kept(es, present), {}, present, trashed) == Visible(es, marks, cur, trashed)
  {
    if es != [] {
      var n := |es| - 1;
      var front := Kept(es[..n], present);
      KeptVisible(es[..n], marks, cur, present, trashed);
      assert (front + [es[n]])[..|front|] == front;
    }
  }

  lemma {:induction false} VisibleUidsFrom(es: seq<Entry>, marks: set<Uint32>, cur: set<string>, trashed: set<string>,
                                           bound: nat)
    requires AllBelow(es, bound)
    ensures forall i | 0 <= i < |Visible(es, marks, cur, trashed)| :: Visible(es, marks, cur, trashed)[i].uid < bound
  {
    if es != [] {
      VisibleUidsFrom(es[..|es| - 1], marks, cur, trashed, bound);
    }
  }

  /** Two sets of marks show the same list exactly when they mark the same listed UIDs. */
  lemma {:induction false} VisibleEqualIff(es: seq<Entry>, a: set<Uint32>, b: set<Uint32>, cur: set<string>,
                                           trashed: set<string>)
    requires Ascending(es) && forall i | 0 <= i < |es| :: es[i].key in cur
    ensures Visible(es, a, cur, trashed) == Visible(es, b, cur, trashed)
            <==> forall i | 0 <= i < |es| :: es[i].uid in a <==> es[i].uid in b
  {
    if es != [] {
      var n := |es| - 1;
      var va, vb := Visible(es[..n], a, cur, trashed), Visible(es[..n], b, cur, trashed);
      VisibleEqualIff(es[..n], a, b, cur, trashed);
      VisibleUidsFrom(es[..n], a, cur, trashed, es[n].uid);
      VisibleUidsFrom(es[..n], b, cur, trashed, es[n].uid);
      var last := Info(es[n].uid, es[n].key, es[n].key in trashed);
      if es[n].uid in a && es[n].uid !in b {
        assert (vb + [last])[|vb|] == last;
        assert |va| == |vb| + 1 ==> va[|vb|] != last;
      } else if es[n].uid !in a && es[n].uid in b {
        assert (va + [last])[|va|] == last;
        assert |vb| == |va| + 1 ==> vb[|va|] != last;
      } else if es[n].uid !in a {
        assert va + [last] == vb + [last] <==> va == vb by {
          assert (va + [last])[..|va|] == va && (vb + [last])[..|vb|] == vb;
        }
      }
      assert forall i | 0 <= i < n :: es[i] == es[..n][i];
    }
  }

  lemma MarkedKeys(l: Listing, marks: set<Uint32>, i: nat)
    requires Consistent(l) && KeysDistinct(l.entries) && i < |l.entries|
    ensures l.entries[i].key in KeysOf(l, marks) <==> l.entries[i].uid in marks
  {
    DistinctIffInverse(l);
    UidIndexAt(l.entries, i);
  }

  /** The view after removing the positions in gone, and the folder listed again after the expunge. */
  function UidsAt(view: seq<Info>, gone: set<nat>): set<Uint32> {
    set i | i in gone && i < |view| :: view[i].uid
  }

  function Relisted(l: Listing, marks: set<Uint32>, trashed: set<string>): seq<Info> {
    var present := l.keyToUid.Keys - KeysOf(l, marks);
    Visible(Kept(l.entries, present), {}, present, trashed)
  }

  /**
    After the client has applied the queued numbers, its view equals the folder
    listed again exactly when the marks the store held at the time cover, among
    the listed messages, those hidden from the view or queued, and no others.
   */
  lemma ClientMatchesRelistIff(l: Listing, shown: set<Uint32>, marks: set<Uint32>, gone: set<nat>, trashed: set<string>)
    requires Consistent(l) && KeysDistinct(l.entries)
    ensures var view := Visible(l.entries, shown, l.keyToUid.Keys, trashed);
      var queued := UidsAt(view, gone);
      Apply(view, Descending(gone, 0, |view|)) == Some(Relisted(l, marks + queued, trashed))
      <==> forall i | 0 <= i < |l.entries| ::
        l.entries[i].uid in marks + queued <==> l.entries[i].uid in shown + queued
  {
    var es, cur := l.entries, l.keyToUid.Keys;
    var view := Visible(es, shown, cur, trashed);
    var queued := UidsAt(view, gone);
    ApplyDescending(view, gone);
    ListedKeys(l);
    ViewUidsAscend(es, shown, cur, trashed);
    SurvivorsVisible(es, shown, queued, gone, cur, trashed);
    forall i | 0 <= i < |es|
      ensures es[i].key in cur - KeysOf(l, marks + queued) <==> es[i].key in cur && es[i].uid !in marks + queued
    {
      MarkedKeys(l, marks + queued, i);
    }
    KeptVisible(es, marks + queued, cur, cur - KeysOf(l, marks + queued), trashed);
    VisibleEqualIff(es, shown + queued, marks + queued, cur, trashed);
  }

  /** The same for Move, whose queue is built from a list of indices without repeats. */
  lemma MoveMatchesRelistIff(l: Listing, shown: set<Uint32>, marks: set<Uint32>, xs: seq<int>, trashed: set<string>)
    requires Consistent(l) && KeysDistinct(l.entries) && SortedInts(xs)
    requires Distinct(InRange(xs, |Visible(l.entries, shown, l.keyToUid.Keys, trashed)|))
    ensures var view := Visible(l.entries, shown, l.keyToUid.Keys, trashed);
      var queued := UidsAt(view, Positions(InRange(xs, |view|)));
      Apply(view, MoveQueue(xs, |view|)) == Some(Relisted(l, marks + queued, trashed))
      <==> forall i | 0 <= i < |l.entries| ::
        l.entries[i].uid in marks + queued <==> l.entries[i].uid in shown + queued
  {
    var view := Visible(l.entries, shown, l.keyToUid.Keys, trashed);
    var gone := Positions(InRange(xs, |view|));
    MoveQueueCorrectIff(view, xs);
    ApplyDescending(view, gone);
    ClientMatchesRelistIff(l, shown, marks, gone, trashed);
  }

  lemma ListedKeys(l: Listing)
    requires Consistent(l)
    ensures forall i | 0 <= i < |l.entries| :: l.entries[i].key in l.keyToUid.Keys
  {
    forall i | 0 <= i < |l.entries| ensures l.entries[i].key in l.keyToUid.Keys {
      KeyIndexAt(l.entries, i);
    }
  }

  predicate UidsAscend(view: seq<Info>) {
    forall i, j | 0 <= i < j < |view| :: view[i].uid < view[j].uid
  }

  lemma {:induction false} ViewUidsAscend(es: seq<Entry>, shown: set<Uint32>, cur: set<string>, trashed: set<string>)
    requires Ascending(es)
    ensures UidsAscend(Visible(es, shown, cur, trashed))
  {
    if es != [] {
      var n := |es| - 1;
      ViewUidsAscend(es[..n], shown, cur, trashed);
      VisibleUidsFrom(es[..n], shown, cur, trashed, es[n].uid);
    }
  }

  /** The view is the folder as listed, with some marked messages hidden; each key is listed once. */
  predicate Shows(l: Listing, shown: set<Uint32>, trashed: set<string>, view: seq<Info>) {
    KeysDistinct(l.entries) && view == Visible(l.entries, shown, l.keyToUid.Keys, trashed)
  }

  /** Among the listed messages not queued, the store has marked exactly those hidden from the view. */
  predicate SameMarks(l: Listing, marks: set<Uint32>, shown: set<Uint32>, queued: set<Uint32>) {
    forall i | 0 <= i < |l.entries| :: l.entries[i].uid in marks + queued <==> l.entries[i].uid in shown + queued
  }

  lemma ExpungeInStepIff(l: Listing, shown: set<Uint32>, marks: set<Uint32>, gone: set<nat>, trashed: set<string>,
                         view: seq<Info>, disk: Option<Listing>, snapshot: seq<string>, now: Uint32)
    requires LoadFits(disk, snapshot) && (disk.Some? ==> Consistent(disk.value)) && l == LoadedList(disk, snapshot, now)
    ensures Shows(l, shown, trashed, view) ==>
      (Apply(view, Descending(gone, 0, |view|)) == Some(Relisted(l, marks + UidsAt(view, gone), trashed))
       <==> SameMarks(l, marks, shown, UidsAt(view, gone)))
    ensures gone == {} ==> Apply(view, Descending(gone, 0, |view|)) == Some(view)
  {
    LoadedListRules(disk, snapshot, now);
    if Shows(l, shown, trashed, view) {
      ClientMatchesRelistIff(l, shown, marks, gone, trashed);
    }
    ApplyDescending(view, gone);
    if gone == {} {
      NoneGone(view);
    }
  }

  /**
    The client that applies Move's numbers ends with the folder listed again exactly
    when the marks agree, if no message was named twice; and when the marks agree,
    exactly when no message was named twice.
   */
  predicate MoveInStepIff(l: Listing, shown: set<Uint32>, marks: set<Uint32>, xs: seq<int>, view: seq<Info>,
                          queue: seq<nat>, after: seq<Info>) {
    var queued := UidsAt(view, Positions(InRange(xs, |view|)));
    && (Distinct(InRange(xs, |view|)) ==> (Apply(view, queue) == Some(after) <==> SameMarks(l, marks, shown, queued)))
    && (SameMarks(l, marks, shown, queued) ==> (Apply(view, queue) == Some(after) <==> Distinct(InRange(xs, |view|))))
  }

  lemma MoveInStep(l: Listing, shown: set<Uint32>, marks: set<Uint32>, xs: seq<int>, trashed: set<string>, view: seq<Info>)
    requires Consistent(l) && SortedInts(xs) && Shows(l, shown, trashed, view)
    ensures MoveInStepIff(l, shown, marks, xs, view, MoveQueue(xs, |view|),
                          Relisted(l, marks + UidsAt(view, Positions(InRange(xs, |view|))), trashed))
  {
    var gone := Positions(InRange(xs, |view|));
    MoveQueueCorrectIff(view, xs);
    ApplyDescending(view, gone);
    ClientMatchesRelistIff(l, shown, marks, gone, trashed);
  }

  /** With nothing moved there is nothing to queue, and the two lists agree exactly when the marks do. */
  lemma RelistInStep(l: Listing, shown: set<Uint32>, marks: set<Uint32>, xs: seq<int>, trashed: set<string>, view: seq<Info>)
    requires Consistent(l) && Shows(l, shown, trashed, view) && InRange(xs, |view|) == []
    ensures MoveInStepIff(l, shown, marks, xs, view, [], Visible(l.entries, marks, l.keyToUid.Keys, trashed))
  {
    ListedKeys(l);
    assert UidsAt(view, Positions([])) == {};
    assert shown + {} == shown && marks + {} == marks;
    VisibleEqualIff(l.entries, shown, marks, l.keyToUid.Keys, trashed);
  }

  lemma SomeMoved(xs: seq<int>, view: seq<Info>)
    ensures UidsAt(view, Positions(InRange(xs, |view|))) == {} ==> InRange(xs, |view|) == []
  {
    var ps := InRange(xs, |view|);
    if ps != [] {
      InRangeMembers(xs, |view|);
      assert ps[0] in Positions(ps);
      assert view[ps[0]].uid in UidsAt(view, Positions(ps));
    }
  }

  lemma NothingMoved(xs: seq<int>, view: seq<Info>, marks: set<Uint32>)
    requires xs == [] || marks + UidsAt(view, Positions(InRange(xs, |view|))) == {}
    ensures InRange(xs, |view|) == [] && MoveQueue(xs, |view|) == []
    ensures marks + UidsAt(view, Positions(InRange(xs, |view|))) == marks
  {
    SomeMoved(xs, view);
    MoveQueueLength(xs, |view|);
    assert UidsAt(view, Positions([])) == {};
  }

  lemma MoveStaysInStep(l: Listing, shown: set<Uint32>, marks: set<Uint32>, xs: seq<int>, trashed: set<string>,
                        view: seq<Info>, removes: bool)
    requires Consistent(l) && SortedInts(xs)
    requires removes <==> xs != [] && marks + UidsAt(view, Positions(InRange(xs, |view|))) != {}
    ensures Shows(l, shown, trashed, view) ==>
      MoveInStepIff(l, shown, marks, xs, view, MoveQueue(xs, |view|),
                    if removes then Relisted(l, marks + UidsAt(view, Positions(InRange(xs, |view|))), trashed)
                    else Visible(l.entries, marks, l.keyToUid.Keys, trashed))
  {
    if Shows(l, shown, trashed, view) {
      if removes {
        MoveInStep(l, shown, marks, xs, trashed, view);
      } else {
        NothingMoved(xs, view, marks);
        RelistInStep(l, shown, marks, xs, trashed, view);
      }
    }
  }

  lemma {:induction false} NoneGone<T>(view: seq<T>)
    ensures Survivors(view, {}) == view
  {
    if view != [] {
      NoneGone(view[..|view| - 1]);
      assert view == view[..|view| - 1] + [view[|view| - 1]];
    }
  }

  lemma {:induction false} SurvivorsMembers<T>(view: seq<T>, gone: set<nat>, i: nat)
    requires i < |view| && i !in gone
    ensures view[i] in Survivors(view, gone)
  {
    var n := |view| - 1;
    if i < n {
      SurvivorsMembers(view[..n], gone, i);
    }
  }

  /** A listed message is among the keys removed exactly when its position was queued. */
  lemma QueuedKeys(l: Listing, gone: set<nat>, trashed: set<string>, view: seq<Info>, i: nat)
    requires Consistent(l) && Shows(l, {}, trashed, view) && i < |view|
    ensures view[i].key in l.keyToUid.Keys
    ensures view[i].key in KeysOf(l, UidsAt(view, gone)) <==> i in gone
  {
    VisibleShowsAll(l.entries, {}, l.keyToUid.Keys, trashed);
    assert view[i] in view;
    var j :| 0 <= j < |l.entries| && l.entries[j] == Entry(view[i].uid, view[i].key);
    MarkedKeys(l, UidsAt(view, gone), j);
    ViewUidsAscend(l.entries, {}, l.keyToUid.Keys, trashed);
  }

  lemma RelistedSurvives(l: Listing, gone: set<nat>, trashed: set<string>, view: seq<Info>)
    requires Consistent(l) && Shows(l, {}, trashed, view)
    ensures Relisted(l, UidsAt(view, gone), trashed) == Survivors(view, gone)
  {
    ClientMatchesRelistIff(l, {}, {}, gone, trashed);
    assert {} + UidsAt(view, gone) == UidsAt(view, gone);
    ApplyDescending(view, gone);
  }

  // ----------------------------------------------------------- the session

  /**
    The numbers queued, each below the one before it, are those of the messages that
    are flagged, are in the UID set if there is one, and are not refused by the store.
   */
  ghost predicate QueuesFlagged(view: seq<Info>, uids: Option<set<Uint32>>, refused: set<Uint32>, queue: seq<nat>) {
    && StrictlyFalls(queue)
    && forall n: nat :: n in queue <==>
         && 1 <= n <= |view|
         && view[n - 1].trashed
         && (uids.Some? ==> view[n - 1].uid in uids.value)
         && view[n - 1].uid !in refused
  }

  /** A message whose number was queued is gone from cur/; any other is still there and still listed. */
  predicate RemovesQueued(view: seq<Info>, queue: seq<nat>, messages: seq<Info>, cur: set<string>) {
    forall i | 0 <= i < |view| ::
      if i + 1 in queue then view[i].key !in cur else view[i].key in cur && view[i] in messages
  }

  lemma SelectedQueue(view: seq<Info>, uids: Option<set<Uint32>>, refused: set<Uint32>)
    ensures QueuesFlagged(view, uids, refused, Descending(Selected(view, uids, refused), 0, |view|))
  {
    DescendingMembers(Selected(view, uids, refused), 0, |view|);
  }

  lemma QueuedAreRemoved(l: Listing, gone: set<nat>, trashed: set<string>, view: seq<Info>, messages: seq<Info>, cur: set<string>)
    requires Consistent(l) && Shows(l, {}, trashed, view)
    requires messages == if gone == {} then view else Relisted(l, UidsAt(view, gone), trashed)
    requires cur == if gone == {} then l.keyToUid.Keys else l.keyToUid.Keys - KeysOf(l, UidsAt(view, gone))
    ensures RemovesQueued(view, Descending(gone, 0, |view|), messages, cur)
  {
    DescendingMembers(gone, 0, |view|);
    RelistedSurvives(l, gone, trashed, view);
    forall i | 0 <= i < |view|
      ensures if i + 1 in Descending(gone, 0, |view|) then view[i].key !in cur else view[i].key in cur && view[i] in messages
    {
      QueuedKeys(l, gone, trashed, view, i);
      if i !in gone {
        SurvivorsMembers(view, gone, i);
      }
    }
  }

  /** The positions Session.Expunge selects: flagged, within the UID set, and accepted by the store. */
  function Selected(messages: seq<Info>, uids: Option<set<Uint32>>, refused: set<Uint32>): set<nat> {
    set i: nat | i < |messages| && Selects(messages[i], uids, refused)
  }

  /** The positions in gone from i on. */
  function Above(gone: set<nat>, i: nat): set<nat> {
    set k | k in gone && k >= i
  }

  lemma OneBelow(gone: set<nat>, i: nat)
    ensures Above(gone, i) == Above(gone, i + 1) + if i in gone then {i} else {}
  {
  }

  predicate Selects(info: Info, uids: Option<set<Uint32>>, refused: set<Uint32>) {
    (uids.None? || info.uid in uids.value) && info.trashed && info.uid !in refused
  }

  class Session {
    var messages: seq<Info>
    var tracker: seq<nat>
    const folder: Folder

    constructor (folder: Folder)
      ensures this.folder == folder && messages == [] && tracker == []
    {
      this.folder := folder;
      messages, tracker := [], [];
    }

    /** The marking loop of Expunge, from the last message to the first. */
    method MarkSelected(uids: Option<set<Uint32>>, refused: set<Uint32>) returns (any: bool)
      modifies this`tracker, folder`marks
      ensures var gone := Selected(messages, uids, refused);
        && (any <==> gone != {})
        && tracker == old(tracker) + Descending(gone, 0, |messages|)
        && folder.marks == old(folder.marks) + UidsAt(messages, gone)
    {
      ghost var gone := Selected(messages, uids, refused);
      any := false;
      var i := |messages|;
      assert Above(gone, i) == {};
      while i > 0
        invariant 0 <= i <= |messages|
        invariant any <==> Above(gone, i) != {}
        invariant tracker == old(tracker) + Descending(gone, i, |messages|)
        invariant folder.marks == old(folder.marks) + UidsAt(messages, Above(gone, i))
      {
        i := i - 1;
        DescendingExtends(gone, i, |messages|);
        OneBelow(gone, i);
        assert i in gone <==> Selects(messages[i], uids, refused);
        if Selects(messages[i], uids, refused) {
          folder.Delete(messages[i].uid);
          tracker := tracker + [i + 1];
          any := true;
          MarkOne(messages, Above(gone, i + 1), i);
        }
      }
      assert Above(gone, 0) == gone;
    }

    /** expungeMailbox and then listMessages, with nothing else arriving in the folder meanwhile. */
    method ExpungeAndRelist(snapshot: seq<string>, remaining: seq<string>, relist: seq<string>, now: Uint32)
      requires folder.Valid() && folder.marks != {}
      requires LoadFits(folder.disk, snapshot)
      requires KeySet(relist) == KeySet(remaining)
            == KeySet(snapshot) - KeysOf(LoadedList(folder.disk, snapshot, now), folder.marks)
      modifies this`messages, folder
      ensures folder.Valid() && folder.marks == {} && folder.trashed == old(folder.trashed)
      ensures folder.cur == KeySet(remaining)
      ensures messages == Relisted(LoadedList(old(folder.disk), snapshot, now), old(folder.marks), folder.trashed)
    {
      ghost var l, doomed := LoadedList(folder.disk, snapshot, now), folder.marks;
      LoadedListRules(folder.disk, snapshot, now);
      ShrinkingFits(l, remaining);
      ShrinkingReconcile(l, remaining);
      RelistIsStable(l, relist);
      var r, removed := folder.Expunge(snapshot, remaining, {}, now);
      messages := folder.List(relist, now, []);
    }

    /** What Expunge does, told by the positions it selects. */
    method ExpungeSelected(uids: Option<set<Uint32>>, refused: set<Uint32>,
                           snapshot: seq<string>, remaining: seq<string>, relist: seq<string>, now: Uint32)
      requires folder.Valid() && LoadFits(folder.disk, snapshot)
      requires var doomed := folder.marks + UidsAt(messages, Selected(messages, uids, refused));
        KeySet(relist) == KeySet(remaining) == KeySet(snapshot) - KeysOf(LoadedList(folder.disk, snapshot, now), doomed)
      modifies this, folder
      ensures folder.Valid() && folder.trashed == old(folder.trashed)
      ensures var gone := Selected(old(messages), uids, refused);
        && tracker == old(tracker) + Descending(gone, 0, |old(messages)|)
        && (gone == {} ==> messages == old(messages) && folder.cur == old(folder.cur))
        && (gone != {} ==> messages == Relisted(LoadedList(old(folder.disk), snapshot, now),
                             old(folder.marks) + UidsAt(old(messages), gone), folder.trashed))
        && (gone != {} ==> folder.cur == KeySet(remaining))
    {
      ghost var gone := Selected(messages, uids, refused);
      var any := MarkSelected(uids, refused);
      if any {
        SomeMarked(messages, gone);
        ExpungeAndRelist(snapshot, remaining, relist, now);
      }
    }

    /**
      Expunge, with nothing else arriving in the folder meanwhile: remaining and
      relist are cur/ as it is read after the removals. When the view was the folder
      as listed with the marks in shown hidden, the client that applies the queued
      numbers ends with the session's new view if, and only if, nothing was expunged
      or the store's marks and those hidden are the same for every listed message.
      When the view was the folder as listed and nothing was marked, exactly the
      messages queued are removed.
     */
    method Expunge(uids: Option<set<Uint32>>, refused: set<Uint32>, ghost shown: set<Uint32>,
                   snapshot: seq<string>, remaining: seq<string>, relist: seq<string>, now: Uint32)
      requires folder.Valid() && LoadFits(folder.disk, snapshot)
      requires var doomed := folder.marks + UidsAt(messages, Selected(messages, uids, refused));
        KeySet(relist) == KeySet(remaining) == KeySet(snapshot) - KeysOf(LoadedList(folder.disk, snapshot, now), doomed)
      modifies this, folder
      ensures folder.Valid() && folder.trashed == old(folder.trashed)
      ensures var gone := Selected(old(messages), uids, refused);
        && tracker == old(tracker) + Descending(gone, 0, |old(messages)|)
        && (gone == {} ==> messages == old(messages) && folder.cur == old(folder.cur))
        && (gone != {} ==> messages == Relisted(LoadedList(old(folder.disk), snapshot, now),
                             old(folder.marks) + UidsAt(old(messages), gone), folder.trashed))
      ensures var l := LoadedList(old(folder.disk), snapshot, now);
        var gone := Selected(old(messages), uids, refused);
        Shows(l, shown, folder.trashed, old(messages)) ==>
          (Apply(old(messages), tracker[|old(tracker)|..]) == Some(messages)
           <==> gone == {} || SameMarks(l, old(folder.marks), shown, UidsAt(old(messages), gone)))
      ensures QueuesFlagged(old(messages), uids, refused, tracker[|old(tracker)|..])
      ensures var l := LoadedList(old(folder.disk), snapshot, now);
        Shows(l, {}, folder.trashed, old(messages)) && old(folder.marks) == {} && KeySet(snapshot) == old(folder.cur) ==>
          RemovesQueued(old(messages), tracker[|old(tracker)|..], messages, folder.cur)
    {
      ghost var gone := Selected(messages, uids, refused);
      ghost var l, marks, view, queue := LoadedList(folder.disk, snapshot, now), folder.marks, messages, tracker;
      ghost var cur := folder.cur;
      LoadedListRules(folder.disk, snapshot, now);
      ExpungeInStepIff(l, shown, marks, gone, folder.trashed, view, folder.disk, snapshot, now);
      SelectedQueue(view, uids, refused);
      ExpungeSelected(uids, refused, snapshot, remaining, relist, now);
      assert tracker[|queue|..] == Descending(gone, 0, |view|);
      if Shows(l, {}, folder.trashed, view) && marks == {} && KeySet(snapshot) == cur {
        assert marks + UidsAt(view, gone) == UidsAt(view, gone);
        QueuedAreRemoved(l, gone, folder.trashed, view, messages, folder.cur);
      }
    }

    /** The copy-and-mark loop of Move's fallback; it stops at the first copy that fails. */
    method MarkMoved(indices: seq<int>, copyFails: set<Uint32>) returns (ok: bool)
      modifies folder`marks
      ensures ok ==> folder.marks == old(folder.marks) + UidsAt(messages, Positions(InRange(indices, |messages|)))
      ensures ok <==> forall x | x in InRange(indices, |messages|) && x < |messages| :: messages[x].uid !in copyFails
      ensures old(folder.marks) <= folder.marks
    {
      var n := |messages|;
      for i := 0 to |indices|
        invariant folder.marks == old(folder.marks) + UidsAt(messages, Positions(InRange(indices[..i], n)))
        invariant forall x | x in InRange(indices[..i], n) && x < n :: messages[x].uid !in copyFails
      {
        assert indices[..i + 1][..i] == indices[..i];
        var x := indices[i];
        if 0 <= x < n {
          ghost var before := InRange(indices[..i], n);
          if messages[x].uid in copyFails {
            InRangeGrows(indices, n, i);
            return false;
          }
          folder.Delete(messages[x].uid);
          MarkOne(messages, Positions(before), x);
          assert Positions(before + [x]) == Positions(before) + {x};
        }
      }
      assert indices[..|indices|] == indices;
      return true;
    }

    /** The queueing loop of Move. */
    method QueueMoved(indices: seq<int>)
      modifies this`tracker
      ensures tracker == old(tracker) + MoveQueue(indices, |messages|)
    {
      var i := |indices|;
      assert indices[..i] == indices;
      while i > 0
        invariant 0 <= i <= |indices|
        invariant tracker + MoveQueue(indices[..i], |messages|) == old(tracker) + MoveQueue(indices, |messages|)
      {
        i := i - 1;
        QueueOne(tracker, indices, i, |messages|);
        if 0 <= indices[i] < |messages| {
          tracker := tracker + [indices[i] + 1];
        }
      }
    }

    /** The UIDs marked once every message that Move names has been copied. */
    function Doomed(indices: seq<int>): set<Uint32>
      reads this, folder
    {
      folder.marks + UidsAt(messages, Positions(InRange(indices, |messages|)))
    }

    /** Whether Move removes anything: it expunges when it was given an index and something is marked. */
    predicate Removes(indices: seq<int>)
      reads this, folder
    {
      indices != [] && Doomed(indices) != {}
    }

    /**
      Move without an atomic mover. A failed copy leaves the queue and the view as
      they were but the marks already set; otherwise the marked messages are
      expunged, their numbers queued, and the folder listed again. When the view was
      the folder as listed with the marks in shown hidden, the client stays in step
      with the session exactly under the conditions of MoveInStepIff.
     */
    method Move(indices: seq<int>, copyFails: set<Uint32>, ghost shown: set<Uint32>,
                snapshot: seq<string>, remaining: seq<string>, relist: seq<string>, now: Uint32) returns (ok: bool)
      requires SortedInts(indices)
      requires folder.Valid() && KeySet(snapshot) == folder.cur
      requires LoadFits(folder.disk, snapshot) && LoadFits(folder.disk, relist)
      requires var gone := KeysOf(LoadedList(folder.disk, snapshot, now), Doomed(indices));
        && KeySet(remaining) == folder.cur - gone
        && KeySet(relist) == if Removes(indices) then folder.cur - gone else folder.cur
      modifies this, folder
      ensures folder.Valid() && folder.trashed == old(folder.trashed)
      ensures !ok ==> tracker == old(tracker) && messages == old(messages) && old(folder.marks) <= folder.marks
      ensures ok ==> tracker == old(tracker) + MoveQueue(indices, |old(messages)|)
      ensures ok && old(Removes(indices)) ==>
        messages == Relisted(LoadedList(old(folder.disk), snapshot, now), old(Doomed(indices)), folder.trashed)
      ensures ok && !old(Removes(indices)) ==>
        messages == Visible(LoadedList(old(folder.disk), relist, now).entries, old(folder.marks), folder.cur, folder.trashed)
      ensures var l := LoadedList(old(folder.disk), if old(Removes(indices)) then snapshot else relist, now);
        ok && Shows(l, shown, folder.trashed, old(messages)) ==>
          MoveInStepIff(l, shown, old(folder.marks), indices, old(messages), tracker[|old(tracker)|..], messages)
    {
      ghost var removes := Removes(indices);
      ghost var l := LoadedList(folder.disk, if removes then snapshot else relist, now);
      ghost var before, view, queue := folder.marks, messages, tracker;
      LoadedListRules(folder.disk, if removes then snapshot else relist, now);
      MoveStaysInStep(l, shown, before, indices, folder.trashed, view, removes);
      ok := MarkMoved(indices, copyFails);
      if ok {
        if !removes {
          NothingMoved(indices, view, before);
        }
        FinishMove(indices, snapshot, remaining, relist, now);
        assert tracker[|queue|..] == MoveQueue(indices, |view|);
      }
    }

    /** The rest of Move once everything was copied and marked. */
    method FinishMove(indices: seq<int>, snapshot: seq<string>, remaining: seq<string>, relist: seq<string>, now: Uint32)
      requires folder.Valid() && LoadFits(folder.disk, snapshot) && LoadFits(folder.disk, relist)
      requires indices != [] && folder.marks != {} ==>
        KeySet(relist) == KeySet(remaining) == KeySet(snapshot) - KeysOf(LoadedList(folder.disk, snapshot, now), folder.marks)
      modifies this, folder
      ensures folder.Valid() && folder.trashed == old(folder.trashed)
      ensures tracker == old(tracker) + MoveQueue(indices, |old(messages)|)
      ensures indices != [] && old(folder.marks) != {} ==>
        messages == Relisted(LoadedList(old(folder.disk), snapshot, now), old(folder.marks), folder.trashed)
      ensures !(indices != [] && old(folder.marks) != {}) ==>
        && folder.cur == old(folder.cur)
        && messages == Visible(LoadedList(old(folder.disk), relist, now).entries, old(folder.marks), folder.cur, folder.trashed)
    {
      QueueMoved(indices);
      if indices != [] && folder.marks != {} {
        ExpungeAndRelist(snapshot, remaining, relist, now);
      } else {
        messages := folder.List(relist, now, []);
      }
    }
  }

  lemma QueueOne(queue: seq<nat>, xs: seq<int>, i: nat, n: nat)
    requires i < |xs|
    ensures 0 <= xs[i] < n ==> (queue + [xs[i] + 1]) + MoveQueue(xs[..i], n) == queue + MoveQueue(xs[..i + 1], n)
    ensures !(0 <= xs[i] < n) ==> MoveQueue(xs[..i], n) == MoveQueue(xs[..i + 1], n)
  {
    assert xs[..i + 1][..i] == xs[..i];
  }

  lemma {:induction false} InRangeGrows(xs: seq<int>, n: nat, i: nat)
    requires i < |xs| && 0 <= xs[i] < n
    ensures xs[i] in InRange(xs, n)
  {
    if i < |xs| - 1 {
      InRangeGrows(xs[..|xs| - 1], n, i);
    }
  }

  lemma MarkOne(messages: seq<Info>, marked: set<nat>, i: nat)
    requires i < |messages|
    ensures UidsAt(messages, marked + {i}) == UidsAt(messages, marked) + {messages[i].uid}
  {
  }

  lemma SomeMarked(messages: seq<Info>, gone: set<nat>)
    requires gone != {} && forall i | i in gone :: i < |messages|
    ensures UidsAt(messages, gone) != {}
  {
    var i :| i in gone;
    assert messages[i].uid in UidsAt(messages, gone);
  }

  /** A snapshot without new keys always fits. */
  lemma ShrinkingFits(l: Listing, keys: seq<string>)
    requires Consistent(l) && KeySet(keys) <= l.keyToUid.Keys
    ensures Fits(l, keys)
  {
    NewKeysMembers(l, keys);
    KeySetEmptyIff(NewKeys(l, keys));
  }

  /** Listing again after an expunge neither assigns nor drops anything. */
  lemma RelistIsStable(l: Listing, keys: seq<string>)
    requires Consistent(l) && KeySet(keys) <= l.keyToUid.Keys
    ensures Fits(Pruned(l, KeySet(keys)), keys)
    ensures Reconciled(Pruned(l, KeySet(keys)), keys).entries == Kept(l.entries, KeySet(keys))
  {
    var p := Pruned(l, KeySet(keys));
    PruneKeepsConsistent(l, KeySet(keys));
    GoneKeysAbsent(l.entries, KeySet(keys));
    assert p.keyToUid.Keys == KeySet(keys);
    NewKeysMembers(p, keys);
    KeySetEmptyIff(NewKeys(p, keys));
    ShrinkingReconcile(p, keys);
    KeptWithin(l.entries, KeySet(keys), KeySet(keys));
  }

  lemma {:induction false} KeptWithin(es: seq<Entry>, outer: set<string>, inner: set<string>)
    requires inner <= outer
    ensures Kept(Kept(es, outer), inner) == Kept(es, inner)
  {
    if es != [] {
      var n := |es| - 1;
      var front := Kept(es[..n], outer);
      KeptWithin(es[..n], outer, inner);
      assert (front + [es[n]])[..|front|] == front;
    }
  }
}
