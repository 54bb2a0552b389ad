/**
  What each SEARCH key selects (section 6.4.4 of RFC 3501), said of the result alone:
  one law for every key, and the rule by which a node combines its own.
 */
module SearchLaws {
  import opened Text
  import opened Search

  /** Criteria that ask for nothing. */
  const ANY := Criteria([], [], [], [], 0, 0, None, None, None, None, [], [], [], [], [])

  /** A property of a sequence number and the message it stands for. */
  type Property = (nat, MessageInfo) -> bool

  /** The numbers of the messages that have a property: their UIDs, or their positions counted from 1. */
  ghost function Chosen(kind: NumKind, messages: seq<MessageInfo>, p: Property): set<nat> {
    if kind.Uids? then set i: nat | i < |messages| && p(i + 1, messages[i]) :: messages[i].uid
    else set i: nat | i < |messages| && p(i + 1, messages[i]) :: i + 1
  }

  lemma SelectionIs(w: World, kind: NumKind, messages: seq<MessageInfo>, c: Criteria, p: Property)
    requires forall n: nat, m: MessageInfo :: Direct(w, m, n, c) <==> p(n, m)
    ensures Selection(w, kind, messages, c) == Chosen(kind, messages, p)
  {
    SelectionMembers(w, kind, messages, c);
    var sel := set i | 0 <= i < |messages| && Direct(w, messages[i], i + 1, c) :: NumOf(kind, messages, i);
    forall n | n in sel ensures n in Chosen(kind, messages, p) {
      var i :| 0 <= i < |messages| && Direct(w, messages[i], i + 1, c) && NumOf(kind, messages, i) == n;
      assert p(i + 1, messages[i]);
    }
    forall n | n in Chosen(kind, messages, p) ensures n in sel {
      var i: nat :| i < |messages| && p(i + 1, messages[i]) && n == if kind.Uids? then messages[i].uid else i + 1;
      assert Direct(w, messages[i], i + 1, c) && NumOf(kind, messages, i) == n;
    }
  }

  // -------------------------------------------------- keys of the message list

  predicate OnOrAfter(w: World, date: Option<int>, d: int) {
    date.Some? && w.day(date.value) >= w.day(d)
  }

  predicate Earlier(w: World, date: Option<int>, d: int) {
    date.Some? && w.day(date.value) < w.day(d)
  }

  lemma SeqNumHit(w: World, m: MessageInfo, n: nat, has: nat -> bool)
    ensures Direct(w, m, n, ANY.(seqNum := [has])) <==> has(n)
  {
    assert [has][0] == has;
  }

  lemma UidHit(w: World, m: MessageInfo, n: nat, has: nat -> bool)
    ensures Direct(w, m, n, ANY.(uid := [has])) <==> has(m.uid)
  {
    assert [has][0] == has;
  }

  lemma FlagHit(w: World, m: MessageInfo, n: nat, f: string)
    ensures Direct(w, m, n, ANY.(flag := [f])) <==> f in m.flags
  {
    assert [f][0] == f;
  }

  lemma NotFlagHit(w: World, m: MessageInfo, n: nat, f: string)
    ensures Direct(w, m, n, ANY.(notFlag := [f])) <==> f !in m.flags
  {
    assert [f][0] == f;
  }

  lemma LargerHit(w: World, m: MessageInfo, n: nat, size: int)
    ensures Direct(w, m, n, ANY.(larger := size)) <==> (size > 0 ==> m.size > size)
  {
  }

  lemma SmallerHit(w: World, m: MessageInfo, n: nat, size: int)
    ensures Direct(w, m, n, ANY.(smaller := size)) <==> (size > 0 ==> m.size < size)
  {
  }

  lemma SinceHit(w: World, m: MessageInfo, n: nat, d: int)
    ensures Direct(w, m, n, ANY.(since := Some(d))) <==> OnOrAfter(w, m.internalDate, d)
  {
  }

  lemma BeforeHit(w: World, m: MessageInfo, n: nat, d: int)
    ensures Direct(w, m, n, ANY.(before := Some(d))) <==> Earlier(w, m.internalDate, d)
  {
  }

  lemma AnyLaw(w: World, kind: NumKind, messages: seq<MessageInfo>)
    ensures Selection(w, kind, messages, ANY) == Chosen(kind, messages, (n: nat, m: MessageInfo) => true)
  {
    SelectionIs(w, kind, messages, ANY, (n: nat, m: MessageInfo) => true);
  }

  lemma SeqNumLaw(w: World, kind: NumKind, messages: seq<MessageInfo>, has: nat -> bool)
    ensures Selection(w, kind, messages, ANY.(seqNum := [has]))
         == Chosen(kind, messages, (n: nat, m: MessageInfo) => has(n))
  {
    forall n: nat, m: MessageInfo { SeqNumHit(w, m, n, has); }
    SelectionIs(w, kind, messages, ANY.(seqNum := [has]), (n: nat, m: MessageInfo) => has(n));
  }

  lemma UidLaw(w: World, kind: NumKind, messages: seq<MessageInfo>, has: nat -> bool)
    ensures Selection(w, kind, messages, ANY.(uid := [has]))
         == Chosen(kind, messages, (n: nat, m: MessageInfo) => has(m.uid))
  {
    forall n: nat, m: MessageInfo { UidHit(w, m, n, has); }
    SelectionIs(w, kind, messages, ANY.(uid := [has]), (n: nat, m: MessageInfo) => has(m.uid));
  }

  lemma FlagLaw(w: World, kind: NumKind, messages: seq<MessageInfo>, f: string)
    ensures Selection(w, kind, messages, ANY.(flag := [f]))
         == Chosen(kind, messages, (n: nat, m: MessageInfo) => f in m.flags)
  {
    forall n: nat, m: MessageInfo { FlagHit(w, m, n, f); }
    SelectionIs(w, kind, messages, ANY.(flag := [f]), (n: nat, m: MessageInfo) => f in m.flags);
  }

  lemma NotFlagLaw(w: World, kind: NumKind, messages: seq<MessageInfo>, f: string)
    ensures Selection(w, kind, messages, ANY.(notFlag := [f]))
         == Chosen(kind, messages, (n: nat, m: MessageInfo) => f !in m.flags)
  {
    forall n: nat, m: MessageInfo { NotFlagHit(w, m, n, f); }
    SelectionIs(w, kind, messages, ANY.(notFlag := [f]), (n: nat, m: MessageInfo) => f !in m.flags);
  }

  /** A size of zero asks for nothing. */
  lemma LargerLaw(w: World, kind: NumKind, messages: seq<MessageInfo>, size: int)
    ensures Selection(w, kind, messages, ANY.(larger := size))
         == Chosen(kind, messages, (n: nat, m: MessageInfo) => size > 0 ==> m.size > size)
  {
    forall n: nat, m: MessageInfo { LargerHit(w, m, n, size); }
    SelectionIs(w, kind, messages, ANY.(larger := size), (n: nat, m: MessageInfo) => size > 0 ==> m.size > size);
  }

  lemma SmallerLaw(w: World, kind: NumKind, messages: seq<MessageInfo>, size: int)
    ensures Selection(w, kind, messages, ANY.(smaller := size))
         == Chosen(kind, messages, (n: nat, m: MessageInfo) => size > 0 ==> m.size < size)
  {
    forall n: nat, m: MessageInfo { SmallerHit(w, m, n, size); }
    SelectionIs(w, kind, messages, ANY.(smaller := size), (n: nat, m: MessageInfo) => size > 0 ==> m.size < size);
  }

  /** Dates are compared by day, and a message without one is not selected. */
  lemma SinceLaw(w: World, kind: NumKind, messages: seq<MessageInfo>, d: int)
    ensures Selection(w, kind, messages, ANY.(since := Some(d)))
         == Chosen(kind, messages, (n: nat, m: MessageInfo) => OnOrAfter(w, m.internalDate, d))
  {
    forall n: nat, m: MessageInfo { SinceHit(w, m, n, d); }
    SelectionIs(w, kind, messages, ANY.(since := Some(d)), (n: nat, m: MessageInfo) => OnOrAfter(w, m.internalDate, d));
  }

  lemma BeforeLaw(w: World, kind: NumKind, messages: seq<MessageInfo>, d: int)
    ensures Selection(w, kind, messages, ANY.(before := Some(d)))
         == Chosen(kind, messages, (n: nat, m: MessageInfo) => Earlier(w, m.internalDate, d))
  {
    forall n: nat, m: MessageInfo { BeforeHit(w, m, n, d); }
    SelectionIs(w, kind, messages, ANY.(before := Some(d)), (n: nat, m: MessageInfo) => Earlier(w, m.internalDate, d));
  }

  // ------------------------------------------------------- keys of the content

  /** The term is somewhere in the text. */
  ghost predicate Within(s: string, term: string) {
    exists a, b :: s == a + term + b
  }

  lemma ContainsIsWithin(s: string, term: string)
    ensures Contains(s, term) <==> Within(s, term)
  {
    if Contains(s, term) {
      var i :| 0 <= i <= |s| && At(s, i, term);
      assert s == s[..i] + term + s[i + |term|..];
    }
    if Within(s, term) {
      var a, b :| s == a + term + b;
      assert At(s, |a|, term);
    }
  }

  /** The header fields of a message that can be retrieved and parsed. */
  function HeaderOf(w: World, uid: nat): Option<string -> string> {
    match w.retrieve(uid)
    case None => None
    case Some(data) => w.parseHeader(SplitMessage(data).0)
  }

  /** What the message's Date header says, when it can be read. */
  function DateSent(w: World, uid: nat): Option<int> {
    match HeaderOf(w, uid)
    case None => None
    case Some(get) => if get("Date") == "" then None else w.parseDate(get("Date"))
  }

  /** The folded value of the header field contains the folded text asked for. */
  ghost predicate HeaderHas(w: World, uid: nat, key: string, value: string) {
    HeaderOf(w, uid).Some? && Within(w.lower(HeaderOf(w, uid).value(key)), w.lower(value))
  }

  ghost predicate BodyHas(w: World, uid: nat, term: string) {
    w.retrieve(uid).Some? && Within(w.lower(SplitMessage(w.retrieve(uid).value).1), w.lower(term))
  }

  ghost predicate TextHas(w: World, uid: nat, term: string) {
    w.retrieve(uid).Some? && Within(w.lower(w.retrieve(uid).value), w.lower(term))
  }

  lemma SentSinceHit(w: World, m: MessageInfo, n: nat, d: int)
    ensures Direct(w, m, n, ANY.(sentSince := Some(d))) <==> OnOrAfter(w, DateSent(w, m.uid), d)
  {
  }

  lemma SentBeforeHit(w: World, m: MessageInfo, n: nat, d: int)
    ensures Direct(w, m, n, ANY.(sentBefore := Some(d))) <==> Earlier(w, DateSent(w, m.uid), d)
  {
  }

  lemma HeaderHit(w: World, m: MessageInfo, n: nat, key: string, value: string)
    ensures Direct(w, m, n, ANY.(header := [HeaderField(key, value)])) <==> HeaderHas(w, m.uid, key, value)
  {
    assert [HeaderField(key, value)][0] == HeaderField(key, value);
    if HeaderOf(w, m.uid).Some? {
      ContainsIsWithin(w.lower(HeaderOf(w, m.uid).value(key)), w.lower(value));
    }
  }

  lemma BodyHit(w: World, m: MessageInfo, n: nat, term: string)
    ensures Direct(w, m, n, ANY.(body := [term])) <==> BodyHas(w, m.uid, term)
  {
    assert [term][0] == term;
    if w.retrieve(m.uid).Some? {
      ContainsIsWithin(w.lower(SplitMessage(w.retrieve(m.uid).value).1), w.lower(term));
    }
  }

  lemma TextHit(w: World, m: MessageInfo, n: nat, term: string)
    ensures Direct(w, m, n, ANY.(text := [term])) <==> TextHas(w, m.uid, term)
  {
    assert [term][0] == term;
    if w.retrieve(m.uid).Some? {
      ContainsIsWithin(w.lower(w.retrieve(m.uid).value), w.lower(term));
    }
  }

  lemma SentSinceLaw(w: World, kind: NumKind, messages: seq<MessageInfo>, d: int)
    ensures Selection(w, kind, messages, ANY.(sentSince := Some(d)))
         == Chosen(kind, messages, (n: nat, m: MessageInfo) => OnOrAfter(w, DateSent(w, m.uid), d))
  {
    forall n: nat, m: MessageInfo { SentSinceHit(w, m, n, d); }
    SelectionIs(w, kind, messages, ANY.(sentSince := Some(d)), (n: nat, m: MessageInfo) => OnOrAfter(w, DateSent(w, m.uid), d));
  }

  lemma SentBeforeLaw(w: World, kind: NumKind, messages: seq<MessageInfo>, d: int)
    ensures Selection(w, kind, messages, ANY.(sentBefore := Some(d)))
         == Chosen(kind, messages, (n: nat, m: MessageInfo) => Earlier(w, DateSent(w, m.uid), d))
  {
    forall n: nat, m: MessageInfo { SentBeforeHit(w, m, n, d); }
    SelectionIs(w, kind, messages, ANY.(sentBefore := Some(d)), (n: nat, m: MessageInfo) => Earlier(w, DateSent(w, m.uid), d));
  }

  lemma HeaderLaw(w: World, kind: NumKind, messages: seq<MessageInfo>, key: string, value: string)
    ensures Selection(w, kind, messages, ANY.(header := [HeaderField(key, value)]))
         == Chosen(kind, messages, (n: nat, m: MessageInfo) => HeaderHas(w, m.uid, key, value))
  {
    forall n: nat, m: MessageInfo { HeaderHit(w, m, n, key, value); }
    SelectionIs(w, kind, messages, ANY.(header := [HeaderField(key, value)]),
                (n: nat, m: MessageInfo) => HeaderHas(w, m.uid, key, value));
  }

  lemma BodyLaw(w: World, kind: NumKind, messages: seq<MessageInfo>, term: string)
    ensures Selection(w, kind, messages, ANY.(body := [term]))
         == Chosen(kind, messages, (n: nat, m: MessageInfo) => BodyHas(w, m.uid, term))
  {
    forall n: nat, m: MessageInfo { BodyHit(w, m, n, term); }
    SelectionIs(w, kind, messages, ANY.(body := [term]), (n: nat, m: MessageInfo) => BodyHas(w, m.uid, term));
  }

  lemma TextLaw(w: World, kind: NumKind, messages: seq<MessageInfo>, term: string)
    ensures Selection(w, kind, messages, ANY.(text := [term]))
         == Chosen(kind, messages, (n: nat, m: MessageInfo) => TextHas(w, m.uid, term))
  {
    forall n: nat, m: MessageInfo { TextHit(w, m, n, term); }
    SelectionIs(w, kind, messages, ANY.(text := [term]), (n: nat, m: MessageInfo) => TextHas(w, m.uid, term));
  }

  // ------------------------------------------------------- how a node combines

  lemma SelectedIsDirect(w: World, messages: seq<MessageInfo>, n: nat, c: Criteria)
    ensures n in Selection(w, Seqs, messages, c) <==> 1 <= n <= |messages| && Direct(w, messages[n - 1], n, c)
  {
    SelectionMembers(w, Seqs, messages, c);
    if 1 <= n <= |messages| && Direct(w, messages[n - 1], n, c) {
      assert NumOf(Seqs, messages, n - 1) == n;
    }
  }

  lemma UidIsOfPosition(w: World, messages: seq<MessageInfo>, c: Criteria, u: nat)
    ensures u in Selection(w, Uids, messages, c)
       <==> exists n: nat :: 1 <= n <= |messages| && n in Selection(w, Seqs, messages, c) && messages[n - 1].uid == u
  {
    SelectionMembers(w, Uids, messages, c);
    if u in Selection(w, Uids, messages, c) {
      var i :| 0 <= i < |messages| && Direct(w, messages[i], i + 1, c) && NumOf(Uids, messages, i) == u;
      SelectedIsDirect(w, messages, i + 1, c);
    }
    if n: nat :| 1 <= n <= |messages| && n in Selection(w, Seqs, messages, c) && messages[n - 1].uid == u {
      SelectedIsDirect(w, messages, n, c);
      assert NumOf(Uids, messages, n - 1) == u;
    }
  }

  /** Sequence numbers are positions counted from 1, and UIDs are those of the messages there. */
  lemma UidsOfPositions(w: World, messages: seq<MessageInfo>, c: Criteria)
    ensures forall n | n in Selection(w, Seqs, messages, c) :: 1 <= n <= |messages|
    ensures Selection(w, Uids, messages, c)
         == set n: nat | 1 <= n <= |messages| && n in Selection(w, Seqs, messages, c) :: messages[n - 1].uid
  {
    forall n | n in Selection(w, Seqs, messages, c) ensures 1 <= n <= |messages| {
      SelectedIsDirect(w, messages, n, c);
    }
    forall u: nat { UidIsOfPosition(w, messages, c, u); }
  }

  /** Each key of the node that the message list answers, taken alone, has the property. */
  ghost predicate EachListKey(c: Criteria, holds: Criteria -> bool) {
    && (forall i | 0 <= i < |c.seqNum| :: holds(ANY.(seqNum := [c.seqNum[i]])))
    && (forall i | 0 <= i < |c.uid| :: holds(ANY.(uid := [c.uid[i]])))
    && (forall i | 0 <= i < |c.flag| :: holds(ANY.(flag := [c.flag[i]])))
    && (forall i | 0 <= i < |c.notFlag| :: holds(ANY.(notFlag := [c.notFlag[i]])))
    && holds(ANY.(larger := c.larger))
    && holds(ANY.(smaller := c.smaller))
    && (c.since.Some? ==> holds(ANY.(since := c.since)))
    && (c.before.Some? ==> holds(ANY.(before := c.before)))
  }

  /** Each key of the node that the content answers, taken alone, has the property. */
  ghost predicate EachContentKey(c: Criteria, holds: Criteria -> bool) {
    && (c.sentSince.Some? ==> holds(ANY.(sentSince := c.sentSince)))
    && (c.sentBefore.Some? ==> holds(ANY.(sentBefore := c.sentBefore)))
    && (forall i | 0 <= i < |c.header| :: holds(ANY.(header := [c.header[i]])))
    && (forall i | 0 <= i < |c.body| :: holds(ANY.(body := [c.body[i]])))
    && (forall i | 0 <= i < |c.text| :: holds(ANY.(text := [c.text[i]])))
  }

  /**
    A node selects the messages that every one of its keys selects, that none of its Nots
    selects, and that one side or the other of each of its Ors selects.
   */
  lemma NodeLaw(w: World, messages: seq<MessageInfo>, c: Criteria, n: nat)
    requires 1 <= n <= |messages|
    ensures n in Selection(w, Seqs, messages, c) <==>
      && EachListKey(c, a => n in Selection(w, Seqs, messages, a))
      && EachContentKey(c, a => n in Selection(w, Seqs, messages, a))
      && (forall i | 0 <= i < |c.nots| :: n !in Selection(w, Seqs, messages, c.nots[i]))
      && (forall i | 0 <= i < |c.ors| ::
            n in Selection(w, Seqs, messages, c.ors[i].0) + Selection(w, Seqs, messages, c.ors[i].1))
  {
    forall a ensures n in Selection(w, Seqs, messages, a) <==> Direct(w, messages[n - 1], n, a) {
      SelectedIsDirect(w, messages, n, a);
    }
    SameKeys(c, a => n in Selection(w, Seqs, messages, a), a => Direct(w, messages[n - 1], n, a));
    ListByKeys(w, messages[n - 1], n, c);
    ContentByKeys(w, messages[n - 1], n, c);
  }

  lemma SameKeys(c: Criteria, p: Criteria -> bool, q: Criteria -> bool)
    requires forall a :: p(a) <==> q(a)
    ensures EachListKey(c, p) <==> EachListKey(c, q)
    ensures EachContentKey(c, p) <==> EachContentKey(c, q)
  {
  }

  lemma ListByKeys(w: World, m: MessageInfo, n: nat, c: Criteria)
    ensures MetaMatches(w, m, n, c) <==> EachListKey(c, a => Direct(w, m, n, a))
  {
    forall i | 0 <= i < |c.seqNum| { SeqNumHit(w, m, n, c.seqNum[i]); }
    forall i | 0 <= i < |c.uid| { UidHit(w, m, n, c.uid[i]); }
    forall i | 0 <= i < |c.flag| { FlagHit(w, m, n, c.flag[i]); }
    forall i | 0 <= i < |c.notFlag| { NotFlagHit(w, m, n, c.notFlag[i]); }
    LargerHit(w, m, n, c.larger);
    SmallerHit(w, m, n, c.smaller);
    if c.since.Some? { SinceHit(w, m, n, c.since.value); }
    if c.before.Some? { BeforeHit(w, m, n, c.before.value); }
  }

  lemma ContentByKeys(w: World, m: MessageInfo, n: nat, c: Criteria)
    ensures ContentDirect(w, m.uid, c) <==> EachContentKey(c, a => Direct(w, m, n, a))
  {
    if c.sentSince.Some? { SentSinceHit(w, m, n, c.sentSince.value); }
    if c.sentBefore.Some? { SentBeforeHit(w, m, n, c.sentBefore.value); }
    ContentMeans(w, m.uid, c);
    forall i | 0 <= i < |c.header| { HeaderHit(w, m, n, c.header[i].key, c.header[i].value); }
    forall i | 0 <= i < |c.body| { BodyHit(w, m, n, c.body[i]); }
    forall i | 0 <= i < |c.text| { TextHit(w, m, n, c.text[i]); }
  }

  lemma ContentMeans(w: World, uid: nat, c: Criteria)
    ensures ContentDirect(w, uid, c) <==>
      && (c.sentSince.Some? ==> OnOrAfter(w, DateSent(w, uid), c.sentSince.value))
      && (c.sentBefore.Some? ==> Earlier(w, DateSent(w, uid), c.sentBefore.value))
      && (forall i | 0 <= i < |c.header| :: HeaderHas(w, uid, c.header[i].key, c.header[i].value))
      && (forall i | 0 <= i < |c.body| :: BodyHas(w, uid, c.body[i]))
      && (forall i | 0 <= i < |c.text| :: TextHas(w, uid, c.text[i]))
  {
    if w.retrieve(uid).Some? {
      var data := w.retrieve(uid).value;
      forall i | 0 <= i < |c.body| ensures Found(w, SplitMessage(data).1, c.body[i]) <==> BodyHas(w, uid, c.body[i]) {
        ContainsIsWithin(w.lower(SplitMessage(data).1), w.lower(c.body[i]));
      }
      forall i | 0 <= i < |c.text| ensures Found(w, data, c.text[i]) <==> TextHas(w, uid, c.text[i]) {
        ContainsIsWithin(w.lower(data), w.lower(c.text[i]));
      }
      HeadersMean(w, uid, c);
    } else {
      assert |c.header| > 0 ==> !HeaderHas(w, uid, c.header[0].key, c.header[0].value);
      assert |c.body| > 0 ==> !BodyHas(w, uid, c.body[0]);
      assert |c.text| > 0 ==> !TextHas(w, uid, c.text[0]);
    }
  }

  lemma HeadersMean(w: World, uid: nat, c: Criteria)
    requires w.retrieve(uid).Some?
    ensures HeadersMatch(w, SplitMessage(w.retrieve(uid).value).0, c) <==>
      && (c.sentSince.Some? ==> OnOrAfter(w, DateSent(w, uid), c.sentSince.value))
      && (c.sentBefore.Some? ==> Earlier(w, DateSent(w, uid), c.sentBefore.value))
      && (forall i | 0 <= i < |c.header| :: HeaderHas(w, uid, c.header[i].key, c.header[i].value))
  {
    var hdr := HeaderOf(w, uid);
    if hdr.Some? {
      forall i | 0 <= i < |c.header|
        ensures Found(w, hdr.value(c.header[i].key), c.header[i].value) <==> HeaderHas(w, uid, c.header[i].key, c.header[i].value)
      {
        ContainsIsWithin(w.lower(hdr.value(c.header[i].key)), w.lower(c.header[i].value));
      }
    } else {
      assert |c.header| > 0 ==> !HeaderHas(w, uid, c.header[0].key, c.header[0].value);
    }
  }
}
