/**
  IMAP SEARCH as a query transformation (section 6.4.4 of RFC 3501): the content
  predicates of a whole criteria tree are collected into one deduplicated scan of
  the messages, and the tree is then evaluated against the scan's index.
 */
module Search {
  import opened Text

  datatype HeaderField = HeaderField(key: string, value: string)

  /** imap.SearchCriteria; a zero date is None, and a number set is its membership test. */
  datatype Criteria = Criteria(
    seqNum: seq<nat -> bool>,
    uid: seq<nat -> bool>,
    flag: seq<string>,
    notFlag: seq<string>,
    larger: int,
    smaller: int,
    since: Option<int>,
    before: Option<int>,
    sentSince: Option<int>,
    sentBefore: Option<int>,
    header: seq<HeaderField>,
    body: seq<string>,
    text: seq<string>,
    nots: seq<Criteria>,
    ors: seq<(Criteria, Criteria)>)

  datatype MessageInfo = MessageInfo(uid: nat, flags: seq<string>, size: int, internalDate: Option<int>)

  /**
    What the search is given from outside: case folding, header and date parsing,
    truncation to a day, and the store's messages. parseHeader yields the header's
    Get function; parseDate yields None for a date that cannot be used.
   */
  datatype World = World(
    lower: string -> string,
    parseHeader: string -> Option<string -> string>,
    parseDate: string -> Option<int>,
    day: int -> int,
    retrieve: nat -> Option<string>,
    listFolder: Option<seq<nat>>)

  // ----------------------------------------------------- one message's content

  predicate At(s: string, i: nat, sub: string) {
    i + |sub| <= |s| && s[i..i + |sub|] == sub
  }

  /** bytes.Contains. */
  predicate Contains(s: string, sub: string) {
    exists i | 0 <= i <= |s| :: At(s, i, sub)
  }

  /** bytes.Index: the first occurrence. */
  function Index(s: string, sub: string): Option<nat> {
    IndexFrom(s, sub, 0)
  }

  function IndexFrom(s: string, sub: string, i: nat): Option<nat>
    requires i <= |s|
    decreases |s| - i
  {
    if At(s, i, sub) then Some(i) else if i == |s| then None else IndexFrom(s, sub, i + 1)
  }

  lemma {:induction false} IndexFromFirst(s: string, sub: string, i: nat)
    requires i <= |s|
    ensures IndexFrom(s, sub, i).None? ==> forall j: nat | i <= j :: !At(s, j, sub)
    ensures IndexFrom(s, sub, i).Some? ==>
      var n := IndexFrom(s, sub, i).value;
      i <= n && At(s, n, sub) && forall j: nat | i <= j < n :: !At(s, j, sub)
    decreases |s| - i
  {
    if !At(s, i, sub) && i < |s| {
      IndexFromFirst(s, sub, i + 1);
    }
  }

  lemma IndexFirst(s: string, sub: string)
    ensures Index(s, sub).None? <==> !Contains(s, sub)
    ensures Index(s, sub).Some? ==>
      At(s, Index(s, sub).value, sub) && forall i: nat | i < Index(s, sub).value :: !At(s, i, sub)
  {
    IndexFromFirst(s, sub, 0);
  }

  /** The header block with its blank line, and the body. */
  function SplitMessage(data: string): (r: (string, string))
    ensures r.0 + r.1 == data
  {
    match Index(data, "\r\n\r\n")
    case Some(i) => IndexFirst(data, "\r\n\r\n"); (data[..i + 4], data[i + 4..])
    case None =>
      match Index(data, "\n\n")
      case Some(i) => IndexFirst(data, "\n\n"); (data[..i + 2], data[i + 2..])
      case None => (data, "")
  }

  predicate FirstAt(s: string, i: nat, sub: string) {
    At(s, i, sub) && forall j: nat | j < i :: !At(s, j, sub)
  }

  /**
    The header ends with the first CRLF blank line; without one, with the first LF
    blank line; and without either the message is all header.
   */
  lemma SplitAtBlankLine(data: string)
    ensures var (header, body) := SplitMessage(data);
      && (Contains(data, "\r\n\r\n") ==> |header| >= 4 && FirstAt(data, |header| - 4, "\r\n\r\n"))
      && (!Contains(data, "\r\n\r\n") && Contains(data, "\n\n") ==> |header| >= 2 && FirstAt(data, |header| - 2, "\n\n"))
      && (!Contains(data, "\r\n\r\n") && !Contains(data, "\n\n") ==> header == data && body == "")
  {
    IndexFirst(data, "\r\n\r\n");
    IndexFirst(data, "\n\n");
  }

  datatype ContentMatch = ContentMatch(uid: nat, headers: string, bodyMatches: seq<bool>, textMatches: seq<bool>)

  predicate Found(w: World, s: string, term: string) {
    Contains(w.lower(s), w.lower(term))
  }

  function FoundEach(w: World, s: string, terms: seq<string>): seq<bool> {
    seq(|terms|, i requires 0 <= i < |terms| => Found(w, s, terms[i]))
  }

  function MatchContent(w: World, data: string, uid: nat, ts: Terms): ContentMatch {
    var (header, body) := SplitMessage(data);
    ContentMatch(uid, if ts.needHeaders then header else "",
                 FoundEach(w, body, ts.body), FoundEach(w, data, ts.text))
  }

  // -------------------------------------------------- collecting the terms

  /** The accumulators of collectContentTerms. */
  datatype Terms = Terms(
    body: seq<string>,
    text: seq<string>,
    bodySeen: set<string>,
    textSeen: set<string>,
    needHeaders: bool,
    hasContent: bool)

  const NO_TERMS := Terms([], [], {}, {}, false, false)

  predicate NeedsHeaders(c: Criteria) {
    c.header != [] || c.sentSince.Some? || c.sentBefore.Some?
  }

  predicate NeedsContent(c: Criteria) {
    NeedsHeaders(c) || c.body != [] || c.text != []
  }

  function AddBody(w: World, ts: Terms, t: string): Terms {
    var seen := ts.(hasContent := true);
    if w.lower(t) in ts.bodySeen then seen
    else seen.(body := ts.body + [t], bodySeen := ts.bodySeen + {w.lower(t)})
  }

  function AddText(w: World, ts: Terms, t: string): Terms {
    var seen := ts.(hasContent := true);
    if w.lower(t) in ts.textSeen then seen
    else seen.(text := ts.text + [t], textSeen := ts.textSeen + {w.lower(t)})
  }

  function AddBodies(w: World, ts: Terms, terms: seq<string>): Terms {
    if terms == [] then ts else AddBody(w, AddBodies(w, ts, terms[..|terms| - 1]), terms[|terms| - 1])
  }

  function AddTexts(w: World, ts: Terms, terms: seq<string>): Terms {
    if terms == [] then ts else AddText(w, AddTexts(w, ts, terms[..|terms| - 1]), terms[|terms| - 1])
  }

  /** The terms of one node, without its Not and Or branches. */
  function CollectNode(w: World, ts: Terms, c: Criteria): Terms {
    var t0 := if NeedsHeaders(c) then ts.(needHeaders := true, hasContent := true) else ts;
    AddTexts(w, AddBodies(w, t0, c.body), c.text)
  }

  function Collect(w: World, ts: Terms, c: Criteria): Terms
    decreases c
  {
    CollectOrs(w, CollectNots(w, CollectNode(w, ts, c), c, |c.nots|), c, |c.ors|)
  }

  function CollectNots(w: World, ts: Terms, c: Criteria, n: nat): Terms
    requires n <= |c.nots|
    decreases c, 0, n
  {
    if n == 0 then ts else Collect(w, CollectNots(w, ts, c, n - 1), c.nots[n - 1])
  }

  function CollectOrs(w: World, ts: Terms, c: Criteria, n: nat): Terms
    requires n <= |c.ors|
    decreases c, 0, n
  {
    if n == 0 then ts
    else Collect(w, Collect(w, CollectOrs(w, ts, c, n - 1), c.ors[n - 1].0), c.ors[n - 1].1)
  }

  // ------------------------------------------------ what collecting covers

  function Lowered(w: World, terms: seq<string>): set<string> {
    set i | 0 <= i < |terms| :: w.lower(terms[i])
  }

  /** The seen sets are exactly the case-folded terms kept, each kept once. */
  predicate SeenAgrees(w: World, ts: Terms) {
    && ts.bodySeen == Lowered(w, ts.body) && |ts.bodySeen| == |ts.body|
    && ts.textSeen == Lowered(w, ts.text) && |ts.textSeen| == |ts.text|
  }

  /** Nothing collected is ever given up. */
  predicate Grows(a: Terms, b: Terms) {
    && a.bodySeen <= b.bodySeen && a.textSeen <= b.textSeen
    && (a.needHeaders ==> b.needHeaders) && (a.hasContent ==> b.hasContent)
  }

  predicate CoversNode(w: World, ts: Terms, c: Criteria) {
    && (NeedsHeaders(c) ==> ts.needHeaders)
    && (NeedsContent(c) ==> ts.hasContent)
    && Lowered(w, c.body) <= ts.bodySeen
    && Lowered(w, c.text) <= ts.textSeen
  }

  /** The scan will answer every content predicate of the tree. */
  predicate Covers(w: World, ts: Terms, c: Criteria)
    decreases c
  {
    && CoversNode(w, ts, c)
    && (forall i | 0 <= i < |c.nots| :: Covers(w, ts, c.nots[i]))
    && (forall i | 0 <= i < |c.ors| :: Covers(w, ts, c.ors[i].0) && Covers(w, ts, c.ors[i].1))
  }

  lemma LoweredSnoc(w: World, terms: seq<string>, t: string)
    ensures Lowered(w, terms + [t]) == Lowered(w, terms) + {w.lower(t)}
  {
    var all := terms + [t];
    assert all[|terms|] == t;
    forall i | 0 <= i < |terms| ensures w.lower(terms[i]) in Lowered(w, all) {
      assert all[i] == terms[i];
    }
  }

  lemma AddBodyCovers(w: World, ts: Terms, t: string)
    requires SeenAgrees(w, ts)
    ensures var r := AddBody(w, ts, t);
      SeenAgrees(w, r) && Grows(ts, r) && w.lower(t) in r.bodySeen && r.hasContent
  {
    LoweredSnoc(w, ts.body, t);
  }

  lemma {:induction false} AddBodiesCovers(w: World, ts: Terms, terms: seq<string>)
    requires SeenAgrees(w, ts)
    ensures var r := AddBodies(w, ts, terms);
      && SeenAgrees(w, r) && Grows(ts, r) && Lowered(w, terms) <= r.bodySeen && (terms != [] ==> r.hasContent)
  {
    if terms != [] {
      var front, last := terms[..|terms| - 1], terms[|terms| - 1];
      AddBodiesCovers(w, ts, front);
      AddBodyCovers(w, AddBodies(w, ts, front), last);
      assert terms == front + [last];
      LoweredSnoc(w, front, last);
    }
  }

  lemma AddTextCovers(w: World, ts: Terms, t: string)
    requires SeenAgrees(w, ts)
    ensures var r := AddText(w, ts, t);
      SeenAgrees(w, r) && Grows(ts, r) && w.lower(t) in r.textSeen && r.hasContent
  {
    LoweredSnoc(w, ts.text, t);
  }

  lemma {:induction false} AddTextsCovers(w: World, ts: Terms, terms: seq<string>)
    requires SeenAgrees(w, ts)
    ensures var r := AddTexts(w, ts, terms);
      && SeenAgrees(w, r) && Grows(ts, r) && Lowered(w, terms) <= r.textSeen && (terms != [] ==> r.hasContent)
  {
    if terms != [] {
      var front, last := terms[..|terms| - 1], terms[|terms| - 1];
      AddTextsCovers(w, ts, front);
      AddTextCovers(w, AddTexts(w, ts, front), last);
      assert terms == front + [last];
      LoweredSnoc(w, front, last);
    }
  }

  lemma CollectNodeCovers(w: World, ts: Terms, c: Criteria)
    requires SeenAgrees(w, ts)
    ensures var r := CollectNode(w, ts, c); SeenAgrees(w, r) && Grows(ts, r) && CoversNode(w, r, c)
  {
    var t0 := if NeedsHeaders(c) then ts.(needHeaders := true, hasContent := true) else ts;
    AddBodiesCovers(w, t0, c.body);
    AddTextsCovers(w, AddBodies(w, t0, c.body), c.text);
  }

  /** Coverage is kept while more terms are collected. */
  lemma {:induction false} CoversGrows(w: World, a: Terms, b: Terms, c: Criteria)
    requires Covers(w, a, c) && Grows(a, b)
    ensures Covers(w, b, c)
    decreases c
  {
    forall i | 0 <= i < |c.nots| ensures Covers(w, b, c.nots[i]) {
      CoversGrows(w, a, b, c.nots[i]);
    }
    forall i | 0 <= i < |c.ors| ensures Covers(w, b, c.ors[i].0) && Covers(w, b, c.ors[i].1) {
      CoversGrows(w, a, b, c.ors[i].0);
      CoversGrows(w, a, b, c.ors[i].1);
    }
  }

  lemma {:induction false} CollectGrows(w: World, ts: Terms, c: Criteria)
    requires SeenAgrees(w, ts)
    ensures SeenAgrees(w, Collect(w, ts, c)) && Grows(ts, Collect(w, ts, c))
    decreases c
  {
    var t1 := CollectNode(w, ts, c);
    CollectNodeCovers(w, ts, c);
    CollectNotsGrows(w, t1, c, |c.nots|);
    CollectOrsGrows(w, CollectNots(w, t1, c, |c.nots|), c, |c.ors|);
  }

  lemma {:induction false} CollectNotsGrows(w: World, ts: Terms, c: Criteria, n: nat)
    requires SeenAgrees(w, ts) && n <= |c.nots|
    ensures SeenAgrees(w, CollectNots(w, ts, c, n)) && Grows(ts, CollectNots(w, ts, c, n))
    decreases c, 0, n
  {
    if n > 0 {
      CollectNotsGrows(w, ts, c, n - 1);
      CollectGrows(w, CollectNots(w, ts, c, n - 1), c.nots[n - 1]);
    }
  }

  lemma {:induction false} CollectOrsGrows(w: World, ts: Terms, c: Criteria, n: nat)
    requires SeenAgrees(w, ts) && n <= |c.ors|
    ensures SeenAgrees(w, CollectOrs(w, ts, c, n)) && Grows(ts, CollectOrs(w, ts, c, n))
    decreases c, 0, n
  {
    if n > 0 {
      var t := CollectOrs(w, ts, c, n - 1);
      CollectOrsGrows(w, ts, c, n - 1);
      CollectGrows(w, t, c.ors[n - 1].0);
      CollectGrows(w, Collect(w, t, c.ors[n - 1].0), c.ors[n - 1].1);
    }
  }

  /** Collecting a tree covers it. */
  lemma {:induction false} CollectCovers(w: World, ts: Terms, c: Criteria)
    requires SeenAgrees(w, ts)
    ensures Covers(w, Collect(w, ts, c), c)
    decreases c
  {
    var t1 := CollectNode(w, ts, c);
    var t2 := CollectNots(w, t1, c, |c.nots|);
    var t3 := CollectOrs(w, t2, c, |c.ors|);
    CollectNodeCovers(w, ts, c);
    CollectNotsGrows(w, t1, c, |c.nots|);
    CollectOrsGrows(w, t2, c, |c.ors|);
    forall i | 0 <= i < |c.nots| ensures Covers(w, t3, c.nots[i]) {
      CollectNotsCovers(w, t1, c, |c.nots|, i);
      CoversGrows(w, t2, t3, c.nots[i]);
    }
    forall i | 0 <= i < |c.ors| ensures Covers(w, t3, c.ors[i].0) && Covers(w, t3, c.ors[i].1) {
      CollectOrsCovers(w, t2, c, |c.ors|, i);
    }
  }

  lemma {:induction false} CollectNotsCovers(w: World, ts: Terms, c: Criteria, n: nat, i: nat)
    requires SeenAgrees(w, ts) && i < n <= |c.nots|
    ensures Covers(w, CollectNots(w, ts, c, n), c.nots[i])
    decreases c, 0, n
  {
    var t := CollectNots(w, ts, c, n - 1);
    CollectNotsGrows(w, ts, c, n - 1);
    if i == n - 1 {
      CollectCovers(w, t, c.nots[i]);
    } else {
      CollectNotsCovers(w, ts, c, n - 1, i);
      CollectGrows(w, t, c.nots[n - 1]);
      CoversGrows(w, t, CollectNots(w, ts, c, n), c.nots[i]);
    }
  }

  lemma {:induction false} CollectOrsCovers(w: World, ts: Terms, c: Criteria, n: nat, i: nat)
    requires SeenAgrees(w, ts) && i < n <= |c.ors|
    ensures Covers(w, CollectOrs(w, ts, c, n), c.ors[i].0) && Covers(w, CollectOrs(w, ts, c, n), c.ors[i].1)
    decreases c, 0, n
  {
    var t0 := CollectOrs(w, ts, c, n - 1);
    var t1 := Collect(w, t0, c.ors[n - 1].0);
    var t2 := Collect(w, t1, c.ors[n - 1].1);
    CollectOrsGrows(w, ts, c, n - 1);
    CollectGrows(w, t0, c.ors[n - 1].0);
    CollectGrows(w, t1, c.ors[n - 1].1);
    if i == n - 1 {
      CollectCovers(w, t0, c.ors[i].0);
      CoversGrows(w, t1, t2, c.ors[i].0);
      CollectCovers(w, t1, c.ors[i].1);
    } else {
      CollectOrsCovers(w, ts, c, n - 1, i);
      CoversGrows(w, t0, t2, c.ors[i].0);
      CoversGrows(w, t0, t2, c.ors[i].1);
    }
  }

  // -------------------------------------------------------------- the index

  datatype ContentIndex = ContentIndex(
    byUid: map<nat, ContentMatch>,
    bodyPos: map<string, nat>,
    textPos: map<string, nat>)

  function Positions(w: World, terms: seq<string>): map<string, nat> {
    if terms == [] then map[]
    else
      var n := |terms| - 1;
      Positions(w, terms[..n])[w.lower(terms[n]) := n]
  }

  function Scan(w: World, uids: seq<nat>, ts: Terms): seq<ContentMatch> {
    if uids == [] then []
    else
      var n := |uids| - 1;
      var front := Scan(w, uids[..n], ts);
      match w.retrieve(uids[n])
      case Some(data) => front + [MatchContent(w, data, uids[n], ts)]
      case None => front
  }

  function ByUid(matches: seq<ContentMatch>): map<nat, ContentMatch> {
    if matches == [] then map[]
    else
      var n := |matches| - 1;
      ByUid(matches[..n])[matches[n].uid := matches[n]]
  }

  function IndexOf(w: World, matches: seq<ContentMatch>, ts: Terms): ContentIndex {
    ContentIndex(ByUid(matches), Positions(w, ts.body), Positions(w, ts.text))
  }

  /** Every folded term has a position, and it is the position of a term that folds to it. */
  lemma {:induction false} PositionsPoint(w: World, terms: seq<string>)
    ensures Positions(w, terms).Keys == Lowered(w, terms)
    ensures forall t | t in Positions(w, terms) ::
      Positions(w, terms)[t] < |terms| && w.lower(terms[Positions(w, terms)[t]]) == t
  {
    if terms != [] {
      var n := |terms| - 1;
      PositionsPoint(w, terms[..n]);
      assert terms == terms[..n] + [terms[n]];
      LoweredSnoc(w, terms[..n], terms[n]);
    }
  }

  lemma ByUidSnoc(matches: seq<ContentMatch>, m: ContentMatch)
    ensures ByUid(matches + [m]) == ByUid(matches)[m.uid := m]
  {
    assert (matches + [m])[..|matches|] == matches;
  }

  /** The scan holds one result for each message that can be retrieved, and none for the others. */
  lemma {:induction false} ScanHolds(w: World, uids: seq<nat>, ts: Terms)
    ensures forall u :: u in ByUid(Scan(w, uids, ts)) <==> u in uids && w.retrieve(u).Some?
    ensures forall u | u in ByUid(Scan(w, uids, ts)) && w.retrieve(u).Some? ::
      ByUid(Scan(w, uids, ts))[u] == MatchContent(w, w.retrieve(u).value, u, ts)
  {
    if uids != [] {
      var n := |uids| - 1;
      ScanHolds(w, uids[..n], ts);
      assert uids == uids[..n] + [uids[n]];
      if w.retrieve(uids[n]).Some? {
        ByUidSnoc(Scan(w, uids[..n], ts), MatchContent(w, w.retrieve(uids[n]).value, uids[n], ts));
      }
    }
  }

  // ------------------------------------------------- evaluating the criteria

  predicate DatesMatch(w: World, date: Option<int>, since: Option<int>, before: Option<int>) {
    since.Some? || before.Some? ==>
      && date.Some?
      && (since.Some? ==> w.day(date.value) >= w.day(since.value))
      && (before.Some? ==> w.day(date.value) < w.day(before.value))
  }

  /** The predicates answered from the message list alone. */
  predicate MetaMatches(w: World, info: MessageInfo, seqNum: nat, c: Criteria) {
    && (forall i | 0 <= i < |c.seqNum| :: c.seqNum[i](seqNum))
    && (forall i | 0 <= i < |c.uid| :: c.uid[i](info.uid))
    && (forall i | 0 <= i < |c.flag| :: c.flag[i] in info.flags)
    && (forall i | 0 <= i < |c.notFlag| :: c.notFlag[i] !in info.flags)
    && (c.larger > 0 ==> info.size > c.larger)
    && (c.smaller > 0 ==> info.size < c.smaller)
    && DatesMatch(w, info.internalDate, c.since, c.before)
  }

  function SentDate(w: World, hdr: Option<string -> string>): Option<int> {
    if hdr.Some? && hdr.value("Date") != "" then w.parseDate(hdr.value("Date")) else None
  }

  /** The header and sent-date predicates, on a header block. */
  predicate HeadersMatch(w: World, headers: string, c: Criteria) {
    var hdr := w.parseHeader(headers);
    && DatesMatch(w, SentDate(w, hdr), c.sentSince, c.sentBefore)
    && forall i | 0 <= i < |c.header| ::
         hdr.Some? && Found(w, hdr.value(c.header[i].key), c.header[i].value)
  }

  predicate MarkedAt(pos: map<string, nat>, marks: seq<bool>, t: string) {
    t in pos && pos[t] < |marks| && marks[pos[t]]
  }

  /** The content predicates of one node, answered from the index. */
  predicate ContentIndexed(w: World, idx: Option<ContentIndex>, uid: nat, c: Criteria) {
    NeedsContent(c) ==>
      && idx.Some?
      && uid in idx.value.byUid
      && var m := idx.value.byUid[uid];
         && (NeedsHeaders(c) ==> HeadersMatch(w, m.headers, c))
         && AllMarked(w, idx.value.bodyPos, m.bodyMatches, c.body)
         && AllMarked(w, idx.value.textPos, m.textMatches, c.text)
  }

  /** matchesCriteria. */
  predicate Matches(w: World, idx: Option<ContentIndex>, info: MessageInfo, seqNum: nat, c: Criteria)
    decreases c
  {
    && MetaMatches(w, info, seqNum, c)
    && ContentIndexed(w, idx, info.uid, c)
    && (forall i | 0 <= i < |c.nots| :: !Matches(w, idx, info, seqNum, c.nots[i]))
    && (forall i | 0 <= i < |c.ors| ::
          Matches(w, idx, info, seqNum, c.ors[i].0) || Matches(w, idx, info, seqNum, c.ors[i].1))
  }

  /** The content predicates of one node, answered by retrieving the message for that node. */
  predicate ContentDirect(w: World, uid: nat, c: Criteria) {
    NeedsContent(c) ==>
      match w.retrieve(uid)
      case None => false
      case Some(data) =>
        var (header, body) := SplitMessage(data);
        && (NeedsHeaders(c) ==> HeadersMatch(w, header, c))
        && AllFound(w, body, c.body)
        && AllFound(w, data, c.text)
  }

  /** The meaning of the criteria, node by node, without any index. */
  predicate Direct(w: World, info: MessageInfo, seqNum: nat, c: Criteria)
    decreases c
  {
    && MetaMatches(w, info, seqNum, c)
    && ContentDirect(w, info.uid, c)
    && (forall i | 0 <= i < |c.nots| :: !Direct(w, info, seqNum, c.nots[i]))
    && (forall i | 0 <= i < |c.ors| ::
          Direct(w, info, seqNum, c.ors[i].0) || Direct(w, info, seqNum, c.ors[i].1))
  }

  /** A folded term's position leads to the answer for every term that folds alike. */
  lemma MarkedIffFound(w: World, s: string, terms: seq<string>, t: string)
    requires w.lower(t) in Lowered(w, terms)
    ensures MarkedAt(Positions(w, terms), FoundEach(w, s, terms), w.lower(t)) <==> Found(w, s, t)
  {
    PositionsPoint(w, terms);
  }

  predicate AllMarked(w: World, positions: map<string, nat>, marks: seq<bool>, wanted: seq<string>) {
    forall i | 0 <= i < |wanted| :: MarkedAt(positions, marks, w.lower(wanted[i]))
  }

  predicate AllFound(w: World, s: string, wanted: seq<string>) {
    forall i | 0 <= i < |wanted| :: Found(w, s, wanted[i])
  }

  lemma AllMarkedIffFound(w: World, s: string, terms: seq<string>, wanted: seq<string>)
    requires Lowered(w, wanted) <= Lowered(w, terms)
    ensures AllMarked(w, Positions(w, terms), FoundEach(w, s, terms), wanted) <==> AllFound(w, s, wanted)
  {
    forall i | 0 <= i < |wanted|
      ensures MarkedAt(Positions(w, terms), FoundEach(w, s, terms), w.lower(wanted[i])) <==> Found(w, s, wanted[i])
    {
      assert w.lower(wanted[i]) in Lowered(w, wanted);
      MarkedIffFound(w, s, terms, wanted[i]);
    }
  }

  lemma NodeAgrees(w: World, uids: seq<nat>, ts: Terms, uid: nat, c: Criteria)
    requires SeenAgrees(w, ts) && CoversNode(w, ts, c) && uid in uids
    ensures ContentIndexed(w, Some(IndexOf(w, Scan(w, uids, ts), ts)), uid, c) <==> ContentDirect(w, uid, c)
  {
    ScanHolds(w, uids, ts);
    if NeedsContent(c) && w.retrieve(uid).Some? {
      var data := w.retrieve(uid).value;
      AllMarkedIffFound(w, SplitMessage(data).1, ts.body, c.body);
      AllMarkedIffFound(w, data, ts.text, c.text);
    }
  }

  /** The indexed evaluation means the same as the direct one, through every Not and Or. */
  lemma {:induction false} IndexedIsDirect(w: World, uids: seq<nat>, ts: Terms, info: MessageInfo, seqNum: nat, c: Criteria)
    requires SeenAgrees(w, ts) && Covers(w, ts, c) && info.uid in uids
    ensures Matches(w, Some(IndexOf(w, Scan(w, uids, ts), ts)), info, seqNum, c) <==> Direct(w, info, seqNum, c)
    decreases c
  {
    var idx := Some(IndexOf(w, Scan(w, uids, ts), ts));
    NodeAgrees(w, uids, ts, info.uid, c);
    forall i | 0 <= i < |c.nots|
      ensures Matches(w, idx, info, seqNum, c.nots[i]) <==> Direct(w, info, seqNum, c.nots[i])
    {
      IndexedIsDirect(w, uids, ts, info, seqNum, c.nots[i]);
    }
    forall i | 0 <= i < |c.ors|
      ensures Matches(w, idx, info, seqNum, c.ors[i].0) <==> Direct(w, info, seqNum, c.ors[i].0)
      ensures Matches(w, idx, info, seqNum, c.ors[i].1) <==> Direct(w, info, seqNum, c.ors[i].1)
    {
      IndexedIsDirect(w, uids, ts, info, seqNum, c.ors[i].0);
      IndexedIsDirect(w, uids, ts, info, seqNum, c.ors[i].1);
    }
  }

  /** Without an index the evaluation is still the direct one when no node needs content. */
  lemma {:induction false} UnindexedIsDirect(w: World, ts: Terms, info: MessageInfo, seqNum: nat, c: Criteria)
    requires Covers(w, ts, c) && !ts.hasContent
    ensures Matches(w, None, info, seqNum, c) <==> Direct(w, info, seqNum, c)
    decreases c
  {
    forall i | 0 <= i < |c.nots|
      ensures Matches(w, None, info, seqNum, c.nots[i]) <==> Direct(w, info, seqNum, c.nots[i])
    {
      UnindexedIsDirect(w, ts, info, seqNum, c.nots[i]);
    }
    forall i | 0 <= i < |c.ors|
      ensures Matches(w, None, info, seqNum, c.ors[i].0) <==> Direct(w, info, seqNum, c.ors[i].0)
      ensures Matches(w, None, info, seqNum, c.ors[i].1) <==> Direct(w, info, seqNum, c.ors[i].1)
    {
      UnindexedIsDirect(w, ts, info, seqNum, c.ors[i].0);
      UnindexedIsDirect(w, ts, info, seqNum, c.ors[i].1);
    }
  }

  // ---------------------------------------------------------- the operations

  /** collectContentTerms and the accumulators it fills. */
  class Collector {
    var bodyTerms: seq<string>
    var textTerms: seq<string>
    var bodySeen: set<string>
    var textSeen: set<string>
    var needHeaders: bool
    var hasContent: bool

    function Value(): Terms
      reads this
    {
      Terms(bodyTerms, textTerms, bodySeen, textSeen, needHeaders, hasContent)
    }

    constructor ()
      ensures Value() == NO_TERMS
    {
      bodyTerms, textTerms, bodySeen, textSeen := [], [], {}, {};
      needHeaders, hasContent := false, false;
    }

    method CollectBodies(w: World, terms: seq<string>)
      modifies this
      ensures Value() == AddBodies(w, old(Value()), terms)
    {
      for i := 0 to |terms|
        invariant Value() == AddBodies(w, old(Value()), terms[..i])
      {
        assert terms[..i + 1][..i] == terms[..i];
        hasContent := true;
        var lt := w.lower(terms[i]);
        if lt !in bodySeen {
          bodySeen := bodySeen + {lt};
          bodyTerms := bodyTerms + [terms[i]];
        }
      }
      assert terms[..|terms|] == terms;
    }

    method CollectTexts(w: World, terms: seq<string>)
      modifies this
      ensures Value() == AddTexts(w, old(Value()), terms)
    {
      for i := 0 to |terms|
        invariant Value() == AddTexts(w, old(Value()), terms[..i])
      {
        assert terms[..i + 1][..i] == terms[..i];
        hasContent := true;
        var lt := w.lower(terms[i]);
        if lt !in textSeen {
          textSeen := textSeen + {lt};
          textTerms := textTerms + [terms[i]];
        }
      }
      assert terms[..|terms|] == terms;
    }

    method CollectOwn(w: World, c: Criteria)
      modifies this
      ensures Value() == CollectNode(w, old(Value()), c)
    {
      if NeedsHeaders(c) {
        needHeaders, hasContent := true, true;
      }
      CollectBodies(w, c.body);
      CollectTexts(w, c.text);
    }

    method CollectTree(w: World, c: Criteria)
      modifies this
      ensures Value() == Collect(w, old(Value()), c)
      decreases c
    {
      CollectOwn(w, c);
      ghost var t1 := Value();
      for i := 0 to |c.nots|
        invariant Value() == CollectNots(w, t1, c, i)
      {
        CollectTree(w, c.nots[i]);
      }
      ghost var t2 := Value();
      for i := 0 to |c.ors|
        invariant Value() == CollectOrs(w, t2, c, i)
      {
        CollectTree(w, c.ors[i].0);
        CollectTree(w, c.ors[i].1);
      }
    }
  }

  method MatchMessageContent(w: World, data: string, uid: nat, ts: Terms) returns (m: ContentMatch)
    ensures m == MatchContent(w, data, uid, ts)
  {
    var (header, body) := SplitMessage(data);
    var lowerWhole, lowerBody := w.lower(data), w.lower(body);
    var bodyMatches, textMatches := [], [];
    for i := 0 to |ts.body|
      invariant bodyMatches == FoundEach(w, body, ts.body[..i])
    {
      bodyMatches := bodyMatches + [Contains(lowerBody, w.lower(ts.body[i]))];
    }
    assert ts.body[..|ts.body|] == ts.body;
    for i := 0 to |ts.text|
      invariant textMatches == FoundEach(w, data, ts.text[..i])
    {
      textMatches := textMatches + [Contains(lowerWhole, w.lower(ts.text[i]))];
    }
    assert ts.text[..|ts.text|] == ts.text;
    m := ContentMatch(uid, if ts.needHeaders then header else "", bodyMatches, textMatches);
  }

  /** An empty list of UIDs asks for the whole folder; None is a failure to list it. */
  method SearchContentStore(w: World, uids: seq<nat>, ts: Terms) returns (r: Option<seq<ContentMatch>>)
    ensures uids != [] ==> r == Some(Scan(w, uids, ts))
    ensures uids == [] ==> (r.None? <==> w.listFolder.None?)
    ensures uids == [] && r.Some? ==> r == Some(Scan(w, w.listFolder.value, ts))
  {
    var all := uids;
    if uids == [] {
      if w.listFolder.None? {
        return None;
      }
      all := w.listFolder.value;
    }
    var results := [];
    for i := 0 to |all|
      invariant results == Scan(w, all[..i], ts)
    {
      assert all[..i + 1][..i] == all[..i];
      var data := w.retrieve(all[i]);
      if data.Some? {
        var m := MatchMessageContent(w, data.value, all[i], ts);
        results := results + [m];
      }
    }
    assert all[..|all|] == all;
    r := Some(results);
  }

  function UidsOf(messages: seq<MessageInfo>): seq<nat> {
    seq(|messages|, i requires 0 <= i < |messages| => messages[i].uid)
  }

  datatype Prefetched = Prefetched(index: Option<ContentIndex>) | ScanFailed

  /** No index is built exactly when nothing in the tree needs content. */
  method PrefetchContent(w: World, messages: seq<MessageInfo>, c: Criteria) returns (r: Prefetched)
    ensures var ts := Collect(w, NO_TERMS, c);
      && (r.ScanFailed? <==> ts.hasContent && messages == [] && w.listFolder.None?)
      && (r.Prefetched? ==> (r.index.None? <==> !ts.hasContent))
      && (r.Prefetched? && r.index.Some? && messages != [] ==>
            r.index == Some(IndexOf(w, Scan(w, UidsOf(messages), ts), ts)))
  {
    var collector := new Collector();
    collector.CollectTree(w, c);
    var ts := collector.Value();
    if !ts.hasContent {
      return Prefetched(None);
    }
    var matches := SearchContentStore(w, UidsOf(messages), ts);
    if matches.None? {
      return ScanFailed;
    }
    var bodyPos := PositionsOf(w, ts.body);
    var textPos := PositionsOf(w, ts.text);
    var byUid := IndexByUid(matches.value);
    r := Prefetched(Some(ContentIndex(byUid, bodyPos, textPos)));
  }

  method PositionsOf(w: World, terms: seq<string>) returns (positions: map<string, nat>)
    ensures positions == Positions(w, terms)
  {
    positions := map[];
    for i := 0 to |terms|
      invariant positions == Positions(w, terms[..i])
    {
      assert terms[..i + 1][..i] == terms[..i];
      positions := positions[w.lower(terms[i]) := i];
    }
    assert terms[..|terms|] == terms;
  }

  method IndexByUid(matches: seq<ContentMatch>) returns (byUid: map<nat, ContentMatch>)
    ensures byUid == ByUid(matches)
  {
    byUid := map[];
    for i := 0 to |matches|
      invariant byUid == ByUid(matches[..i])
    {
      assert matches[..i + 1][..i] == matches[..i];
      byUid := byUid[matches[i].uid := matches[i]];
    }
    assert matches[..|matches|] == matches;
  }

  datatype NumKind = Seqs | Uids

  function NumOf(kind: NumKind, messages: seq<MessageInfo>, i: nat): nat
    requires i < |messages|
  {
    if kind.Uids? then messages[i].uid else i + 1
  }

  /** The numbers of those of the first n messages that are hits. */
  function Numbers(kind: NumKind, messages: seq<MessageInfo>, hits: seq<bool>, n: nat): set<nat>
    requires n <= |messages| == |hits|
  {
    if n == 0 then {}
    else
      var front := Numbers(kind, messages, hits, n - 1);
      if hits[n - 1] then front + {NumOf(kind, messages, n - 1)} else front
  }

  function DirectEach(w: World, messages: seq<MessageInfo>, c: Criteria): seq<bool> {
    seq(|messages|, i requires 0 <= i < |messages| => Direct(w, messages[i], i + 1, c))
  }

  /** The numbers of the messages that the direct evaluation selects. */
  function Selection(w: World, kind: NumKind, messages: seq<MessageInfo>, c: Criteria): set<nat> {
    Numbers(kind, messages, DirectEach(w, messages, c), |messages|)
  }

  lemma {:induction false} NumbersMembers(kind: NumKind, messages: seq<MessageInfo>, hits: seq<bool>, n: nat)
    requires n <= |messages| == |hits|
    ensures Numbers(kind, messages, hits, n) == set i | 0 <= i < n && hits[i] :: NumOf(kind, messages, i)
  {
    if n > 0 {
      NumbersMembers(kind, messages, hits, n - 1);
    }
  }

  lemma SelectionMembers(w: World, kind: NumKind, messages: seq<MessageInfo>, c: Criteria)
    ensures Selection(w, kind, messages, c)
         == set i | 0 <= i < |messages| && Direct(w, messages[i], i + 1, c) :: NumOf(kind, messages, i)
  {
    NumbersMembers(kind, messages, DirectEach(w, messages, c), |messages|);
  }

  /** Whatever was prefetched, matching against it decides each listed message as the direct evaluation does. */
  lemma PrefetchDecides(w: World, messages: seq<MessageInfo>, c: Criteria, ts: Terms, idx: Option<ContentIndex>, i: nat)
    requires i < |messages| && SeenAgrees(w, ts) && Covers(w, ts, c)
    requires idx.None? <==> !ts.hasContent
    requires idx.Some? ==> idx == Some(IndexOf(w, Scan(w, UidsOf(messages), ts), ts))
    ensures Matches(w, idx, messages[i], i + 1, c) <==> Direct(w, messages[i], i + 1, c)
  {
    if ts.hasContent {
      assert UidsOf(messages)[i] == messages[i].uid;
      IndexedIsDirect(w, UidsOf(messages), ts, messages[i], i + 1, c);
    } else {
      UnindexedIsDirect(w, ts, messages[i], i + 1, c);
    }
  }

  /** What was prefetched serves every listed message. */
  predicate Serves(w: World, messages: seq<MessageInfo>, c: Criteria, ts: Terms, idx: Option<ContentIndex>) {
    && SeenAgrees(w, ts) && Covers(w, ts, c) && (idx.None? <==> !ts.hasContent)
    && (idx.Some? && messages != [] ==> idx == Some(IndexOf(w, Scan(w, UidsOf(messages), ts), ts)))
  }

  /** Matching against what was prefetched gives each listed message its hit or miss. */
  predicate Decides(w: World, messages: seq<MessageInfo>, c: Criteria, idx: Option<ContentIndex>, hits: seq<bool>) {
    |hits| == |messages| && forall i | 0 <= i < |messages| :: hits[i] == Matches(w, idx, messages[i], i + 1, c)
  }

  lemma ServingDecides(w: World, messages: seq<MessageInfo>, c: Criteria, ts: Terms, idx: Option<ContentIndex>)
    requires Serves(w, messages, c, ts, idx)
    ensures Decides(w, messages, c, idx, DirectEach(w, messages, c))
  {
    forall i | 0 <= i < |messages|
      ensures DirectEach(w, messages, c)[i] == Matches(w, idx, messages[i], i + 1, c)
    {
      PrefetchDecides(w, messages, c, ts, idx, i);
    }
  }

  /** The matching loop of Search. */
  method SelectMatching(w: World, kind: NumKind, messages: seq<MessageInfo>, c: Criteria, idx: Option<ContentIndex>,
                        ghost hits: seq<bool>) returns (found: set<nat>)
    requires Decides(w, messages, c, idx, hits)
    ensures found == Numbers(kind, messages, hits, |messages|)
  {
    found := {};
    for i := 0 to |messages|
      invariant found == Numbers(kind, messages, hits, i)
    {
      if Matches(w, idx, messages[i], i + 1, c) {
        found := found + {NumOf(kind, messages, i)};
      }
    }
  }

  /**
    Session.Search on a selected mailbox: the numbers of exactly those messages
    that the direct evaluation of the criteria selects. The search fails exactly when
    it needs content, the list is empty and the folder cannot be listed.
   */
  method RunSearch(w: World, kind: NumKind, messages: seq<MessageInfo>, c: Criteria) returns (r: Option<set<nat>>)
    ensures r.None? <==> Collect(w, NO_TERMS, c).hasContent && messages == [] && w.listFolder.None?
    ensures r.Some? ==> r.value == Selection(w, kind, messages, c)
  {
    ghost var ts := Collect(w, NO_TERMS, c);
    CollectGrows(w, NO_TERMS, c);
    CollectCovers(w, NO_TERMS, c);
    var idx := PrefetchContent(w, messages, c);
    if idx.ScanFailed? {
      return None;
    }
    ServingDecides(w, messages, c, ts, idx.index);
    var found := SelectMatching(w, kind, messages, c, idx.index, DirectEach(w, messages, c));
    r := Some(found);
  }
}
