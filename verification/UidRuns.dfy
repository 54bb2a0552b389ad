/**
  Whole runs of the folder's load operation: each one reads the .uidlist file,
  reconciles it against a snapshot of cur/ (which may be stale or list a key
  twice) or starts a new list, and writes the result back.
 */
module UidRuns {
  import opened Text
  import opened UidList
  import opened UidRules
  import opened UidFile

  /** One call: the snapshot of cur/ it was given and the time it ran at. */
  datatype Step = Step(keys: seq<string>, now: Uint32)

  datatype Loaded = Loaded(list: Listing, file: string)

  function Existing(file: Option<string>): Option<Listing> {
    match file
    case Some(text) => Read(text)
    case None => None
  }

  /** The list loadOrBootstrapUIDList returns, and the file it leaves behind. */
  function Load(file: Option<string>, s: Step): Loaded {
    var l := LoadedList(Existing(file), s.keys, s.now);
    Loaded(l, if Existing(file).Some? && !Changes(Existing(file).value, s.keys) then file.value else Render(l))
  }

  // ----------------------------------------------------- the file, in loops

  method WriteUidList(ul: UidList) returns (text: string)
    ensures text == Render(ul.Value())
  {
    text := HeaderLine(ul.Value()) + "\n";
    for i := 0 to |ul.entries|
      invariant text + RenderEntries(ul.entries[i..]) == Render(ul.Value())
    {
      RenderOneMore(text, ul.entries, i);
      text := text + EntryLine(ul.entries[i]) + "\n";
    }
    assert text + "" == text;
  }

  lemma RenderOneMore(text: string, es: seq<Entry>, i: nat)
    requires i < |es|
    ensures text + RenderEntries(es[i..]) == text + EntryLine(es[i]) + "\n" + RenderEntries(es[i + 1..])
  {
    assert es[i..][0] == es[i] && es[i..][1..] == es[i + 1..];
    LineAssoc(text, EntryLine(es[i]), RenderEntries(es[i + 1..]));
  }

  lemma LineAssoc(text: string, line: string, rest: string)
    ensures text + (line + "\n" + rest) == text + line + "\n" + rest
  {
  }

  /** null stands for a corrupt file. */
  method ReadUidList(text: string) returns (ul: UidList?)
    ensures ul == null <==> Read(text) == None
    ensures ul != null ==> fresh(ul) && Read(text) == Some(ul.Value())
  {
    var raws := RawLines(text);
    if raws == [] || exists i :: 0 <= i < |raws| && |raws[i]| >= MAX_LINE {
      return null;
    }
    var header := ParseHeader(DropCR(raws[0]));
    if header.None? {
      return null;
    }
    ul := ReadBody(header.value, raws[1..]);
  }

  /** The scanning loop over the entry lines. */
  method ReadBody(header: Listing, body: seq<string>) returns (ul: UidList?)
    ensures ul == null <==> ReadLines(header, body) == None
    ensures ul != null ==> fresh(ul) && ReadLines(header, body) == Some(ul.Value())
  {
    ul := new UidList.Of(header);
    assert body[0..] == body;
    for i := 0 to |body|
      invariant fresh(ul)
      invariant ReadLines(ul.Value(), body[i..]) == ReadLines(header, body)
    {
      ReadLinesFrom(ul.Value(), body, i);
      var ok := ReadOne(ul, body[i]);
      if !ok {
        return null;
      }
    }
  }

  lemma ReadLinesFrom(l: Listing, body: seq<string>, i: nat)
    requires i < |body|
    ensures ReadLine(l, body[i]).None? ==> ReadLines(l, body[i..]) == None
    ensures ReadLine(l, body[i]).Some? ==> ReadLines(l, body[i..]) == ReadLines(ReadLine(l, body[i]).value, body[i + 1..])
  {
    assert body[i..][0] == body[i] && body[i..][1..] == body[i + 1..];
  }

  method ReadOne(ul: UidList, raw: string) returns (ok: bool)
    modifies ul
    ensures ok <==> ReadLine(old(ul.Value()), raw).Some?
    ensures ok ==> ReadLine(old(ul.Value()), raw) == Some(ul.Value())
  {
    var line := DropCR(raw);
    if line != "" {
      var e := ParseEntry(line);
      if e.None? {
        return false;
      }
      ul.entries := ul.entries + [e.value];
      ul.keyToUid := ul.keyToUid[e.value.key := e.value.uid];
      ul.uidToKey := ul.uidToKey[e.value.uid := e.value.key];
    }
    ok := true;
  }

  method LoadOrBootstrap(file: Option<string>, curKeys: seq<string>, now: Uint32)
    returns (ul: UidList, file': string)
    ensures fresh(ul)
    ensures Load(file, Step(curKeys, now)) == Loaded(ul.Value(), file')
  {
    var loaded: UidList? := null;
    if file.Some? {
      loaded := ReadUidList(file.value);
    }
    if loaded == null {
      ul := new UidList.Bootstrap(curKeys, now);
      file' := WriteUidList(ul);
    } else {
      ul := loaded;
      var changed := ul.Reconcile(curKeys);
      if changed {
        file' := WriteUidList(ul);
      } else {
        file' := file.value;
      }
    }
  }

  // ------------------------------------------------------------------ runs

  function FileAfter(f0: Option<string>, steps: seq<Step>): Option<string> {
    if steps == [] then f0
    else Some(Load(FileAfter(f0, steps[..|steps| - 1]), steps[|steps| - 1]).file)
  }

  function ListAfter(f0: Option<string>, steps: seq<Step>): Listing
    requires steps != []
  {
    Load(FileAfter(f0, steps[..|steps| - 1]), steps[|steps| - 1]).list
  }

  /** A key every UID can be written next to. Maildir file names satisfy the length bound. */
  predicate PlainKey(k: string) {
    k != "" && NoNewline(k) && k[|k| - 1] != '\r' && |k| + 11 < MAX_LINE
  }

  predicate PlainKeys(keys: seq<string>) {
    forall i | 0 <= i < |keys| :: PlainKey(keys[i])
  }

  /** The step's snapshot is writable and leaves uidNext below 2^32. */
  predicate Regular(file: Option<string>, s: Step) {
    PlainKeys(s.keys) && LoadFits(Existing(file), s.keys)
  }

  predicate RegularRun(f0: Option<string>, steps: seq<Step>) {
    forall i | 0 <= i < |steps| :: Regular(FileAfter(f0, steps[..i]), steps[i])
  }

  lemma PlainAtAnyUid(l: Listing, keys: seq<string>)
    requires Consistent(l) && l.keyToUid.Keys == KeySet(keys) && PlainKeys(keys)
    ensures AllPlain(l.entries)
  {
    PowersOfTen();
    forall i | 0 <= i < |l.entries| ensures Plain(l.entries[i]) {
      KeyIndexAt(l.entries, i);
      assert l.entries[i].key in KeySet(keys);
      DigitsShort(l.entries[i].uid, 10);
    }
  }

  /** What one regular call returns is consistent, tracks the snapshot, and is what the file now holds. */
  lemma LoadReadsBack(file: Option<string>, s: Step)
    requires Regular(file, s)
    requires Existing(file).Some? ==> Consistent(Existing(file).value)
    ensures var r := Load(file, s);
      && Consistent(r.list)
      && r.list.keyToUid.Keys == KeySet(s.keys)
      && Read(r.file) == Some(r.list)
  {
    var r := Load(file, s).list;
    LoadedListRules(Existing(file), s.keys, s.now);
    if Existing(file).Some? && !Changes(Existing(file).value, s.keys) {
      UnchangedIsIdentity(Existing(file).value, s.keys);
    }
    PlainAtAnyUid(r, s.keys);
    RoundTripIff(r);
  }

  /** Before its first list there is no file, or one that cannot be read. */
  predicate EpochStart(f0: Option<string>) {
    Existing(f0).None?
  }

  /**
    A call on a missing or unreadable file starts an epoch of its own: its time is the
    validity, and the UIDs count from 1 in the order of the keys. A call on a readable
    file keeps version and validity.
   */
  lemma UnreadableStartsEpoch(file: Option<string>, s: Step)
    requires LoadFits(Existing(file), s.keys)
    ensures Existing(file).None? ==> FirstList(Load(file, s).list, s.keys, s.now)
    ensures Existing(file).Some? && Consistent(Existing(file).value) ==>
      var l := Existing(file).value;
      && Load(file, s).list.validity == l.validity
      && exists kept, ks :: InOrder(l, s.keys, Load(file, s).list, kept, ks)
  {
    if Existing(file).None? {
      BootstrapIsFirstList(s.keys, s.now);
    } else if Consistent(Existing(file).value) {
      ReconcileInOrder(Existing(file).value, s.keys);
    }
  }

  /** Every list of an epoch carries the time of its first call as validity. */
  lemma EpochKeepsValidity(f0: Option<string>, steps: seq<Step>)
    requires EpochStart(f0) && RegularRun(f0, steps) && steps != []
    ensures ListAfter(f0, steps).validity == steps[0].now && ListAfter(f0, steps).version == 3
  {
    LaterExtendsEarlier(f0, steps, 1, |steps|);
    assert steps[..|steps|] == steps && steps[..1] == [steps[0]];
    assert [steps[0]][..0] == [];
    assert Regular(FileAfter(f0, steps[..0]), steps[0]);
    UnreadableStartsEpoch(f0, steps[0]);
  }

  lemma PrefixRegular(f0: Option<string>, steps: seq<Step>, i: nat)
    requires RegularRun(f0, steps) && i <= |steps|
    ensures RegularRun(f0, steps[..i])
  {
    forall k | 0 <= k < i ensures Regular(FileAfter(f0, steps[..i][..k]), steps[..i][k]) {
      assert steps[..i][..k] == steps[..k];
    }
  }

  lemma {:induction false} RunReadsBack(f0: Option<string>, steps: seq<Step>)
    requires EpochStart(f0) && RegularRun(f0, steps) && steps != []
    ensures Existing(FileAfter(f0, steps)) == Some(ListAfter(f0, steps))
    ensures Consistent(ListAfter(f0, steps))
    ensures ListAfter(f0, steps).keyToUid.Keys == KeySet(steps[|steps| - 1].keys)
  {
    var n := |steps| - 1;
    var front := steps[..n];
    PrefixRegular(f0, steps, n);
    if n > 0 {
      RunReadsBack(f0, front);
    }
    LoadReadsBack(FileAfter(f0, front), steps[n]);
  }

  lemma ListAfterStep(f0: Option<string>, steps: seq<Step>, j: nat)
    requires 0 < j <= |steps|
    ensures ListAfter(f0, steps[..j]) == Load(FileAfter(f0, steps[..j - 1]), steps[j - 1]).list
  {
    assert steps[..j][..j - 1] == steps[..j - 1];
  }

  /** After the first call of an epoch, each call reconciles the previous list. */
  lemma EachStepReconciles(f0: Option<string>, steps: seq<Step>, j: nat)
    requires EpochStart(f0) && RegularRun(f0, steps) && 1 < j <= |steps|
    ensures var a := ListAfter(f0, steps[..j - 1]);
      && Consistent(a) && Fits(a, steps[j - 1].keys)
      && ListAfter(f0, steps[..j]) == Reconciled(a, steps[j - 1].keys)
  {
    var file, s := FileAfter(f0, steps[..j - 1]), steps[j - 1];
    assert Regular(file, s);
    PrefixRegular(f0, steps, j - 1);
    RunReadsBack(f0, steps[..j - 1]);
    ListAfterStep(f0, steps, j);
  }

  /** Every later list of an epoch extends every earlier one. */
  lemma {:induction false} LaterExtendsEarlier(f0: Option<string>, steps: seq<Step>, i: nat, j: nat)
    requires EpochStart(f0) && RegularRun(f0, steps) && 0 < i <= j <= |steps|
    ensures Extends(ListAfter(f0, steps[..i]), ListAfter(f0, steps[..j]))
    decreases j
  {
    if i < j {
      var before := ListAfter(f0, steps[..j - 1]);
      LaterExtendsEarlier(f0, steps, i, j - 1);
      EachStepReconciles(f0, steps, j);
      ReconcileExtends(before, steps[j - 1].keys);
      ExtendsTransitive(ListAfter(f0, steps[..i]), before, ListAfter(f0, steps[..j]));
    }
  }

  // -------------------------------------------------------------- theorems

  /** Within an epoch uidNext never falls, every UID stays below it, and no UID is bound to a second key. */
  lemma UidNeverRebound(f0: Option<string>, steps: seq<Step>, i: nat, j: nat)
    requires EpochStart(f0) && RegularRun(f0, steps) && 0 < i <= j <= |steps|
    ensures var a, b := ListAfter(f0, steps[..i]), ListAfter(f0, steps[..j]);
      && a.validity == b.validity && a.next <= b.next
      && (forall u | u in b.uidToKey :: u < b.next)
      && (forall u | u in a.uidToKey && u in b.uidToKey :: a.uidToKey[u] == b.uidToKey[u])
  {
    LaterExtendsEarlier(f0, steps, i, j);
    PrefixRegular(f0, steps, i);
    PrefixRegular(f0, steps, j);
    RunReadsBack(f0, steps[..i]);
    RunReadsBack(f0, steps[..j]);
    UidsBelowNext(ListAfter(f0, steps[..i]));
    UidsBelowNext(ListAfter(f0, steps[..j]));
  }

  /** A UID that has left the list never comes back, not even for its own key. */
  lemma DroppedUidNeverReturns(f0: Option<string>, steps: seq<Step>, i: nat, m: nat, j: nat, u: Uint32)
    requires EpochStart(f0) && RegularRun(f0, steps) && 0 < i <= m <= j <= |steps|
    requires u in ListAfter(f0, steps[..i]).uidToKey && u !in ListAfter(f0, steps[..m]).uidToKey
    ensures u !in ListAfter(f0, steps[..j]).uidToKey
  {
    LaterExtendsEarlier(f0, steps, i, m);
    LaterExtendsEarlier(f0, steps, m, j);
    PrefixRegular(f0, steps, i);
    RunReadsBack(f0, steps[..i]);
    UidsBelowNext(ListAfter(f0, steps[..i]));
  }

  /** A key that stays in every snapshot keeps the UID it first got. */
  lemma {:induction false} KeyKeepsUid(f0: Option<string>, steps: seq<Step>, i: nat, j: nat, k: string)
    requires EpochStart(f0) && RegularRun(f0, steps) && 0 < i <= j <= |steps|
    requires forall m | i - 1 <= m < j :: k in steps[m].keys
    ensures var a, b := ListAfter(f0, steps[..i]), ListAfter(f0, steps[..j]);
      k in a.keyToUid && k in b.keyToUid && a.keyToUid[k] == b.keyToUid[k]
    decreases j
  {
    PrefixRegular(f0, steps, j);
    RunReadsBack(f0, steps[..j]);
    assert k in KeySet(steps[..j][j - 1].keys);
    if i < j {
      KeyKeepsUid(f0, steps, i, j - 1, k);
      EachStepReconciles(f0, steps, j);
      ReconcileTracksSnapshot(ListAfter(f0, steps[..j - 1]), steps[j - 1].keys);
    }
  }

  /** While every snapshot lists each key once, keys and UIDs stay in one-to-one correspondence. */
  lemma {:induction false} RunKeepsInverse(f0: Option<string>, steps: seq<Step>)
    requires EpochStart(f0) && RegularRun(f0, steps) && steps != []
    requires forall i | 0 <= i < |steps| :: NoRepeats(steps[i].keys)
    ensures MutuallyInverse(ListAfter(f0, steps))
    ensures Ascending(ListAfter(f0, steps).entries)
  {
    var n := |steps| - 1;
    RunReadsBack(f0, steps);
    if n == 0 {
      BootstrapConsistent(steps[0].keys, steps[0].now);
    } else {
      PrefixRegular(f0, steps, n);
      RunKeepsInverse(f0, steps[..n]);
      RunReadsBack(f0, steps[..n]);
      ReconcileKeepsInverse(ListAfter(f0, steps[..n]), steps[n].keys);
    }
  }

  /**
    The restriction to plain keys is needed. A key holding a newline is written as
    two lines: here the list that binds u to such a key reads back as one that
    binds u to another key, b, although u was never issued for it.
   */
  lemma NewlineKeyRebindsUid(u: Uint32, a: string, b: string, next: Uint32)
    requires PlainKey(a) && PlainKey(b)
    ensures var key := a + "\n" + EntryLine(Entry(u, b));
      var l := Listing(UIDLIST_VERSION, 1, next, [Entry(u, key)], map[key := u], map[u := key]);
      && l.uidToKey[u] == key != b
      && Read(Render(l)).Some? && u in Read(Render(l)).value.uidToKey
      && Read(Render(l)).value.uidToKey[u] == b
  {
    var key := a + "\n" + EntryLine(Entry(u, b));
    var l := Listing(UIDLIST_VERSION, 1, next, [Entry(u, key)], map[key := u], map[u := key]);
    var h := Listing(UIDLIST_VERSION, 1, next, [], map[], map[]);
    PowersOfTen();
    DigitsShort(u, 10);
    ReadRender(l);
    TwoLines(u, a, b);
    PlainEntryReads(h, Entry(u, a), Split(EntryLine(Entry(u, b))) + [""]);
    PlainEntryReads(Record(h, Entry(u, a)), Entry(u, b), [""]);
    ReadBlank(Record(Record(h, Entry(u, a)), Entry(u, b)));
    assert |key| > |b|;
  }

  lemma ReadBlank(m: Listing)
    ensures ReadLines(m, [""]) == Some(m) && !TooLong([""])
  {
    assert ReadLine(m, "") == Some(m);
    assert forall i | 0 <= i < 1 :: |[""][i]| == 0;
  }

  lemma TwoLines(u: Uint32, a: string, b: string)
    ensures Split(RenderEntries([Entry(u, a + "\n" + EntryLine(Entry(u, b)))]))
            == Split(EntryLine(Entry(u, a))) + (Split(EntryLine(Entry(u, b))) + [""])
  {
    var line := EntryLine(Entry(u, b));
    var es := [Entry(u, a + "\n" + line)];
    EntryLineParts(u, a + "\n" + line);
    EntryLineParts(u, a);
    ConcatAssoc(Digits(u) + [' '], a, "\n", line);
    SplitAtNewline(EntryLine(Entry(u, a)), line);
    SplitEntry(es);
    assert RenderEntries(es[1..]) == "";
    LinesAssoc(Split(EntryLine(Entry(u, a))), Split(line), [""]);
  }

  lemma LinesAssoc(a: seq<string>, b: seq<string>, c: seq<string>)
    ensures (a + b) + c == a + (b + c)
  {
  }
}
