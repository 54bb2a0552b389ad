/**
  The .uidlist file: the text a list is written as, and the reader that must
  recover the list from it.
 */
module UidFile {
  import opened Text
  import opened UidList
  import opened UidRules

  /** bufio.Scanner refuses a line that does not fit its buffer. */
  const MAX_LINE := 65536

  // ---------------------------------------------------------------- fields

  function WordLen(s: string): (n: nat)
    ensures n <= |s| && (s != "" && !IsSpace(s[0]) ==> n > 0)
  {
    if s == "" || IsSpace(s[0]) then 0 else 1 + WordLen(s[1..])
  }

  /** strings.Fields. */
  function Fields(s: string): seq<string>
    decreases |s|
  {
    if s == "" then []
    else if IsSpace(s[0]) then Fields(s[1..])
    else
      var n := WordLen(s);
      [s[..n]] + Fields(s[n..])
  }

  lemma {:induction false} WordLenOf(w: string, rest: string)
    requires Spaceless(w) && (rest == "" || IsSpace(rest[0]))
    ensures WordLen(w + rest) == |w|
  {
    if w == "" {
      assert w + rest == rest;
    } else {
      assert (w + rest)[1..] == w[1..] + rest;
      WordLenOf(w[1..], rest);
    }
  }

  lemma FieldsOf(w: string, rest: string)
    requires w != "" && Spaceless(w) && (rest == "" || IsSpace(rest[0]))
    ensures Fields(w + rest) == [w] + Fields(rest)
  {
    WordLenOf(w, rest);
    assert (w + rest)[..|w|] == w && (w + rest)[|w|..] == rest;
    assert !IsSpace((w + rest)[0]);
  }

  lemma DropOneSpace(rest: string)
    ensures Fields([' '] + rest) == Fields(rest)
  {
    assert ([' '] + rest)[1..] == rest;
  }

  // --------------------------------------------------------------- writing

  function HeaderLine(l: Listing): string {
    Decimal(l.version) + ([' '] + (['V'] + Digits(l.validity) + ([' '] + (['N'] + Digits(l.next)))))
  }

  function EntryLine(e: Entry): string {
    Digits(e.uid) + ([' '] + e.key)
  }

  function RenderEntries(es: seq<Entry>): string {
    if es == [] then "" else EntryLine(es[0]) + "\n" + RenderEntries(es[1..])
  }

  function Render(l: Listing): string {
    HeaderLine(l) + "\n" + RenderEntries(l.entries)
  }

  // --------------------------------------------------------------- reading

  /** The lines bufio.Scanner yields, before their carriage returns are dropped. */
  function RawLines(text: string): seq<string> {
    var ls := Split(text);
    if ls[|ls| - 1] == "" then ls[..|ls| - 1] else ls
  }

  function DropCR(line: string): string {
    if line != "" && line[|line| - 1] == '\r' then line[..|line| - 1] else line
  }

  function ParseHeader(line: string): Option<Listing> {
    var parts := Fields(line);
    if |parts| != 3 then None
    else if parts[1] == "" || parts[1][0] != 'V' || parts[2] == "" || parts[2][0] != 'N' then None
    else
      match (ParseInt(parts[0]), ParseUint(parts[1][1..], UINT32), ParseUint(parts[2][1..], UINT32))
      case (Some(version), Some(validity), Some(next)) => Some(Listing(version, validity, next, [], map[], map[]))
      case _ => None
  }

  function SpaceAt(line: string): (i: nat)
    ensures i <= |line|
    ensures i < |line| ==> line[i] == ' '
  {
    if line == "" || line[0] == ' ' then 0 else 1 + SpaceAt(line[1..])
  }

  function ParseEntry(line: string): Option<Entry> {
    var i := SpaceAt(line);
    if i == |line| || i + 1 == |line| then None
    else
      match ParseUint(line[..i], UINT32)
      case Some(uid) => Some(Entry(uid, line[i + 1..]))
      case None => None
  }

  function Record(l: Listing, e: Entry): Listing {
    l.(entries := l.entries + [e], keyToUid := l.keyToUid[e.key := e.uid], uidToKey := l.uidToKey[e.uid := e.key])
  }

  /** One entry line; an empty line is skipped. */
  function ReadLine(l: Listing, raw: string): Option<Listing> {
    var line := DropCR(raw);
    if line == "" then Some(l)
    else
      match ParseEntry(line)
      case Some(e) => Some(Record(l, e))
      case None => None
  }

  function ReadLines(l: Listing, raws: seq<string>): Option<Listing>
    decreases |raws|
  {
    if raws == [] then Some(l)
    else
      match ReadLine(l, raws[0])
      case Some(m) => ReadLines(m, raws[1..])
      case None => None
  }

  predicate TooLong(raws: seq<string>) {
    exists i :: 0 <= i < |raws| && |raws[i]| >= MAX_LINE
  }

  /** readUIDList on the contents of an existing file; None is a corrupt file. */
  function Read(text: string): Option<Listing> {
    var raws := RawLines(text);
    if raws == [] || TooLong(raws) then None
    else
      match ParseHeader(DropCR(raws[0]))
      case Some(h) => ReadLines(h, raws[1..])
      case None => None
  }

  // ------------------------------------------------------------ round trip

  /** A key that one line of the file can carry. */
  predicate Plain(e: Entry) {
    && e.key != ""
    && NoNewline(e.key)
    && e.key[|e.key| - 1] != '\r'
    && |EntryLine(e)| < MAX_LINE
  }

  predicate AllPlain(es: seq<Entry>) {
    forall i | 0 <= i < |es| :: Plain(es[i])
  }

  lemma DigitsClean(n: nat)
    ensures NoNewline(Digits(n)) && Spaceless(Digits(n)) && ' ' !in Digits(n)
  {
    assert forall i | 0 <= i < |Digits(n)| :: IsDigit(Digits(n)[i]);
  }

  lemma ParseUintDigits(n: Uint32)
    ensures ParseUint(Digits(n), UINT32) == Some(n)
  {
    DigitsRoundTrip(n);
  }

  predicate Word(w: string) {
    w != "" && Spaceless(w)
  }

  lemma ThreeFields(a: string, b: string, c: string)
    requires Word(a) && Word(b) && Word(c)
    ensures Fields(a + ([' '] + (b + ([' '] + c)))) == [a, b, c]
  {
    TwoFields(b, c);
    FieldsOf(a, [' '] + (b + ([' '] + c)));
    DropOneSpace(b + ([' '] + c));
  }

  lemma TwoFields(b: string, c: string)
    requires Word(b) && Word(c)
    ensures Fields(b + ([' '] + c)) == [b, c]
  {
    FieldsOf(c, "");
    assert c + "" == c;
    FieldsOf(b, [' '] + c);
    DropOneSpace(c);
  }

  lemma NumberIsWord(n: nat, c: char)
    requires !IsSpace(c)
    ensures Word(Digits(n)) && Word([c] + Digits(n))
  {
    DigitsClean(n);
  }

  lemma HeaderFields(l: Listing)
    ensures Fields(HeaderLine(l)) == [Decimal(l.version), ['V'] + Digits(l.validity), ['N'] + Digits(l.next)]
  {
    NumberIsWord(Abs(l.version), '-');
    NumberIsWord(l.validity, 'V');
    NumberIsWord(l.next, 'N');
    ThreeFields(Decimal(l.version), ['V'] + Digits(l.validity), ['N'] + Digits(l.next));
  }

  lemma HeaderRoundTrip(l: Listing)
    ensures ParseHeader(HeaderLine(l)) == Some(Listing(l.version, l.validity, l.next, [], map[], map[]))
  {
    HeaderFields(l);
    DecimalRoundTrip(l.version);
    ParseUintDigits(l.validity);
    ParseUintDigits(l.next);
    assert (['V'] + Digits(l.validity))[1..] == Digits(l.validity);
    assert (['N'] + Digits(l.next))[1..] == Digits(l.next);
  }

  lemma HeaderClean(l: Listing)
    ensures NoNewline(HeaderLine(l)) && DropCR(HeaderLine(l)) == HeaderLine(l)
    ensures |HeaderLine(l)| < MAX_LINE
  {
    DigitsClean(Abs(l.version));
    DigitsClean(l.validity);
    DigitsClean(l.next);
    var h := HeaderLine(l);
    assert h[|h| - 1] == Digits(l.next)[|Digits(l.next)| - 1];
    assert IsDigit(Digits(l.next)[|Digits(l.next)| - 1]);
    PowersOfTen();
    DigitsShort(Abs(l.version), 20);
    DigitsShort(l.validity, 10);
    DigitsShort(l.next, 10);
  }

  function Abs(n: int): nat {
    if n < 0 then -n else n
  }

  /** The first line of a text whose beginning holds no newline. */
  lemma {:induction false} FirstLineAfter(p: string, s: string)
    requires NoNewline(p)
    ensures Split(p + s)[0] == p + Split(s)[0]
  {
    if p == "" {
      assert p + s == s;
    } else {
      var c, q := p[0], p[1..];
      calc {
        Split(p + s)[0];
        { assert p + s == [c] + (q + s); }
        Split([c] + (q + s))[0];
        { SplitCons(c, q + s); }
        [c] + Split(q + s)[0];
        { FirstLineAfter(q, s); }
        [c] + (q + Split(s)[0]);
        { assert p == [c] + q; }
        p + Split(s)[0];
      }
    }
  }

  lemma {:induction false} FirstLineWhole(s: string)
    ensures |Split(s)[0]| <= |s|
    ensures |Split(s)[0]| == |s| ==> NoNewline(s)
  {
    if s != "" && s[0] != '\n' {
      FirstLineWhole(s[1..]);
      assert s == [s[0]] + s[1..];
    }
  }

  lemma {:induction false} SpaceAfterDigits(p: string, s: string)
    requires ' ' !in p
    ensures SpaceAt(p + ([' '] + s)) == |p|
  {
    if p == "" {
      assert p + ([' '] + s) == [' '] + s;
    } else {
      assert (p + ([' '] + s))[1..] == p[1..] + ([' '] + s);
      SpaceAfterDigits(p[1..], s);
    }
  }

  /** What reading the line "uid key" records, whatever the key. */
  lemma ReadEntryLine(m: Listing, uid: Uint32, key: string)
    ensures ReadLine(m, EntryLine(Entry(uid, key)))
            == if DropCR(key) == "" then None else Some(Record(m, Entry(uid, DropCR(key))))
  {
    var d, k := Digits(uid), DropCR(key);
    var line := d + ([' '] + key);
    DigitsClean(uid);
    ParseUintDigits(uid);
    SpaceAfterDigits(d, k);
    assert DropCR(line) == d + ([' '] + k) by {
      if key == "" {
        assert line[|line| - 1] == ' ';
      } else {
        assert line[|line| - 1] == key[|key| - 1];
      }
    }
    assert (d + ([' '] + k))[..|d|] == d && (d + ([' '] + k))[|d| + 1..] == k;
  }

  lemma {:induction false} ReadLinesConcat(m: Listing, a: seq<string>, b: seq<string>)
    ensures ReadLines(m, a + b)
            == match ReadLines(m, a) case Some(n) => ReadLines(n, b) case None => None
    decreases |a|
  {
    if a == [] {
      assert a + b == b;
    } else {
      assert (a + b)[0] == a[0] && (a + b)[1..] == a[1..] + b;
      match ReadLine(m, a[0])
      case Some(n) => ReadLinesConcat(n, a[1..], b);
      case None =>
    }
  }

  /** Reading only ever appends entries. */
  lemma {:induction false} ReadLinesAppends(m: Listing, raws: seq<string>)
    requires ReadLines(m, raws).Some?
    ensures m.entries <= ReadLines(m, raws).value.entries
    decreases |raws|
  {
    if raws != [] {
      var n := ReadLine(m, raws[0]).value;
      ReadLinesAppends(n, raws[1..]);
    }
  }

  function RecordAll(m: Listing, es: seq<Entry>): Listing
    decreases |es|
  {
    if es == [] then m else RecordAll(Record(m, es[0]), es[1..])
  }

  lemma {:induction false} RecordAllSnoc(m: Listing, es: seq<Entry>, e: Entry)
    ensures RecordAll(m, es + [e]) == Record(RecordAll(m, es), e)
    decreases |es|
  {
    if es == [] {
      assert es + [e] == [e];
    } else {
      assert (es + [e])[1..] == es[1..] + [e];
      RecordAllSnoc(Record(m, es[0]), es[1..], e);
    }
  }

  /** Recording entries into a bare header builds the indexes they determine. */
  lemma {:induction false} RecordAllIndexes(h: Listing, es: seq<Entry>)
    requires h.entries == [] && h.keyToUid == map[] && h.uidToKey == map[]
    ensures RecordAll(h, es) == h.(entries := es, keyToUid := KeyIndex(es), uidToKey := UidIndex(es))
  {
    if es != [] {
      var n := |es| - 1;
      RecordAllIndexes(h, es[..n]);
      assert es == es[..n] + [es[n]];
      RecordAllSnoc(h, es[..n], es[n]);
    }
  }

  lemma SplitEntry(es: seq<Entry>)
    requires es != []
    ensures Split(RenderEntries(es)) == Split(EntryLine(es[0])) + Split(RenderEntries(es[1..]))
  {
    SplitAtNewline(EntryLine(es[0]), RenderEntries(es[1..]));
  }

  lemma PlainLine(e: Entry)
    requires NoNewline(e.key)
    ensures Split(EntryLine(e)) == [EntryLine(e)]
  {
    DigitsClean(e.uid);
    assert NoNewline(EntryLine(e));
  }

  /** A plain entry occupies one line, which records it. */
  lemma PlainEntryReads(m: Listing, e: Entry, rest: seq<string>)
    requires Plain(e)
    ensures ReadLines(m, Split(EntryLine(e)) + rest) == ReadLines(Record(m, e), rest)
    ensures TooLong(Split(EntryLine(e)) + rest) <==> TooLong(rest)
  {
    PlainLine(e);
    ReadEntryLine(m, e.uid, e.key);
    assert ([EntryLine(e)] + rest)[1..] == rest;
    TooLongParts(EntryLine(e), rest);
  }

  /** Plain entries read back, in order and completely. */
  lemma {:induction false} PlainEntriesReadBack(m: Listing, es: seq<Entry>)
    requires AllPlain(es)
    ensures ReadLines(m, Split(RenderEntries(es))) == Some(RecordAll(m, es))
    ensures !TooLong(Split(RenderEntries(es)))
    decreases |es|
  {
    if es != [] {
      SplitEntry(es);
      PlainEntryReads(m, es[0], Split(RenderEntries(es[1..])));
      PlainEntriesReadBack(Record(m, es[0]), es[1..]);
    }
  }

  lemma EntryLineParts(uid: Uint32, key: string)
    ensures EntryLine(Entry(uid, key)) == (Digits(uid) + [' ']) + key
  {
  }

  /** The first line an entry is written on holds its UID and the first line of its key. */
  lemma FirstLineIs(e: Entry)
    ensures Split(EntryLine(e))[0] == EntryLine(Entry(e.uid, Split(e.key)[0]))
  {
    DigitsClean(e.uid);
    EntryLineParts(e.uid, e.key);
    EntryLineParts(e.uid, Split(e.key)[0]);
    FirstLineAfter(Digits(e.uid) + [' '], e.key);
  }

  /** A line that reads back as the entry it was written for shows the key to be plain. */
  lemma FirstEntryPlain(m: Listing, e: Entry, rest: seq<string>)
    requires ReadLines(m, Split(EntryLine(e)) + rest).Some?
    requires var es := ReadLines(m, Split(EntryLine(e)) + rest).value.entries;
      |es| > |m.entries| && es[|m.entries|] == e
    requires !TooLong(Split(EntryLine(e)) + rest)
    ensures Plain(e)
  {
    var lines, first := Split(EntryLine(e)) + rest, Split(e.key)[0];
    FirstLineIs(e);
    assert lines[0] == EntryLine(Entry(e.uid, first));
    ReadEntryLine(m, e.uid, first);
    var n := Record(m, Entry(e.uid, DropCR(first)));
    ReadLinesAppends(n, lines[1..]);
    assert n.entries[|m.entries|] == e;
    FirstLineWhole(e.key);
    assert |lines[0]| < MAX_LINE;
  }

  lemma ShiftBoundary(a: seq<Entry>, b: seq<Entry>)
    requires b != []
    ensures a + b == (a + [b[0]]) + b[1..] && (a + b)[|a|] == b[0]
  {
  }

  /** The first entry was plain, and the others read back from where it left off. */
  lemma FirstReadBack(m: Listing, es: seq<Entry>, lines: seq<string>, r: Listing, rest: seq<string>)
    requires es != [] && lines == Split(RenderEntries(es)) && rest == Split(RenderEntries(es[1..])) && !TooLong(lines)
    requires ReadLines(m, lines) == Some(r) && r.entries == m.entries + es
    ensures Plain(es[0]) && !TooLong(rest)
    ensures ReadLines(Record(m, es[0]), rest) == Some(r) && r.entries == Record(m, es[0]).entries + es[1..]
  {
    SplitEntry(es);
    ShiftBoundary(m.entries, es);
    FirstEntryPlain(m, es[0], rest);
    PlainEntryReads(m, es[0], rest);
  }

  /** Conversely, entries that all read back were plain. */
  lemma {:induction false} ReadBackWasPlain(m: Listing, es: seq<Entry>, lines: seq<string>, r: Listing)
    requires lines == Split(RenderEntries(es)) && !TooLong(lines)
    requires ReadLines(m, lines) == Some(r) && r.entries == m.entries + es
    ensures AllPlain(es)
    decreases |es|
  {
    if es != [] {
      var rest := Split(RenderEntries(es[1..]));
      FirstReadBack(m, es, lines, r, rest);
      ReadBackWasPlain(Record(m, es[0]), es[1..], rest, r);
      PlainCons(es);
    }
  }

  lemma PlainCons(es: seq<Entry>)
    requires es != [] && Plain(es[0]) && AllPlain(es[1..])
    ensures AllPlain(es)
  {
    assert forall i | 0 < i < |es| :: es[i] == es[1..][i - 1];
  }

  lemma {:induction false} RenderEntriesEndsLine(es: seq<Entry>)
    ensures var ls := Split(RenderEntries(es)); ls[|ls| - 1] == ""
  {
    if es != [] {
      RenderEntriesEndsLine(es[1..]);
      SplitEntry(es);
    }
  }

  lemma RawLinesOfRender(l: Listing, front: seq<string>)
    requires Split(RenderEntries(l.entries)) == front + [""]
    ensures RawLines(Render(l)) == [HeaderLine(l)] + front
  {
    HeaderClean(l);
    SplitAtNewline(HeaderLine(l), RenderEntries(l.entries));
    assert [HeaderLine(l)] + (front + [""]) == ([HeaderLine(l)] + front) + [""];
  }

  lemma TooLongParts(header: string, front: seq<string>)
    requires |header| < MAX_LINE
    ensures TooLong([header] + front) <==> TooLong(front)
    ensures TooLong(front + [""]) <==> TooLong(front)
  {
    var a, b := [header] + front, front + [""];
    if TooLong(front) {
      var i :| 0 <= i < |front| && |front[i]| >= MAX_LINE;
      assert |a[i + 1]| >= MAX_LINE && |b[i]| >= MAX_LINE;
    }
    assert forall i | 0 < i < |a| :: a[i] == front[i - 1];
    assert forall i | 0 <= i < |front| :: b[i] == front[i];
  }

  lemma ReadOfLines(text: string, header: string, front: seq<string>, h: Listing)
    requires RawLines(text) == [header] + front && DropCR(header) == header && ParseHeader(header) == Some(h)
    ensures Read(text) == if TooLong([header] + front) then None else ReadLines(h, front)
  {
    assert ([header] + front)[1..] == front;
  }

  /** A last empty line reads as nothing. */
  lemma LastLineEmpty(h: Listing, front: seq<string>)
    ensures ReadLines(h, front + [""]) == ReadLines(h, front)
  {
    ReadLinesConcat(h, front, [""]);
  }

  /** Reading the rendered file is reading the header and then every rendered entry. */
  lemma ReadRender(l: Listing)
    ensures Read(Render(l)) ==
      if TooLong(Split(RenderEntries(l.entries))) then None
      else ReadLines(Listing(l.version, l.validity, l.next, [], map[], map[]), Split(RenderEntries(l.entries)))
  {
    var h := Listing(l.version, l.validity, l.next, [], map[], map[]);
    var body := Split(RenderEntries(l.entries));
    RenderEntriesEndsLine(l.entries);
    var front := body[..|body| - 1];
    assert body == front + [""];
    RawLinesOfRender(l, front);
    HeaderClean(l);
    HeaderRoundTrip(l);
    ReadOfLines(Render(l), HeaderLine(l), front, h);
    TooLongParts(HeaderLine(l), front);
    LastLineEmpty(h, front);
  }

  /**
    Reading back a written list gives the list that was written exactly when its
    indexes are those of its entries and every key is non-empty, newline-free,
    without a final carriage return and short enough for one line.
   */
  lemma RoundTripIff(l: Listing)
    ensures Read(Render(l)) == Some(l) <==>
      AllPlain(l.entries) && l.keyToUid == KeyIndex(l.entries) && l.uidToKey == UidIndex(l.entries)
  {
    var h := Listing(l.version, l.validity, l.next, [], map[], map[]);
    ReadRender(l);
    if Read(Render(l)) == Some(l) {
      assert [] + l.entries == l.entries;
      ReadBackWasPlain(h, l.entries, Split(RenderEntries(l.entries)), l);
    }
    if AllPlain(l.entries) {
      PlainEntriesReadBack(h, l.entries);
      RecordAllIndexes(h, l.entries);
    }
  }
}
