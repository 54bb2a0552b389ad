/**
  Which files the .uidlist reader accepts, written by this program or not, and the
  list that each of them denotes.
 */
module UidGrammar {
  import opened Text
  import opened UidList
  import opened UidRules
  import opened UidFile

  // ---------------------------------------------------------------- numbers

  /** Digits, leading zeros included, that stand for the number. */
  predicate Numeral(s: string, n: nat) {
    s != "" && AllDigits(s) && DigitsValue(s) == n
  }

  lemma ParseUintIff(s: string, n: Uint32)
    ensures ParseUint(s, UINT32) == Some(n) <==> Numeral(s, n)
  {
  }

  /** A numeral with or without a sign. */
  predicate SignedNumeral(s: string, n: int) {
    || (n >= 0 && Numeral(s, n))
    || (n >= 0 && s != "" && s[0] == '+' && Numeral(s[1..], n))
    || (n <= 0 && s != "" && s[0] == '-' && Numeral(s[1..], -n))
  }

  lemma ParseIntIff(s: string, n: Int64)
    ensures ParseInt(s) == Some(n) <==> SignedNumeral(s, n)
  {
    assert s != "" && AllDigits(s) ==> IsDigit(s[0]);
  }

  // ------------------------------------------------------------ single lines

  /** A UID, one space and a key, which may hold further spaces. */
  ghost predicate EntryText(line: string, e: Entry) {
    e.key != "" && exists d :: Numeral(d, e.uid) && line == d + " " + e.key
  }

  lemma {:induction false} SpaceAfter(d: string, rest: string)
    requires ' ' !in d
    ensures SpaceAt(d + " " + rest) == |d|
  {
    if d != "" {
      assert (d + " " + rest)[1..] == d[1..] + " " + rest;
      SpaceAfter(d[1..], rest);
    }
  }

  lemma ParseEntryIff(line: string, e: Entry)
    ensures ParseEntry(line) == Some(e) <==> EntryText(line, e)
  {
    if EntryText(line, e) {
      var d :| Numeral(d, e.uid) && line == d + " " + e.key;
      assert forall i | 0 <= i < |d| :: IsDigit(d[i]);
      SpaceAfter(d, e.key);
      assert line[..|d|] == d && line[|d| + 1..] == e.key;
    }
    if ParseEntry(line) == Some(e) {
      var i := SpaceAt(line);
      assert line == line[..i] + " " + line[i + 1..];
      assert Numeral(line[..i], e.uid);
    }
  }

  /** What follows a word: nothing, or white space. */
  predicate Ends(s: string) {
    s == "" || IsSpace(s[0])
  }

  lemma {:induction false} FieldsSkip(gap: string, s: string)
    requires AllSpace(gap)
    ensures Fields(gap + s) == Fields(s)
  {
    if gap == "" {
      assert gap + s == s;
    } else {
      assert (gap + s)[1..] == gap[1..] + s;
      FieldsSkip(gap[1..], s);
    }
  }

  lemma {:induction false} WordLenStops(s: string)
    ensures Spaceless(s[..WordLen(s)]) && Ends(s[WordLen(s)..])
  {
    if s != "" && !IsSpace(s[0]) {
      WordLenStops(s[1..]);
      assert s[..WordLen(s)] == [s[0]] + s[1..][..WordLen(s[1..])];
      assert s[WordLen(s)..] == s[1..][WordLen(s[1..])..];
    }
  }

  lemma TailSlices(s: string, n: nat, m: nat)
    requires s != "" && n <= m < |s|
    ensures s[n + 1..m + 1] == s[1..][n..m]
    ensures s[m + 1..] == s[1..][m..]
    ensures IsSpace(s[0]) && AllSpace(s[1..][..n]) ==> AllSpace(s[..n + 1])
  {
    var t := s[1..];
    assert forall i | 0 <= i < |t| :: t[i] == s[i + 1];
    assert forall i | 0 < i < n + 1 :: s[i] == t[..n][i - 1];
  }

  /** Where the first word of a text stands, or that there is none. */
  lemma {:induction false} FirstWord(s: string) returns (n: nat, m: nat)
    ensures n <= m <= |s| && AllSpace(s[..n])
    ensures if Fields(s) == [] then m == |s| == n
            else n < m && s[n..m] == Fields(s)[0] && Word(s[n..m]) && Ends(s[m..]) && Fields(s[m..]) == Fields(s)[1..]
    decreases |s|
  {
    if s == "" {
      n, m := 0, 0;
    } else if IsSpace(s[0]) {
      n, m := FirstWord(s[1..]);
      TailSlices(s, n, m);
      n, m := n + 1, m + 1;
    } else {
      WordLenStops(s);
      n, m := 0, WordLen(s);
      assert s[n..m] == s[..m];
    }
  }

  /** Three words with white space between them, and perhaps around them. */
  predicate ThreeWords(line: string, gaps: (string, string, string, string), words: (string, string, string)) {
    && AllSpace(gaps.0) && AllSpace(gaps.1) && AllSpace(gaps.2) && AllSpace(gaps.3) && gaps.1 != "" && gaps.2 != ""
    && Word(words.0) && Word(words.1) && Word(words.2)
    && line == gaps.0 + (words.0 + (gaps.1 + (words.1 + (gaps.2 + (words.2 + gaps.3)))))
  }

  lemma ThreeWordsSplit(line: string, gaps: (string, string, string, string), words: (string, string, string))
    requires ThreeWords(line, gaps, words)
    ensures Fields(line) == [words.0, words.1, words.2]
  {
    var t2 := words.2 + gaps.3;
    var t1 := words.1 + (gaps.2 + t2);
    FieldsSkip(gaps.3, "");
    assert gaps.3 + "" == gaps.3;
    FieldsOf(words.2, gaps.3);
    FieldsSkip(gaps.2, t2);
    FieldsOf(words.1, gaps.2 + t2);
    FieldsSkip(gaps.1, t1);
    FieldsOf(words.0, gaps.1 + t1);
    FieldsSkip(gaps.0, words.0 + (gaps.1 + t1));
  }

  lemma NextWord(s: string) returns (gap: string, word: string, rest: string)
    requires Fields(s) != []
    ensures s == gap + (word + rest) && AllSpace(gap) && Word(word) && Ends(rest)
    ensures Fields(s)[0] == word && Fields(s)[1..] == Fields(rest)
    ensures Ends(s) ==> gap != ""
  {
    var n, m := FirstWord(s);
    gap, word, rest := s[..n], s[n..m], s[m..];
    assert !IsSpace(s[n]) by {
      assert s[n] == word[0];
    }
  }

  lemma NoWord(s: string)
    requires Fields(s) == []
    ensures AllSpace(s)
  {
    var n, m := FirstWord(s);
    assert s[..n] == s;
  }

  lemma SplitThreeWords(line: string) returns (gaps: (string, string, string, string), words: (string, string, string))
    requires |Fields(line)| == 3
    ensures ThreeWords(line, gaps, words) && Fields(line) == [words.0, words.1, words.2]
  {
    var g0, w0, r0 := NextWord(line);
    var g1, w1, r1 := NextWord(r0);
    var g2, w2, r2 := NextWord(r1);
    NoWord(r2);
    gaps, words := (g0, g1, g2, r2), (w0, w1, w2);
  }

  /** The header: a version, V and the validity, N and the next UID. */
  ghost predicate HeaderText(line: string, version: Int64, validity: Uint32, next: Uint32) {
    exists gaps, a, b, c ::
      && ThreeWords(line, gaps, (a, "V" + b, "N" + c))
      && SignedNumeral(a, version) && Numeral(b, validity) && Numeral(c, next)
  }

  function BareHeader(version: Int64, validity: Uint32, next: Uint32): Listing {
    Listing(version, validity, next, [], map[], map[])
  }

  lemma HeaderTextParses(line: string, version: Int64, validity: Uint32, next: Uint32)
    requires HeaderText(line, version, validity, next)
    ensures ParseHeader(line) == Some(BareHeader(version, validity, next))
  {
    var gaps, a, b, c :|
      && ThreeWords(line, gaps, (a, "V" + b, "N" + c))
      && SignedNumeral(a, version) && Numeral(b, validity) && Numeral(c, next);
    ThreeWordsSplit(line, gaps, (a, "V" + b, "N" + c));
    ParseIntIff(a, version);
    ParseUintIff(b, validity);
    ParseUintIff(c, next);
    assert ("V" + b)[1..] == b && ("N" + c)[1..] == c;
  }

  lemma ParsedIsHeaderText(line: string)
    requires ParseHeader(line).Some?
    ensures var h := ParseHeader(line).value;
      HeaderText(line, h.version, h.validity, h.next) && h == BareHeader(h.version, h.validity, h.next)
  {
    var h := ParseHeader(line).value;
    var gaps, words := SplitThreeWords(line);
    var a, b, c := words.0, words.1[1..], words.2[1..];
    assert words.1 == "V" + b && words.2 == "N" + c;
    ParseIntIff(a, h.version);
    ParseUintIff(b, h.validity);
    ParseUintIff(c, h.next);
    assert ThreeWords(line, gaps, (a, "V" + b, "N" + c));
  }

  // -------------------------------------------------------------- whole files

  /** Lines that are empty or hold one entry each, and the entries in order. */
  ghost predicate EntriesText(raws: seq<string>, es: seq<Entry>)
    decreases |raws|
  {
    if raws == [] then es == []
    else if DropCR(raws[0]) == "" then EntriesText(raws[1..], es)
    else es != [] && EntryText(DropCR(raws[0]), es[0]) && EntriesText(raws[1..], es[1..])
  }

  lemma {:induction false} EntriesTextReads(l: Listing, raws: seq<string>, es: seq<Entry>)
    requires EntriesText(raws, es)
    ensures ReadLines(l, raws) == Some(RecordAll(l, es))
    decreases |raws|
  {
    if raws != [] {
      if DropCR(raws[0]) == "" {
        EntriesTextReads(l, raws[1..], es);
      } else {
        ParseEntryIff(DropCR(raws[0]), es[0]);
        EntriesTextReads(Record(l, es[0]), raws[1..], es[1..]);
      }
    }
  }

  lemma {:induction false} ReadIsEntriesText(l: Listing, raws: seq<string>) returns (es: seq<Entry>)
    requires ReadLines(l, raws).Some?
    ensures EntriesText(raws, es)
    decreases |raws|
  {
    if raws == [] {
      es := [];
    } else {
      var line := DropCR(raws[0]);
      var rest := ReadIsEntriesText(ReadLine(l, raws[0]).value, raws[1..]);
      if line == "" {
        es := rest;
      } else {
        var e := ParseEntry(line).value;
        ParseEntryIff(line, e);
        es := [e] + rest;
        assert es[1..] == rest;
      }
    }
  }

  /** The list that a header and entries denote: a later line of a key or a UID wins in the indexes. */
  function Denoted(version: Int64, validity: Uint32, next: Uint32, es: seq<Entry>): Listing {
    Listing(version, validity, next, es, KeyIndex(es), UidIndex(es))
  }

  /** The file is a header line and entry lines, none too long, and these are what they say. */
  ghost predicate FileText(text: string, l: Listing) {
    var raws := RawLines(text);
    && raws != [] && (forall i | 0 <= i < |raws| :: |raws[i]| < MAX_LINE)
    && HeaderText(DropCR(raws[0]), l.version, l.validity, l.next)
    && EntriesText(raws[1..], l.entries)
    && l == Denoted(l.version, l.validity, l.next, l.entries)
  }

  /** A file is read exactly when it has this form, and as the list that it denotes; any other is corrupt. */
  lemma ReadIff(text: string, l: Listing)
    ensures Read(text) == Some(l) <==> FileText(text, l)
  {
    var raws := RawLines(text);
    if FileText(text, l) {
      HeaderTextParses(DropCR(raws[0]), l.version, l.validity, l.next);
      var h := BareHeader(l.version, l.validity, l.next);
      EntriesTextReads(h, raws[1..], l.entries);
      RecordAllIndexes(h, l.entries);
    }
    if Read(text) == Some(l) {
      ParsedIsHeaderText(DropCR(raws[0]));
      var h := ParseHeader(DropCR(raws[0])).value;
      var es := ReadIsEntriesText(h, raws[1..]);
      EntriesTextReads(h, raws[1..], es);
      RecordAllIndexes(h, es);
    }
  }
}
