/**
  The comment-preserving config.toml patcher and the reader that must agree with
  it, both line by line.
 */
module TomlPatch {
  import opened Text

  // ------------------------------------------------------------------- lines

  /** isTOMLSectionHeader on a trimmed line. */
  predicate IsHeaderText(t: string) {
    t != "" && t[0] == '['
  }

  predicate IsHeader(line: string) {
    IsHeaderText(TrimSpace(line))
  }

  function TrimLeftBlanks(s: string): string {
    if s != "" && (s[0] == ' ' || s[0] == '\t') then TrimLeftBlanks(s[1..]) else s
  }

  /** matchesTOMLKey. */
  predicate MatchesKey(line: string, key: string) {
    var t := TrimSpace(line);
    && !(t != "" && t[0] == '#')
    && key != "" && key <= t
    && var rest := TrimLeftBlanks(t[|key|..]); rest != "" && rest[0] == '='
  }

  function EqualsAt(s: string): nat {
    if s == "" || s[0] == '=' then 0 else 1 + EqualsAt(s[1..])
  }

  /** The text after the first '=' of a line. */
  function ValueOf(line: string): string {
    var t := TrimSpace(line);
    var i := EqualsAt(t);
    if i < |t| then TrimSpace(t[i + 1..]) else ""
  }

  function Entry(key: string, raw: string): string {
    key + " = " + raw
  }

  function SectionHeader(section: string): string {
    "[" + section + "]"
  }

  predicate IsBareChar(c: char) {
    'a' <= c <= 'z' || 'A' <= c <= 'Z' || '0' <= c <= '9' || c == '_' || c == '-'
  }

  /** A TOML bare key. */
  predicate BareKey(key: string) {
    key != "" && forall i | 0 <= i < |key| :: IsBareChar(key[i])
  }

  /** A value that fits on its line as it is. */
  predicate LineValue(raw: string) {
    raw != "" && Trimmed(raw) && NoNewline(raw)
  }

  // --------------------------------------------------------- locating a key

  /** The first line that sets key, before any section header. */
  function LocateHere(lines: seq<string>, key: string): Option<nat> {
    if lines == [] || IsHeader(lines[0]) then None
    else if MatchesKey(lines[0], key) then Some(0)
    else Shifted(1, LocateHere(lines[1..], key))
  }

  function Shifted(n: nat, at: Option<nat>): Option<nat> {
    match at
    case Some(i) => Some(n + i)
    case None => None
  }

  /** The line that sets key in the first section with this header. */
  function LocateIn(lines: seq<string>, header: string, key: string): Option<nat> {
    if lines == [] then None
    else if TrimSpace(lines[0]) == header then Shifted(1, LocateHere(lines[1..], key))
    else Shifted(1, LocateIn(lines[1..], header, key))
  }

  function Locate(lines: seq<string>, section: string, key: string): Option<nat> {
    if section == "" then LocateHere(lines, key) else LocateIn(lines, SectionHeader(section), key)
  }

  lemma {:induction false} LocateHereInside(lines: seq<string>, key: string)
    ensures LocateHere(lines, key).Some? ==>
      LocateHere(lines, key).value < |lines| && MatchesKey(lines[LocateHere(lines, key).value], key)
  {
    if lines != [] && !IsHeader(lines[0]) && !MatchesKey(lines[0], key) {
      LocateHereInside(lines[1..], key);
    }
  }

  lemma {:induction false} LocateInInside(lines: seq<string>, header: string, key: string)
    ensures LocateIn(lines, header, key).Some? ==>
      LocateIn(lines, header, key).value < |lines| && MatchesKey(lines[LocateIn(lines, header, key).value], key)
  {
    if lines != [] {
      LocateHereInside(lines[1..], key);
      LocateInInside(lines[1..], header, key);
    }
  }

  lemma LocateInside(lines: seq<string>, section: string, key: string)
    ensures Locate(lines, section, key).Some? ==>
      Locate(lines, section, key).value < |lines| && MatchesKey(lines[Locate(lines, section, key).value], key)
  {
    LocateHereInside(lines, key);
    LocateInInside(lines, SectionHeader(section), key);
  }

  /** readSectionValue: the value of the line located, or "" when there is none. */
  function ReadLines(lines: seq<string>, section: string, key: string): string {
    LocateInside(lines, section, key);
    match Locate(lines, section, key)
    case Some(i) => ValueOf(lines[i])
    case None => ""
  }

  function Read(content: string, section: string, key: string): string {
    ReadLines(Split(content), section, key)
  }

  // --------------------------------------------------------------- patching

  /** The index of the first line with this header, or the number of lines. */
  function SectionAt(lines: seq<string>, header: string): (p: nat)
    ensures p <= |lines|
  {
    if lines == [] || TrimSpace(lines[0]) == header then 0 else 1 + SectionAt(lines[1..], header)
  }

  /** The index of the first section header, or the number of lines. */
  function HeaderAt(lines: seq<string>): (p: nat)
    ensures p <= |lines|
  {
    if lines == [] || IsHeader(lines[0]) then 0 else 1 + HeaderAt(lines[1..])
  }

  /** The index of the first line that sets key, or the number of lines. */
  function KeyAt(lines: seq<string>, key: string): (p: nat)
    ensures p <= |lines|
  {
    if lines == [] || MatchesKey(lines[0], key) then 0 else 1 + KeyAt(lines[1..], key)
  }

  lemma {:induction false} SectionAtFirst(lines: seq<string>, header: string)
    ensures SectionAt(lines, header) < |lines| ==> TrimSpace(lines[SectionAt(lines, header)]) == header
    ensures forall j | 0 <= j < SectionAt(lines, header) :: TrimSpace(lines[j]) != header
  {
    if lines != [] && TrimSpace(lines[0]) != header {
      SectionAtFirst(lines[1..], header);
      assert forall j | 0 < j < |lines| :: lines[j] == lines[1..][j - 1];
    }
  }

  lemma {:induction false} HeaderAtFirst(lines: seq<string>)
    ensures HeaderAt(lines) < |lines| ==> IsHeader(lines[HeaderAt(lines)])
    ensures forall j | 0 <= j < HeaderAt(lines) :: !IsHeader(lines[j])
  {
    if lines != [] && !IsHeader(lines[0]) {
      HeaderAtFirst(lines[1..]);
      assert forall j | 0 < j < |lines| :: lines[j] == lines[1..][j - 1];
    }
  }

  lemma {:induction false} KeyAtFirst(lines: seq<string>, key: string)
    ensures KeyAt(lines, key) < |lines| ==> MatchesKey(lines[KeyAt(lines, key)], key)
    ensures forall j | 0 <= j < KeyAt(lines, key) :: !MatchesKey(lines[j], key)
  {
    if lines != [] && !MatchesKey(lines[0], key) {
      KeyAtFirst(lines[1..], key);
      assert forall j | 0 < j < |lines| :: lines[j] == lines[1..][j - 1];
    }
  }

  /** strings.TrimRight(s, "\n"). */
  function TrimNewlines(s: string): string {
    if s != "" && s[|s| - 1] == '\n' then TrimNewlines(s[..|s| - 1]) else s
  }

  function DropBlankTail(lines: seq<string>): (r: seq<string>)
    ensures r <= lines
  {
    if lines != [] && TrimSpace(lines[|lines| - 1]) == "" then DropBlankTail(lines[..|lines| - 1]) else lines
  }

  /** Set or, with an empty value, remove the line at index i. */
  function SetLine(lines: seq<string>, i: nat, key: string, raw: string): seq<string>
    requires i < |lines|
  {
    if raw == "" then lines[..i] + lines[i + 1..] else lines[i := Entry(key, raw)]
  }

  /** Where a patch puts its line. */
  datatype Place =
    | Replace(at: nat)    // over the line that sets the key now
    | AfterHeader(at: nat) // first in its section
    | NewSection           // in a section appended to the file
    | TopEnd               // at the end of a file without sections
    | BeforeFirst(at: nat) // before the first section header

  /** The end of the table that starts at index lo: the next section header. */
  function TableEnd(lines: seq<string>, lo: nat): (hi: nat)
    requires lo <= |lines|
    ensures lo <= hi <= |lines|
  {
    lo + HeaderAt(lines[lo..])
  }

  /** The first line of the table starting at lo that sets key, or the table's end. */
  function KeyInTable(lines: seq<string>, lo: nat, key: string): (i: nat)
    requires lo <= |lines|
    ensures lo <= i <= TableEnd(lines, lo)
  {
    lo + KeyAt(lines[lo..TableEnd(lines, lo)], key)
  }

  function PlaceOf(lines: seq<string>, section: string, key: string): (p: Place)
    ensures p.Replace? || p.BeforeFirst? ==> p.at < |lines|
    ensures p.AfterHeader? ==> p.at <= |lines|
  {
    if section == "" then
      if KeyInTable(lines, 0, key) < TableEnd(lines, 0) then Replace(KeyInTable(lines, 0, key))
      else if TableEnd(lines, 0) == |lines| then TopEnd
      else BeforeFirst(TableEnd(lines, 0))
    else
      var p := SectionAt(lines, SectionHeader(section));
      if p == |lines| then NewSection
      else if KeyInTable(lines, p + 1, key) < TableEnd(lines, p + 1) then Replace(KeyInTable(lines, p + 1, key))
      else AfterHeader(p + 1)
  }

  /** PatchSectionValue. */
  function Patch(content: string, section: string, key: string, raw: string): string {
    var lines, e := Split(content), Entry(key, raw);
    match PlaceOf(lines, section, key)
    case Replace(i) => Join(SetLine(lines, i, key, raw))
    case AfterHeader(i) => if raw == "" then Join(lines) else Join(lines[..i] + [e] + lines[i..])
    case NewSection =>
      if raw == "" then content
      else TrimNewlines(Join(lines)) + "\n\n" + SectionHeader(section) + "\n" + e + "\n"
    case TopEnd =>
      if raw == "" then Join(lines)
      else
        var kept := TrimNewlines(Join(lines));
        if kept == "" then e + "\n" else kept + "\n" + e + "\n"
    case BeforeFirst(top) =>
      if raw == "" then Join(lines) else Join(DropBlankTail(lines[..top]) + [e, ""] + lines[top..])
  }

  // ------------------------------------------------ facts about single lines

  lemma {:induction false} TrimmedIsFixed(s: string)
    requires Trimmed(s)
    ensures TrimLeftSpace(s) == s && TrimRightSpace(s) == s && TrimSpace(s) == s
  {
  }

  lemma TrimLeadingSpace(s: string)
    requires Trimmed(s)
    ensures TrimSpace([' '] + s) == s
  {
    assert ([' '] + s)[1..] == s;
    TrimmedIsFixed(s);
  }

  lemma {:induction false} EqualsAfter(p: string, s: string)
    requires '=' !in p
    ensures EqualsAt(p + (['='] + s)) == |p|
  {
    if p == "" {
      assert p + (['='] + s) == ['='] + s;
    } else {
      assert (p + (['='] + s))[1..] == p[1..] + (['='] + s);
      EqualsAfter(p[1..], s);
    }
  }

  lemma EntryParts(key: string, raw: string)
    ensures Entry(key, raw) == (key + [' ']) + (['='] + ([' '] + raw))
    ensures Entry(key, raw)[|key|..] == [' '] + (['='] + ([' '] + raw))
    ensures Entry(key, raw)[|key| + 2..] == [' '] + raw
    ensures key <= Entry(key, raw)
  {
  }

  lemma EntryIsTrimmed(key: string, raw: string)
    requires BareKey(key) && LineValue(raw)
    ensures TrimSpace(Entry(key, raw)) == Entry(key, raw) && NoNewline(Entry(key, raw))
  {
    var e := Entry(key, raw);
    assert e[0] == key[0] && IsBareChar(key[0]);
    assert e[|e| - 1] == raw[|raw| - 1];
    TrimmedIsFixed(e);
    assert forall i | 0 <= i < |key| :: IsBareChar(key[i]);
  }

  lemma EntryMatches(key: string, raw: string)
    requires BareKey(key) && LineValue(raw)
    ensures MatchesKey(Entry(key, raw), key) && !IsHeader(Entry(key, raw))
  {
    var e, tail := Entry(key, raw), ['='] + ([' '] + raw);
    EntryIsTrimmed(key, raw);
    EntryParts(key, raw);
    assert IsBareChar(key[0]) && e[0] == key[0];
    assert ([' '] + tail)[1..] == tail;
    assert TrimLeftBlanks([' '] + tail) == TrimLeftBlanks(tail) == tail;
  }

  lemma EntryValue(key: string, raw: string)
    requires BareKey(key) && LineValue(raw)
    ensures ValueOf(Entry(key, raw)) == raw
  {
    EntryIsTrimmed(key, raw);
    EntryParts(key, raw);
    assert forall i | 0 <= i < |key| :: IsBareChar(key[i]);
    EqualsAfter(key + [' '], [' '] + raw);
    TrimLeadingSpace(raw);
  }

  /** The line the patcher writes is read back as the key and the value it was written for. */
  lemma EntryIsClean(key: string, raw: string)
    requires BareKey(key) && LineValue(raw)
    ensures var e := Entry(key, raw);
      NoNewline(e) && TrimSpace(e) == e && !IsHeader(e) && MatchesKey(e, key) && ValueOf(e) == raw
  {
    EntryIsTrimmed(key, raw);
    EntryMatches(key, raw);
    EntryValue(key, raw);
  }

  lemma TrimLeftBlanksKeeps(s: string)
    requires s != "" && s[0] != ' ' && s[0] != '\t'
    ensures TrimLeftBlanks(s) == s
  {
  }

  /** What follows a matched key is a blank or the equals sign. */
  lemma AfterMatchedKey(line: string, key: string)
    requires MatchesKey(line, key)
    ensures var t := TrimSpace(line); |key| < |t| && (t[|key|] == ' ' || t[|key|] == '\t' || t[|key|] == '=')
  {
    var rest := TrimSpace(line)[|key|..];
    if rest != "" && rest[0] != ' ' && rest[0] != '\t' {
      TrimLeftBlanksKeeps(rest);
    }
  }

  function BareLen(t: string): nat {
    if t == "" || !IsBareChar(t[0]) then 0 else 1 + BareLen(t[1..])
  }

  lemma {:induction false} BareLenIs(t: string, key: string)
    requires forall i | 0 <= i < |key| :: IsBareChar(key[i])
    requires key <= t && |key| < |t| && !IsBareChar(t[|key|])
    ensures BareLen(t) == |key|
  {
    if key != "" {
      assert t[0] == key[0] && IsBareChar(key[0]);
      BareLenIs(t[1..], key[1..]);
    }
  }

  /** One line sets at most one bare key. */
  lemma OneKeyPerLine(line: string, a: string, b: string)
    requires BareKey(a) && BareKey(b) && MatchesKey(line, a) && MatchesKey(line, b)
    ensures a == b
  {
    var t := TrimSpace(line);
    AfterMatchedKey(line, a);
    AfterMatchedKey(line, b);
    BareLenIs(t, a);
    BareLenIs(t, b);
    assert a == t[..|a|] && b == t[..|b|];
  }

  lemma KeyLineIsNoHeader(line: string, key: string)
    requires BareKey(key) && MatchesKey(line, key)
    ensures !IsHeader(line)
  {
    assert TrimSpace(line)[0] == key[0] && IsBareChar(key[0]);
  }

  lemma BlankLine(line: string, key: string)
    requires TrimSpace(line) == ""
    ensures !IsHeader(line) && !MatchesKey(line, key)
  {
  }

  lemma HeaderIsHeader(section: string)
    ensures TrimSpace(SectionHeader(section)) == SectionHeader(section) && IsHeader(SectionHeader(section))
  {
    var h := SectionHeader(section);
    assert h[0] == '[' && h[|h| - 1] == ']';
    TrimmedIsFixed(h);
  }

  // ------------------------------------------------------- the edited frame

  /** The lines around the one line a patch sets; they do not depend on the value. */
  datatype Frame = Frame(before: seq<string>, after: seq<string>)

  function FrameOf(content: string, section: string, key: string): Frame {
    var lines, kept := Split(content), TrimNewlines(content);
    match PlaceOf(lines, section, key)
    case Replace(i) => Frame(lines[..i], lines[i + 1..])
    case AfterHeader(i) => Frame(lines[..i], lines[i..])
    case NewSection => Frame(Split(kept) + ["", SectionHeader(section)], [""])
    case TopEnd => Frame(if kept == "" then [] else Split(kept), [""])
    case BeforeFirst(top) => Frame(DropBlankTail(lines[..top]), [""] + lines[top..])
  }

  function Framed(f: Frame, e: string): seq<string> {
    f.before + ([e] + f.after)
  }

  predicate CleanLines(lines: seq<string>) {
    forall i | 0 <= i < |lines| :: NoNewline(lines[i])
  }

  lemma SplitIsClean(content: string)
    ensures CleanLines(Split(content)) && Join(Split(content)) == content
  {
    JoinSplit(content);
  }

  lemma SetLineFrames(lines: seq<string>, i: nat, key: string, raw: string)
    requires i < |lines| && raw != ""
    ensures SetLine(lines, i, key, raw) == Framed(Frame(lines[..i], lines[i + 1..]), Entry(key, raw))
  {
  }

  /** The text of lines with a newline after each block. */
  lemma SplitFrame(before: string, e: string, after: string)
    requires NoNewline(e)
    ensures Split(before + "\n" + (e + "\n" + after)) == Split(before) + ([e] + Split(after))
  {
    SplitAtNewline(before, e + "\n" + after);
    SplitAtNewline(e, after);
  }

  lemma RightNested(kept: string, header: string, e: string)
    ensures kept + "\n\n" + header + "\n" + e + "\n" == kept + "\n" + ("" + "\n" + (header + "\n" + (e + "\n" + "")))
  {
    var tail := header + "\n" + e + "\n";
    assert tail == header + "\n" + (e + "\n" + "");
    assert kept + "\n\n" + header + "\n" + e + "\n" == kept + "\n\n" + tail;
    assert kept + "\n\n" + tail == kept + "\n" + ("" + "\n" + tail);
  }

  lemma SplitNested(kept: string, header: string, e: string)
    requires NoNewline(header) && NoNewline(e)
    ensures Split(kept + "\n" + ("" + "\n" + (header + "\n" + (e + "\n" + ""))))
         == Split(kept) + ([""] + ([header] + ([e] + [""])))
  {
    SplitAtNewline(kept, "" + "\n" + (header + "\n" + (e + "\n" + "")));
    SplitAtNewline("", header + "\n" + (e + "\n" + ""));
    SplitAtNewline(header, e + "\n" + "");
    SplitAtNewline(e, "");
  }

  lemma MissingSectionText(kept: string, header: string, e: string)
    requires NoNewline(header) && NoNewline(e)
    ensures Split(kept + "\n\n" + header + "\n" + e + "\n") == Framed(Frame(Split(kept) + ["", header], [""]), e)
  {
    RightNested(kept, header, e);
    SplitNested(kept, header, e);
    LinesNested(Split(kept), header, e);
  }

  lemma LinesNested(a: seq<string>, header: string, e: string)
    ensures a + ([""] + ([header] + ([e] + [""]))) == (a + ["", header]) + ([e] + [""])
  {
  }

  lemma InsertedFrames(a: seq<string>, e: string, b: seq<string>)
    requires CleanLines(a) && CleanLines(b) && NoNewline(e)
    ensures Split(Join(a + [e] + b)) == Framed(Frame(a, b), e)
  {
    var all := a + [e] + b;
    SplitJoin(all);
    assert all == a + ([e] + b);
  }

  lemma ReplacedFrames(lines: seq<string>, i: nat, key: string, raw: string)
    requires i < |lines| && raw != "" && CleanLines(lines) && NoNewline(Entry(key, raw))
    ensures Split(Join(SetLine(lines, i, key, raw))) == Framed(Frame(lines[..i], lines[i + 1..]), Entry(key, raw))
  {
    SplitJoin(SetLine(lines, i, key, raw));
    SetLineFrames(lines, i, key, raw);
  }

  lemma TopAppendText(kept: string, e: string)
    requires NoNewline(e)
    ensures Split(if kept == "" then e + "\n" else kept + "\n" + e + "\n")
         == Framed(Frame(if kept == "" then [] else Split(kept), [""]), e)
  {
    if kept == "" {
      SplitAtNewline(e, "");
      assert e + "\n" + "" == e + "\n";
    } else {
      SplitFrame(kept, e, "");
      assert kept + "\n" + (e + "\n" + "") == kept + "\n" + e + "\n";
    }
  }

  lemma TopInsertFrames(front: seq<string>, e: string, rest: seq<string>)
    requires CleanLines(front) && CleanLines(rest) && NoNewline(e)
    ensures Split(Join(front + [e, ""] + rest)) == Framed(Frame(front, [""] + rest), e)
  {
    InsertedFrames(front, e, [""] + rest);
    assert front + [e, ""] + rest == front + [e] + ([""] + rest);
  }

  lemma NewSectionFrames(content: string, section: string, key: string, raw: string)
    requires BareKey(key) && LineValue(raw) && NoNewline(section) && PlaceOf(Split(content), section, key) == NewSection
    ensures Split(Patch(content, section, key, raw)) == Framed(FrameOf(content, section, key), Entry(key, raw))
  {
    EntryIsClean(key, raw);
    SplitIsClean(content);
    assert NoNewline(SectionHeader(section));
    MissingSectionText(TrimNewlines(content), SectionHeader(section), Entry(key, raw));
  }

  lemma TopEndFrames(content: string, section: string, key: string, raw: string)
    requires BareKey(key) && LineValue(raw) && PlaceOf(Split(content), section, key) == TopEnd
    ensures Split(Patch(content, section, key, raw)) == Framed(FrameOf(content, section, key), Entry(key, raw))
  {
    EntryIsClean(key, raw);
    SplitIsClean(content);
    TopAppendText(TrimNewlines(content), Entry(key, raw));
  }

  lemma EditFrames(content: string, section: string, key: string, raw: string)
    requires BareKey(key) && LineValue(raw)
    requires var place := PlaceOf(Split(content), section, key); !place.NewSection? && !place.TopEnd?
    ensures Split(Patch(content, section, key, raw)) == Framed(FrameOf(content, section, key), Entry(key, raw))
  {
    var lines, e := Split(content), Entry(key, raw);
    EntryIsClean(key, raw);
    SplitIsClean(content);
    var place := PlaceOf(lines, section, key);
    if place.Replace? {
      ReplacedFrames(lines, place.at, key, raw);
    } else if place.AfterHeader? {
      InsertedFrames(lines[..place.at], e, lines[place.at..]);
    } else {
      TopInsertFrames(DropBlankTail(lines[..place.at]), e, lines[place.at..]);
    }
  }

  /** Patching writes exactly one line, in place of or between lines that it keeps. */
  lemma PatchFrames(content: string, section: string, key: string, raw: string)
    requires BareKey(key) && LineValue(raw) && NoNewline(section)
    ensures Split(Patch(content, section, key, raw)) == Framed(FrameOf(content, section, key), Entry(key, raw))
  {
    var place := PlaceOf(Split(content), section, key);
    if place.NewSection? {
      NewSectionFrames(content, section, key, raw);
    } else if place.TopEnd? {
      TopEndFrames(content, section, key, raw);
    } else {
      EditFrames(content, section, key, raw);
    }
  }

  // ----------------------------------------- the edited line is the one read

  /** Lines that a search for key in the table at hand passes over. */
  predicate Passed(lines: seq<string>, lo: nat, hi: nat, key: string) {
    forall j | lo <= j < hi && j < |lines| :: !IsHeader(lines[j]) && !MatchesKey(lines[j], key)
  }

  lemma {:induction false} LocateHereSkips(lines: seq<string>, q: nat, key: string)
    requires q <= |lines| && Passed(lines, 0, q, key)
    ensures LocateHere(lines, key) == Shifted(q, LocateHere(lines[q..], key))
  {
    if q == 0 {
      assert lines[0..] == lines;
    } else {
      assert forall j | 0 <= j < |lines[1..]| :: lines[1..][j] == lines[j + 1];
      LocateHereSkips(lines[1..], q - 1, key);
      assert lines[1..][q - 1..] == lines[q..];
    }
  }

  lemma {:induction false} LocateInSkips(lines: seq<string>, header: string, p: nat, q: nat, key: string)
    requires p < q <= |lines| && TrimSpace(lines[p]) == header
    requires forall j | 0 <= j < p :: TrimSpace(lines[j]) != header
    requires Passed(lines, p + 1, q, key)
    ensures LocateIn(lines, header, key) == Shifted(q, LocateHere(lines[q..], key))
  {
    var rest := lines[1..];
    assert forall j | 0 <= j < |rest| :: rest[j] == lines[j + 1];
    TailTail(lines, q);
    if p == 0 {
      LocateHereSkips(rest, q - 1, key);
    } else {
      LocateInSkips(rest, header, p - 1, q - 1, key);
    }
  }

  lemma TailTail(lines: seq<string>, q: nat)
    requires 0 < q <= |lines|
    ensures lines[1..][q - 1..] == lines[q..]
  {
  }

  lemma {:induction false} LocateInAbsent(lines: seq<string>, header: string, key: string)
    requires forall j | 0 <= j < |lines| :: TrimSpace(lines[j]) != header
    ensures LocateIn(lines, header, key) == None
  {
    if lines != [] {
      assert forall j | 0 <= j < |lines[1..]| :: lines[1..][j] == lines[j + 1];
      LocateInAbsent(lines[1..], header, key);
    }
  }

  lemma LocateAtKey(lines: seq<string>, q: nat, key: string)
    requires q < |lines| && BareKey(key) && MatchesKey(lines[q], key)
    ensures LocateHere(lines[q..], key) == Some(0)
  {
    KeyLineIsNoHeader(lines[q], key);
  }

  predicate AllEmpty(lines: seq<string>) {
    forall i | 0 <= i < |lines| :: lines[i] == ""
  }

  /** Trimming final newlines only drops empty last lines. */
  lemma {:induction false} TrimNewlinesPrefix(content: string)
    ensures var kept, lines := Split(TrimNewlines(content)), Split(content);
      |kept| <= |lines| && lines[..|kept|] == kept && AllEmpty(lines[|kept|..])
  {
    if content != "" && content[|content| - 1] == '\n' {
      var front := content[..|content| - 1];
      TrimNewlinesPrefix(front);
      assert content == front + "\n" + "";
      SplitAtNewline(front, "");
      MoreEmpty(Split(TrimNewlines(front)), Split(front));
    }
  }

  lemma MoreEmpty(kept: seq<string>, lines: seq<string>)
    requires |kept| <= |lines| && lines[..|kept|] == kept && AllEmpty(lines[|kept|..])
    ensures (lines + [""])[..|kept|] == kept && AllEmpty((lines + [""])[|kept|..])
  {
    assert (lines + [""])[..|kept|] == lines[..|kept|];
    assert (lines + [""])[|kept|..] == lines[|kept|..] + [""];
  }

  /** Dropping blank last lines only drops blank lines. */
  lemma {:induction false} DropBlankTailDrops(lines: seq<string>)
    ensures var kept := DropBlankTail(lines);
      |kept| <= |lines| && forall i | |kept| <= i < |lines| :: TrimSpace(lines[i]) == ""
  {
    if lines != [] && TrimSpace(lines[|lines| - 1]) == "" {
      DropBlankTailDrops(lines[..|lines| - 1]);
    }
  }

  predicate TopPlace(lines: seq<string>, key: string, place: Place) {
    || (place.Replace? && place.at < |lines| && Passed(lines, 0, place.at, key) && MatchesKey(lines[place.at], key))
    || (place.TopEnd? && Passed(lines, 0, |lines|, key))
    || (place.BeforeFirst? && place.at < |lines| && Passed(lines, 0, place.at, key) && IsHeader(lines[place.at]))
  }

  predicate SectionPlace(lines: seq<string>, header: string, key: string, place: Place) {
    var p := SectionAt(lines, header);
    || (place.Replace? && p < place.at < |lines| && Passed(lines, p + 1, place.at, key) && MatchesKey(lines[place.at], key))
    || (place.AfterHeader? && p < |lines| && place.at == p + 1 && Passed(lines, p + 1, TableEnd(lines, p + 1), key))
    || (place.NewSection? && p == |lines|)
  }

  /** What lies before, at and after the places searched for in a table. */
  lemma TableSearched(lines: seq<string>, lo: nat, key: string)
    requires lo <= |lines|
    ensures Passed(lines, lo, KeyInTable(lines, lo, key), key)
    ensures KeyInTable(lines, lo, key) < TableEnd(lines, lo) ==> MatchesKey(lines[KeyInTable(lines, lo, key)], key)
    ensures TableEnd(lines, lo) < |lines| ==> IsHeader(lines[TableEnd(lines, lo)])
  {
    var tail, table := lines[lo..], lines[lo..TableEnd(lines, lo)];
    HeaderAtFirst(tail);
    KeyAtFirst(table, key);
    forall j | lo <= j < KeyInTable(lines, lo, key) ensures !IsHeader(lines[j]) && !MatchesKey(lines[j], key) {
      assert lines[j] == tail[j - lo] && lines[j] == table[j - lo];
    }
  }

  /** The lines around the place PlaceOf chose. */
  lemma TopPlaceIsRight(lines: seq<string>, key: string)
    ensures TopPlace(lines, key, PlaceOf(lines, "", key))
  {
    TableSearched(lines, 0, key);
  }

  lemma SectionPlaceIsRight(lines: seq<string>, section: string, key: string)
    requires section != ""
    ensures SectionPlace(lines, SectionHeader(section), key, PlaceOf(lines, section, key))
  {
    var p := SectionAt(lines, SectionHeader(section));
    if p < |lines| {
      TableSearched(lines, p + 1, key);
    }
  }

  lemma FramedLines(f: Frame, e: string)
    ensures var ls, n := Framed(f, e), |f.before|;
      && |ls| == n + 1 + |f.after| && ls[n] == e
      && (forall j | 0 <= j < n :: ls[j] == f.before[j])
      && (forall j | n < j < |ls| :: ls[j] == f.after[j - n - 1])
  {
  }

  lemma TopBeforePassed(content: string, key: string)
    ensures var before := FrameOf(content, "", key).before; Passed(before, 0, |before|, key)
  {
    var lines := Split(content);
    TopPlaceIsRight(lines, key);
    TrimNewlinesPrefix(content);
    var kept := Split(TrimNewlines(content));
    assert forall j | 0 <= j < |kept| :: kept[j] == lines[..|kept|][j];
    match PlaceOf(lines, "", key) {
      case BeforeFirst(top) =>
        DropBlankTailDrops(lines[..top]);
      case _ =>
    }
  }

  /** The frame of a section patch has the section's first header at p, and nothing found between it and the edit. */
  lemma SectionBeforePassed(content: string, section: string, key: string) returns (p: nat)
    requires section != ""
    ensures var before := FrameOf(content, section, key).before;
      && p < |before| && TrimSpace(before[p]) == SectionHeader(section)
      && (forall j | 0 <= j < p :: TrimSpace(before[j]) != SectionHeader(section))
      && Passed(before, p + 1, |before|, key)
  {
    var lines, header := Split(content), SectionHeader(section);
    SectionAtFirst(lines, header);
    SectionPlaceIsRight(lines, section, key);
    p := SectionAt(lines, header);
    if p == |lines| {
      TrimNewlinesPrefix(content);
      HeaderIsHeader(section);
      var kept := Split(TrimNewlines(content));
      p := |kept| + 1;
      forall j | 0 <= j < |kept| ensures TrimSpace(kept[j]) != header {
        assert kept[j] == lines[..|kept|][j];
      }
    }
  }

  lemma TopFrameLocates(f: Frame, e: string, key: string)
    requires BareKey(key) && MatchesKey(e, key) && Passed(f.before, 0, |f.before|, key)
    ensures LocateHere(Framed(f, e), key) == Some(|f.before|)
  {
    FramedLines(f, e);
    LocateAtKey(Framed(f, e), |f.before|, key);
    LocateHereSkips(Framed(f, e), |f.before|, key);
  }

  lemma SectionFrameLocates(f: Frame, e: string, header: string, p: nat, key: string)
    requires BareKey(key) && MatchesKey(e, key) && p < |f.before| && TrimSpace(f.before[p]) == header
    requires forall j | 0 <= j < p :: TrimSpace(f.before[j]) != header
    requires Passed(f.before, p + 1, |f.before|, key)
    ensures LocateIn(Framed(f, e), header, key) == Some(|f.before|)
  {
    FramedLines(f, e);
    LocateAtKey(Framed(f, e), |f.before|, key);
    LocateInSkips(Framed(f, e), header, p, |f.before|, key);
  }

  /** After a patch of key, the reader finds the line the patch wrote. */
  lemma FrameLocates(content: string, section: string, key: string, e: string)
    requires BareKey(key) && MatchesKey(e, key)
    ensures var f := FrameOf(content, section, key);
      Locate(Framed(f, e), section, key) == Some(|f.before|)
  {
    var f := FrameOf(content, section, key);
    if section == "" {
      TopBeforePassed(content, key);
      TopFrameLocates(f, e, key);
    } else {
      var p := SectionBeforePassed(content, section, key);
      SectionFrameLocates(f, e, SectionHeader(section), p, key);
    }
  }

  // ------------------------------------------------------------ the theorems

  /** Reading a key just patched returns the value it was given. */
  lemma ReadAfterPatch(content: string, section: string, key: string, raw: string)
    requires BareKey(key) && LineValue(raw) && NoNewline(section)
    ensures Read(Patch(content, section, key, raw), section, key) == raw
  {
    var e := Entry(key, raw);
    EntryIsClean(key, raw);
    PatchFrames(content, section, key, raw);
    FrameLocates(content, section, key, e);
    FramedLines(FrameOf(content, section, key), e);
  }

  lemma {:induction false} TrimLeftEnds(s: string)
    ensures TrimLeftSpace(s) == "" || !IsSpace(TrimLeftSpace(s)[0])
    ensures NoNewline(s) ==> NoNewline(TrimLeftSpace(s))
  {
    if s != "" && IsSpace(s[0]) {
      TrimLeftEnds(s[1..]);
    }
  }

  lemma {:induction false} TrimRightEnds(s: string)
    ensures var r := TrimRightSpace(s);
      && (r == "" || (!IsSpace(r[|r| - 1]) && r[0] == s[0]))
      && (NoNewline(s) ==> NoNewline(r))
  {
    if s != "" && IsSpace(s[|s| - 1]) {
      TrimRightEnds(s[..|s| - 1]);
    }
  }

  lemma TrimSpaceTrims(s: string)
    ensures Trimmed(TrimSpace(s)) && (NoNewline(s) ==> NoNewline(TrimSpace(s)))
  {
    TrimLeftEnds(s);
    TrimRightEnds(TrimLeftSpace(s));
  }

  /** Whatever the reader returns could be written back on one line. */
  lemma ReadIsLineValue(content: string, section: string, key: string)
    ensures Trimmed(Read(content, section, key)) && NoNewline(Read(content, section, key))
  {
    var lines := Split(content);
    LocateInside(lines, section, key);
    match Locate(lines, section, key) {
      case None =>
      case Some(i) =>
        TrimSpaceTrims(lines[i]);
        var t := TrimSpace(lines[i]);
        if EqualsAt(t) < |t| {
          TrimSpaceTrims(t[EqualsAt(t) + 1..]);
        }
    }
  }

  /** A value reads back as it was set if, and only if, it is trimmed and holds no newline. */
  lemma ReadAfterPatchIff(content: string, section: string, key: string, raw: string)
    requires BareKey(key) && NoNewline(section) && raw != ""
    ensures Read(Patch(content, section, key, raw), section, key) == raw <==> LineValue(raw)
  {
    if LineValue(raw) {
      ReadAfterPatch(content, section, key, raw);
    }
    ReadIsLineValue(Patch(content, section, key, raw), section, key);
  }

  // -------------------------------------------------------- quoted values

  /** strings.ReplaceAll of one character. */
  function ReplaceChar(s: string, c: char, with: string): string {
    if s == "" then "" else (if s[0] == c then with else [s[0]]) + ReplaceChar(s[1..], c, with)
  }

  function QuoteString(s: string): string {
    "\"" + ReplaceChar(ReplaceChar(s, '\\', "\\\\"), '\"', "\\\"") + "\""
  }

  /** The text of a TOML basic string whose only escapes are those of the quote and the backslash. */
  function Unescape(s: string): Option<string> {
    if s == "" then Some("")
    else if s[0] == '\\' then
      if |s| > 1 && (s[1] == '\\' || s[1] == '\"') then Prepend(s[1], Unescape(s[2..])) else None
    else if s[0] == '\"' then None
    else Prepend(s[0], Unescape(s[1..]))
  }

  function Prepend(c: char, rest: Option<string>): Option<string> {
    match rest
    case Some(t) => Some([c] + t)
    case None => None
  }

  function EscapeChar(c: char): string {
    if c == '\\' then "\\\\" else if c == '\"' then "\\\"" else [c]
  }

  function Escape(s: string): string {
    if s == "" then "" else EscapeChar(s[0]) + Escape(s[1..])
  }

  lemma {:induction false} ReplaceCharConcat(a: string, b: string, c: char, with: string)
    ensures ReplaceChar(a + b, c, with) == ReplaceChar(a, c, with) + ReplaceChar(b, c, with)
  {
    if a == "" {
      assert a + b == b;
    } else {
      assert (a + b)[1..] == a[1..] + b;
      ReplaceCharConcat(a[1..], b, c, with);
    }
  }

  /** The two replacements, in this order, escape each character on its own. */
  lemma {:induction false} ReplacementsEscape(s: string)
    ensures ReplaceChar(ReplaceChar(s, '\\', "\\\\"), '\"', "\\\"") == Escape(s)
  {
    if s != "" {
      ReplacementsEscape(s[1..]);
      var first := if s[0] == '\\' then "\\\\" else [s[0]];
      ReplaceCharConcat(first, ReplaceChar(s[1..], '\\', "\\\\"), '\"', "\\\"");
      assert ReplaceChar(first, '\"', "\\\"") == EscapeChar(s[0]) by {
        assert s[0] != '\\' ==> first[1..] == "";
        assert s[0] == '\\' ==> first[1..] == "\\" && first[1..][1..] == "";
      }
    }
  }

  lemma {:induction false} UnescapeEscape(s: string)
    ensures Unescape(Escape(s)) == Some(s)
  {
    if s != "" {
      UnescapeEscape(s[1..]);
      var e, rest := EscapeChar(s[0]), Escape(s[1..]);
      assert s == [s[0]] + s[1..];
      if |e| == 1 {
        assert (e + rest)[1..] == rest;
      } else {
        assert (e + rest)[2..] == rest && (e + rest)[1] == s[0];
      }
    }
  }

  lemma {:induction false} EscapeKeepsLines(s: string)
    ensures NoNewline(Escape(s)) <==> NoNewline(s)
  {
    if s != "" {
      EscapeKeepsLines(s[1..]);
      assert s == [s[0]] + s[1..];
    }
  }

  /**
    A quoted value can be decoded to the string it was made from, and a patch with
    it reads back exactly when that string holds no newline: newlines are not escaped.
   */
  lemma QuotedValueIff(content: string, section: string, key: string, s: string)
    requires BareKey(key) && NoNewline(section)
    ensures var q := QuoteString(s); Unescape(q[1..|q| - 1]) == Some(s)
    ensures Read(Patch(content, section, key, QuoteString(s)), section, key) == QuoteString(s) <==> NoNewline(s)
  {
    var q := QuoteString(s);
    ReplacementsEscape(s);
    assert q == "\"" + Escape(s) + "\"";
    assert q[1..|q| - 1] == Escape(s);
    UnescapeEscape(s);
    EscapeKeepsLines(s);
    assert NoNewline(q) <==> NoNewline(Escape(s));
    ReadAfterPatchIff(content, section, key, q);
  }

  lemma LocateNothing(lines: seq<string>, lo: nat, key: string)
    requires lo <= |lines| && Passed(lines, lo, TableEnd(lines, lo), key)
    ensures LocateHere(lines[lo..], key) == None
  {
    var tail := lines[lo..];
    var n := HeaderAt(tail);
    HeaderAtFirst(tail);
    assert forall j | 0 <= j < n :: tail[j] == lines[lo + j];
    LocateHereSkips(tail, n, key);
  }

  /** The patcher replaces the line the reader reads, and adds one exactly when the reader finds none. */
  predicate PlaceAgrees(at: Option<nat>, place: Place) {
    if place.Replace? then at == Some(place.at) else at == None
  }

  lemma TopPlaceAgrees(lines: seq<string>, key: string)
    requires BareKey(key)
    ensures PlaceAgrees(LocateHere(lines, key), PlaceOf(lines, "", key))
  {
    var place := PlaceOf(lines, "", key);
    TopPlaceIsRight(lines, key);
    if place.Replace? {
      LocateHereSkips(lines, place.at, key);
      LocateAtKey(lines, place.at, key);
    } else {
      TableSearched(lines, 0, key);
      LocateNothing(lines, 0, key);
      assert lines[0..] == lines;
    }
  }

  lemma KeyLineLocated(lines: seq<string>, header: string, p: nat, i: nat, key: string)
    requires BareKey(key) && p < i < |lines| && TrimSpace(lines[p]) == header
    requires forall j | 0 <= j < p :: TrimSpace(lines[j]) != header
    requires Passed(lines, p + 1, i, key) && MatchesKey(lines[i], key)
    ensures LocateIn(lines, header, key) == Some(i)
  {
    LocateInSkips(lines, header, p, i, key);
    LocateAtKey(lines, i, key);
  }

  lemma NoKeyLocated(lines: seq<string>, header: string, p: nat, key: string)
    requires p < |lines| && TrimSpace(lines[p]) == header
    requires forall j | 0 <= j < p :: TrimSpace(lines[j]) != header
    requires Passed(lines, p + 1, TableEnd(lines, p + 1), key)
    ensures LocateIn(lines, header, key) == None
  {
    LocateInSkips(lines, header, p, p + 1, key);
    LocateNothing(lines, p + 1, key);
  }

  lemma SectionPlaceAgrees(lines: seq<string>, section: string, key: string)
    requires BareKey(key) && section != ""
    ensures PlaceAgrees(LocateIn(lines, SectionHeader(section), key), PlaceOf(lines, section, key))
  {
    var place, header := PlaceOf(lines, section, key), SectionHeader(section);
    SectionAtFirst(lines, header);
    SectionPlaceIsRight(lines, section, key);
    if place.Replace? {
      KeyLineLocated(lines, header, SectionAt(lines, header), place.at, key);
    } else if place.NewSection? {
      LocateInAbsent(lines, header, key);
    } else {
      NoKeyLocated(lines, header, SectionAt(lines, header), key);
    }
  }

  lemma PlaceAgreesWithReader(lines: seq<string>, section: string, key: string)
    requires BareKey(key)
    ensures PlaceAgrees(Locate(lines, section, key), PlaceOf(lines, section, key))
  {
    if section == "" {
      TopPlaceAgrees(lines, key);
    } else {
      SectionPlaceAgrees(lines, section, key);
    }
  }

  lemma FramedReplace(f: Frame, e: string, key: string, raw: string)
    requires raw != ""
    ensures |f.before| < |Framed(f, e)|
    ensures SetLine(Framed(f, e), |f.before|, key, raw) == Framed(f, Entry(key, raw))
  {
  }

  /** Patching twice is patching once with the last value. */
  lemma LastPatchWins(content: string, section: string, key: string, first: string, last: string)
    requires BareKey(key) && LineValue(first) && LineValue(last) && NoNewline(section)
    ensures Patch(Patch(content, section, key, first), section, key, last) == Patch(content, section, key, last)
  {
    var f, e := FrameOf(content, section, key), Entry(key, first);
    EntryIsClean(key, first);
    PatchFrames(content, section, key, first);
    PatchFrames(content, section, key, last);
    FrameLocates(content, section, key, e);
    PlaceAgreesWithReader(Framed(f, e), section, key);
    FramedReplace(f, e, key, last);
    JoinSplit(Patch(content, section, key, last));
  }

  /** Removing a key leaves it unset exactly when its table set it only once. */
  lemma RemoveUnsetsIff(content: string, section: string, key: string)
    requires BareKey(key)
    ensures var lines := Split(content);
      var at := Locate(lines, section, key);
      Locate(Split(Patch(content, section, key, "")), section, key) == None
      <==> at.None? || (at.value < |lines| && LocateHere(lines[at.value + 1..], key) == None)
  {
    var lines := Split(content);
    var at := Locate(lines, section, key);
    LocateInside(lines, section, key);
    PlaceAgreesWithReader(lines, section, key);
    SplitIsClean(content);
    if at.Some? {
      RemovedLocates(lines, section, key, at.value);
      var left := SetLine(lines, at.value, key, "");
      if left == [] {
        OneBlank(section, key);
      } else {
        SplitJoin(left);
      }
    }
  }

  lemma OneBlank(section: string, key: string)
    ensures Split("") == [""] && Locate([""], section, key) == None
  {
    var ls := [""];
    BlankLine(ls[0], key);
    LocateHereSkips(ls, 1, key);
    LocateInAbsent(ls, SectionHeader(section), key);
  }

  lemma RemovedSkips(lines: seq<string>, i: nat, key: string, lo: nat)
    requires lo <= i < |lines| && Passed(lines, lo, i, key)
    ensures var left := SetLine(lines, i, key, "");
      left[i..] == lines[i + 1..] && Passed(left, lo, i, key) && forall j | 0 <= j < i :: left[j] == lines[j]
  {
  }

  lemma RemovedLocates(lines: seq<string>, section: string, key: string, i: nat)
    requires BareKey(key) && PlaceOf(lines, section, key) == Replace(i)
    ensures Locate(SetLine(lines, i, key, ""), section, key) == Shifted(i, LocateHere(lines[i + 1..], key))
  {
    var left := SetLine(lines, i, key, "");
    if section == "" {
      TopPlaceIsRight(lines, key);
      RemovedSkips(lines, i, key, 0);
      LocateHereSkips(left, i, key);
    } else {
      var header := SectionHeader(section);
      var p := SectionAt(lines, header);
      SectionAtFirst(lines, header);
      SectionPlaceIsRight(lines, section, key);
      RemovedSkips(lines, i, key, p + 1);
      LocateInSkips(left, header, p, i, key);
    }
  }

  // ------------------------------------------------- every other key is kept

  /** The value found before any header; the reader on the lines of one table. */
  function ScanHere(lines: seq<string>, key: string): string {
    if lines == [] || IsHeader(lines[0]) then ""
    else if MatchesKey(lines[0], key) then ValueOf(lines[0])
    else ScanHere(lines[1..], key)
  }

  function ScanIn(lines: seq<string>, header: string, key: string): string {
    if lines == [] then ""
    else if TrimSpace(lines[0]) == header then ScanHere(lines[1..], key)
    else ScanIn(lines[1..], header, key)
  }

  lemma {:induction false} ScanHereReads(lines: seq<string>, key: string)
    ensures LocateHere(lines, key).None? ==> ScanHere(lines, key) == ""
    ensures LocateHere(lines, key).Some? ==>
      LocateHere(lines, key).value < |lines| && ScanHere(lines, key) == ValueOf(lines[LocateHere(lines, key).value])
  {
    if lines != [] && !IsHeader(lines[0]) && !MatchesKey(lines[0], key) {
      ScanHereReads(lines[1..], key);
    }
  }

  lemma {:induction false} ScanInReads(lines: seq<string>, header: string, key: string)
    ensures LocateIn(lines, header, key).None? ==> ScanIn(lines, header, key) == ""
    ensures LocateIn(lines, header, key).Some? ==>
      && LocateIn(lines, header, key).value < |lines|
      && ScanIn(lines, header, key) == ValueOf(lines[LocateIn(lines, header, key).value])
  {
    if lines != [] {
      if TrimSpace(lines[0]) == header {
        ScanHereReads(lines[1..], key);
      } else {
        ScanInReads(lines[1..], header, key);
      }
    }
  }

  lemma ReadIsScan(lines: seq<string>, section: string, key: string)
    ensures ReadLines(lines, section, key)
         == if section == "" then ScanHere(lines, key) else ScanIn(lines, SectionHeader(section), key)
  {
    ScanHereReads(lines, key);
    ScanInReads(lines, SectionHeader(section), key);
  }

  /** The reader cannot tell two tails apart that scan alike from their start. */
  predicate ScanAlike(a: seq<string>, b: seq<string>, header: string, key: string) {
    ScanHere(a, key) == ScanHere(b, key) && ScanIn(a, header, key) == ScanIn(b, header, key)
  }

  lemma {:induction false} SwapTail(pre: seq<string>, a: seq<string>, b: seq<string>, header: string, key: string)
    requires ScanAlike(a, b, header, key)
    ensures ScanAlike(pre + a, pre + b, header, key)
  {
    if pre == [] {
      assert pre + a == a && pre + b == b;
    } else {
      assert (pre + a)[1..] == pre[1..] + a && (pre + b)[1..] == pre[1..] + b;
      SwapTail(pre[1..], a, b, header, key);
    }
  }

  /** Behind another section's header, only a search for a further header looks at the tail. */
  lemma {:induction false} SwapTailBehindHeader(pre: seq<string>, a: seq<string>, b: seq<string>, header: string, key: string)
    requires pre != [] && IsHeader(pre[|pre| - 1]) && TrimSpace(pre[|pre| - 1]) != header
    requires ScanIn(a, header, key) == ScanIn(b, header, key)
    ensures ScanAlike(pre + a, pre + b, header, key)
  {
    assert (pre + a)[1..] == pre[1..] + a && (pre + b)[1..] == pre[1..] + b;
    if |pre| == 1 {
      assert pre[1..] + a == a && pre[1..] + b == b;
    } else {
      SwapTailBehindHeader(pre[1..], a, b, header, key);
    }
  }

  predicate NoHeaders(lines: seq<string>) {
    forall i | 0 <= i < |lines| :: !IsHeader(lines[i])
  }

  lemma {:induction false} SkipToTail(a: seq<string>, b: seq<string>, header: string, key: string)
    requires NoHeaders(a) && IsHeaderText(header)
    ensures ScanIn(a + b, header, key) == ScanIn(b, header, key)
    ensures Passed(a, 0, |a|, key) ==> ScanHere(a + b, key) == ScanHere(b, key)
  {
    if a == [] {
      assert a + b == b;
    } else {
      assert (a + b)[1..] == a[1..] + b;
      assert forall j | 0 <= j < |a[1..]| :: a[1..][j] == a[j + 1];
      assert !IsHeader(a[0]);
      SkipToTail(a[1..], b, header, key);
    }
  }

  lemma OtherKeyUnmatched(line: string, key: string, other: string)
    requires BareKey(key) && BareKey(other) && key != other && MatchesKey(line, key)
    ensures !MatchesKey(line, other)
  {
    if MatchesKey(line, other) {
      OneKeyPerLine(line, key, other);
    }
  }

  lemma HeadersDiffer(a: string, b: string)
    requires a != b
    ensures SectionHeader(a) != SectionHeader(b)
  {
    var x, y := SectionHeader(a), SectionHeader(b);
    assert x[1..|x| - 1] == a && y[1..|y| - 1] == b;
  }

  /** For another key, one line that sets key is like another, and like none. */
  lemma KeyLineInvisible(line: string, rest: seq<string>, header: string, key: string, other: string)
    requires BareKey(key) && BareKey(other) && key != other && MatchesKey(line, key) && IsHeaderText(header)
    ensures ScanAlike([line] + rest, rest, header, other)
  {
    KeyLineIsNoHeader(line, key);
    OtherKeyUnmatched(line, key, other);
    SkipToTail([line], rest, header, other);
  }

  /** Lines that hold nothing to read. */
  lemma {:induction false} BlanksInvisible(blanks: seq<string>, rest: seq<string>, header: string, key: string)
    requires IsHeaderText(header) && forall i | 0 <= i < |blanks| :: TrimSpace(blanks[i]) == ""
    ensures ScanAlike(blanks + rest, rest, header, key)
  {
    forall i | 0 <= i < |blanks| ensures !IsHeader(blanks[i]) && !MatchesKey(blanks[i], key) {
      BlankLine(blanks[i], key);
    }
    SkipToTail(blanks, rest, header, key);
  }

  lemma ScanNothing(blanks: seq<string>, header: string, key: string)
    requires IsHeaderText(header) && AllEmpty(blanks)
    ensures ScanHere(blanks, key) == "" && ScanIn(blanks, header, key) == ""
  {
    assert blanks + [] == blanks;
    BlanksInvisible(blanks, [], header, key);
  }

  /** A new section holds nothing for any other section, nor for another key of its own. */
  lemma NewSectionInvisible(section: string, e: string, key: string, other: string, otherKey: string)
    requires BareKey(key) && BareKey(otherKey) && MatchesKey(e, key) && (section, key) != (other, otherKey)
    ensures var tail := ["", SectionHeader(section)] + ([e] + [""]);
      ScanHere(tail, otherKey) == "" && ScanIn(tail, SectionHeader(other), otherKey) == ""
  {
    var h, h2 := SectionHeader(section), SectionHeader(other);
    var inner := [e] + [""];
    HeaderIsHeader(section);
    KeyLineIsNoHeader(e, key);
    ScanNothing([""], h2, otherKey);
    SkipToTail([e], [""], h2, otherKey);
    assert ScanIn(inner, h2, otherKey) == "";
    if key != otherKey {
      KeyLineInvisible(e, [""], h2, key, otherKey);
      assert ScanHere(inner, otherKey) == "";
    } else {
      HeadersDiffer(section, other);
    }
    assert ([h] + inner)[1..] == inner;
    BlanksInvisible([""], [h] + inner, h2, otherKey);
    assert [""] + ([h] + inner) == ["", h] + inner;
  }

  lemma KeptAndEmpties(content: string) returns (kept: seq<string>, blanks: seq<string>)
    ensures kept == Split(TrimNewlines(content)) && AllEmpty(blanks) && Split(content) == kept + blanks
  {
    TrimNewlinesPrefix(content);
    kept := Split(TrimNewlines(content));
    blanks := Split(content)[|kept|..];
    assert Split(content) == Split(content)[..|kept|] + Split(content)[|kept|..];
  }

  lemma NewSectionKeepsOthers(content: string, section: string, e: string, key: string, other: string, otherKey: string)
    requires BareKey(key) && BareKey(otherKey) && MatchesKey(e, key) && (section, key) != (other, otherKey)
    ensures var f := Frame(Split(TrimNewlines(content)) + ["", SectionHeader(section)], [""]);
      ScanAlike(Framed(f, e), Split(content), SectionHeader(other), otherKey)
  {
    var kept, blanks := KeptAndEmpties(content);
    var tail := ["", SectionHeader(section)] + ([e] + [""]);
    NewSectionInvisible(section, e, key, other, otherKey);
    ScanNothing(blanks, SectionHeader(other), otherKey);
    SwapTail(kept, tail, blanks, SectionHeader(other), otherKey);
    assert (kept + ["", SectionHeader(section)]) + ([e] + [""]) == kept + tail;
  }

  lemma EditKeepsOtherKey(pre: seq<string>, dropped: seq<string>, e: string, rest: seq<string>, key: string,
                          h2: string, otherKey: string)
    requires BareKey(key) && BareKey(otherKey) && MatchesKey(e, key) && key != otherKey && IsHeaderText(h2)
    requires ScanAlike(dropped + rest, rest, h2, otherKey)
    ensures ScanAlike(pre + ([e] + rest), pre + (dropped + rest), h2, otherKey)
  {
    KeyLineInvisible(e, rest, h2, key, otherKey);
    SwapTail(pre, [e] + rest, dropped + rest, h2, otherKey);
  }

  lemma TopEndKeepsOtherKey(content: string, e: string, key: string, h2: string, otherKey: string)
    requires BareKey(key) && BareKey(otherKey) && MatchesKey(e, key) && key != otherKey && IsHeaderText(h2)
    ensures var kept := TrimNewlines(content);
      ScanAlike(Framed(Frame(if kept == "" then [] else Split(kept), [""]), e), Split(content), h2, otherKey)
  {
    var kept, blanks := KeptAndEmpties(content);
    KeyLineInvisible(e, [""], h2, key, otherKey);
    ScanNothing([""], h2, otherKey);
    if TrimNewlines(content) == "" {
      ScanNothing(kept + blanks, h2, otherKey);
      assert Framed(Frame([], [""]), e) == [e] + [""];
    } else {
      ScanNothing(blanks, h2, otherKey);
      SwapTail(kept, [e] + [""], blanks, h2, otherKey);
    }
  }

  lemma ReplaceKeepsOtherKey(lines: seq<string>, i: nat, e: string, key: string, h2: string, otherKey: string)
    requires BareKey(key) && BareKey(otherKey) && MatchesKey(e, key) && key != otherKey && IsHeaderText(h2)
    requires i < |lines| && MatchesKey(lines[i], key)
    ensures ScanAlike(Framed(Frame(lines[..i], lines[i + 1..]), e), lines, h2, otherKey)
  {
    KeyLineInvisible(lines[i], lines[i + 1..], h2, key, otherKey);
    EditKeepsOtherKey(lines[..i], [lines[i]], e, lines[i + 1..], key, h2, otherKey);
    assert lines == lines[..i] + ([lines[i]] + lines[i + 1..]);
  }

  lemma InsertKeepsOtherKey(lines: seq<string>, i: nat, e: string, key: string, h2: string, otherKey: string)
    requires BareKey(key) && BareKey(otherKey) && MatchesKey(e, key) && key != otherKey && IsHeaderText(h2)
    requires i <= |lines|
    ensures ScanAlike(Framed(Frame(lines[..i], lines[i..]), e), lines, h2, otherKey)
  {
    assert [] + lines[i..] == lines[i..];
    EditKeepsOtherKey(lines[..i], [], e, lines[i..], key, h2, otherKey);
    assert lines == lines[..i] + lines[i..];
  }

  lemma PlaceSetsKey(lines: seq<string>, section: string, key: string, i: nat)
    requires BareKey(key) && PlaceOf(lines, section, key) == Replace(i)
    ensures MatchesKey(lines[i], key)
  {
    PlaceAgreesWithReader(lines, section, key);
    LocateInside(lines, section, key);
  }

  /** For another key of any section, patching key changes nothing. */
  lemma FrameKeepsOtherKey(content: string, section: string, e: string, key: string, other: string, otherKey: string)
    requires BareKey(key) && BareKey(otherKey) && MatchesKey(e, key) && key != otherKey
    ensures ScanAlike(Framed(FrameOf(content, section, key), e), Split(content), SectionHeader(other), otherKey)
  {
    var lines, h2 := Split(content), SectionHeader(other);
    match PlaceOf(lines, section, key) {
      case Replace(i) =>
        PlaceSetsKey(lines, section, key, i);
        ReplaceKeepsOtherKey(lines, i, e, key, h2, otherKey);
      case AfterHeader(i) => InsertKeepsOtherKey(lines, i, e, key, h2, otherKey);
      case NewSection => NewSectionKeepsOthers(content, section, e, key, other, otherKey);
      case TopEnd => TopEndKeepsOtherKey(content, e, key, h2, otherKey);
      case BeforeFirst(top) => BeforeFirstKeepsOtherKey(lines, top, e, key, h2, otherKey);
    }
  }

  lemma BlanksForEntry(front: seq<string>, blanks: seq<string>, tail: seq<string>, e: string, key: string,
                       h2: string, otherKey: string)
    requires BareKey(key) && BareKey(otherKey) && MatchesKey(e, key) && key != otherKey && IsHeaderText(h2)
    requires forall i | 0 <= i < |blanks| :: TrimSpace(blanks[i]) == ""
    ensures ScanAlike(front + ([e] + ([""] + tail)), front + (blanks + tail), h2, otherKey)
  {
    BlanksInvisible(blanks, tail, h2, otherKey);
    BlanksInvisible([""], tail, h2, otherKey);
    KeyLineInvisible(e, [""] + tail, h2, key, otherKey);
    SwapTail(front, [e] + ([""] + tail), blanks + tail, h2, otherKey);
  }

  lemma BeforeFirstKeepsOtherKey(lines: seq<string>, top: nat, e: string, key: string, h2: string, otherKey: string)
    requires BareKey(key) && BareKey(otherKey) && MatchesKey(e, key) && key != otherKey && IsHeaderText(h2)
    requires top < |lines|
    ensures ScanAlike(Framed(Frame(DropBlankTail(lines[..top]), [""] + lines[top..]), e), lines, h2, otherKey)
  {
    var front, blanks := BlankTail(lines[..top]);
    BlanksForEntry(front, blanks, lines[top..], e, key, h2, otherKey);
    assert lines == (front + blanks) + lines[top..] == front + (blanks + lines[top..]);
  }

  lemma BlankTail(lines: seq<string>) returns (front: seq<string>, blanks: seq<string>)
    ensures front == DropBlankTail(lines) && lines == front + blanks
    ensures forall i | 0 <= i < |blanks| :: TrimSpace(blanks[i]) == ""
  {
    front := DropBlankTail(lines);
    blanks := lines[|front|..];
    DropBlankTailDrops(lines);
  }

  lemma CutAt(lines: seq<string>, lo: nat, i: nat, e: string)
    requires lo <= i < |lines|
    ensures lines == lines[..lo] + ((lines[lo..i] + [lines[i]]) + lines[i + 1..])
    ensures lines[..i] + ([e] + lines[i + 1..]) == lines[..lo] + ((lines[lo..i] + [e]) + lines[i + 1..])
  {
    var rest := lines[i + 1..];
    assert lines[..i] == lines[..lo] + lines[lo..i];
    assert lines == lines[..i] + ([lines[i]] + rest);
    assert (lines[..lo] + lines[lo..i]) + ([e] + rest) == lines[..lo] + ((lines[lo..i] + [e]) + rest);
    assert (lines[..lo] + lines[lo..i]) + ([lines[i]] + rest) == lines[..lo] + ((lines[lo..i] + [lines[i]]) + rest);
  }

  /** Replacing a line of the table at lo, as seen by a search for a later section. */
  lemma ReplaceUnseen(lines: seq<string>, lo: nat, i: nat, e: string, h2: string, key: string)
    requires lo <= i < |lines| && IsHeaderText(h2) && Passed(lines, lo, i, key)
    requires !IsHeader(e) && !IsHeader(lines[i])
    ensures ScanIn((lines[lo..i] + [e]) + lines[i + 1..], h2, key)
         == ScanIn((lines[lo..i] + [lines[i]]) + lines[i + 1..], h2, key)
  {
    var a, rest := lines[lo..i], lines[i + 1..];
    assert NoHeaders(a);
    SkipToTail(a + [e], rest, h2, key);
    SkipToTail(a + [lines[i]], rest, h2, key);
  }

  lemma ReplaceKeepsOtherSection(lines: seq<string>, p: nat, i: nat, e: string, h2: string, key: string)
    requires p < i < |lines| && IsHeader(lines[p]) && TrimSpace(lines[p]) != h2 && IsHeaderText(h2)
    requires Passed(lines, p + 1, i, key) && !IsHeader(e) && !IsHeader(lines[i])
    ensures ScanAlike(Framed(Frame(lines[..i], lines[i + 1..]), e), lines, h2, key)
  {
    var a, rest := lines[p + 1..i], lines[i + 1..];
    CutAt(lines, p + 1, i, e);
    ReplaceUnseen(lines, p + 1, i, e, h2, key);
    SwapTailBehindHeader(lines[..p + 1], (a + [e]) + rest, (a + [lines[i]]) + rest, h2, key);
  }

  lemma InsertKeepsOtherSection(lines: seq<string>, i: nat, e: string, h2: string, key: string)
    requires 0 < i <= |lines| && IsHeader(lines[i - 1]) && TrimSpace(lines[i - 1]) != h2 && IsHeaderText(h2)
    requires !IsHeader(e)
    ensures ScanAlike(Framed(Frame(lines[..i], lines[i..]), e), lines, h2, key)
  {
    SkipToTail([e], lines[i..], h2, key);
    SwapTailBehindHeader(lines[..i], [e] + lines[i..], lines[i..], h2, key);
    assert lines == lines[..i] + lines[i..];
  }

  lemma SectionLineOf(lines: seq<string>, section: string, key: string, other: string)
    requires BareKey(key) && section != "" && section != other
    ensures var p, place := SectionAt(lines, SectionHeader(section)), PlaceOf(lines, section, key);
      && !place.TopEnd? && !place.BeforeFirst?
      && (!place.NewSection? ==> p < |lines| && IsHeader(lines[p]) && TrimSpace(lines[p]) != SectionHeader(other))
      && (place.AfterHeader? ==> place.at == p + 1)
      && (place.Replace? ==> p < place.at && Passed(lines, p + 1, place.at, key) && !IsHeader(lines[place.at]))
  {
    HeadersDiffer(section, other);
    HeaderIsHeader(section);
    SectionAtFirst(lines, SectionHeader(section));
    SectionPlaceIsRight(lines, section, key);
    var place := PlaceOf(lines, section, key);
    if place.Replace? {
      KeyLineIsNoHeader(lines[place.at], key);
    }
  }

  lemma SectionReplaceCase(lines: seq<string>, section: string, e: string, key: string, other: string, i: nat)
    requires BareKey(key) && MatchesKey(e, key) && section != "" && section != other
    requires PlaceOf(lines, section, key) == Replace(i)
    ensures ScanAlike(Framed(Frame(lines[..i], lines[i + 1..]), e), lines, SectionHeader(other), key)
  {
    SectionLineOf(lines, section, key, other);
    KeyLineIsNoHeader(e, key);
    ReplaceKeepsOtherSection(lines, SectionAt(lines, SectionHeader(section)), i, e, SectionHeader(other), key);
  }

  lemma SectionInsertCase(lines: seq<string>, section: string, e: string, key: string, other: string, i: nat)
    requires BareKey(key) && MatchesKey(e, key) && section != "" && section != other
    requires PlaceOf(lines, section, key) == AfterHeader(i)
    ensures ScanAlike(Framed(Frame(lines[..i], lines[i..]), e), lines, SectionHeader(other), key)
  {
    SectionLineOf(lines, section, key, other);
    KeyLineIsNoHeader(e, key);
    InsertKeepsOtherSection(lines, i, e, SectionHeader(other), key);
  }

  /** For the same key of another section, patching a section changes nothing. */
  lemma FrameKeepsOtherSection(content: string, section: string, e: string, key: string, other: string)
    requires BareKey(key) && MatchesKey(e, key) && section != "" && section != other
    ensures ScanAlike(Framed(FrameOf(content, section, key), e), Split(content), SectionHeader(other), key)
  {
    var lines := Split(content);
    match PlaceOf(lines, section, key) {
      case Replace(i) => SectionReplaceCase(lines, section, e, key, other, i);
      case AfterHeader(i) => SectionInsertCase(lines, section, e, key, other, i);
      case NewSection => NewSectionKeepsOthers(content, section, e, key, other, key);
      case TopEnd =>
      case BeforeFirst(top) =>
    }
  }

  lemma FramedSkips(f: Frame, e: string, h2: string, key: string)
    requires NoHeaders(f.before) && !IsHeader(e) && IsHeaderText(h2)
    ensures ScanIn(Framed(f, e), h2, key) == ScanIn(f.after, h2, key)
  {
    SkipToTail([e], f.after, h2, key);
    SkipToTail(f.before, [e] + f.after, h2, key);
  }

  lemma SkipPrefix(lines: seq<string>, n: nat, h2: string, key: string)
    requires n <= |lines| && IsHeaderText(h2) && forall j | 0 <= j < n :: !IsHeader(lines[j])
    ensures ScanIn(lines, h2, key) == ScanIn(lines[n..], h2, key)
  {
    SkipToTail(lines[..n], lines[n..], h2, key);
    assert lines == lines[..n] + lines[n..];
  }

  /** What follows the edit of a top-level patch scans for a section as the whole file did. */
  lemma TopFrameTail(lines: seq<string>, key: string, h2: string, place: Place, after: seq<string>)
    requires BareKey(key) && IsHeaderText(h2) && TopPlace(lines, key, place)
    requires place.Replace? ==> place.at < |lines| && after == lines[place.at + 1..]
    requires place.BeforeFirst? ==> place.at < |lines| && after == [""] + lines[place.at..]
    requires place.TopEnd? ==> after == [""]
    ensures ScanIn(after, h2, key) == ScanIn(lines, h2, key)
  {
    if place.Replace? {
      KeyLineIsNoHeader(lines[place.at], key);
      SkipPrefix(lines, place.at + 1, h2, key);
    } else if place.BeforeFirst? {
      BlanksInvisible([""], lines[place.at..], h2, key);
      SkipPrefix(lines, place.at, h2, key);
    } else {
      ScanNothing([""], h2, key);
      SkipPrefix(lines, |lines|, h2, key);
    }
  }

  /** For the same key of a section, patching the top-level table changes nothing. */
  lemma TopFrameKeepsSections(content: string, e: string, key: string, other: string)
    requires BareKey(key) && MatchesKey(e, key)
    ensures ScanIn(Framed(FrameOf(content, "", key), e), SectionHeader(other), key)
         == ScanIn(Split(content), SectionHeader(other), key)
  {
    var lines, h2, f := Split(content), SectionHeader(other), FrameOf(content, "", key);
    KeyLineIsNoHeader(e, key);
    TopPlaceIsRight(lines, key);
    TopBeforePassed(content, key);
    FramedSkips(f, e, h2, key);
    TopFrameTail(lines, key, h2, PlaceOf(lines, "", key), f.after);
  }

  /** Reading any other key, of this or another section, gives what it gave before a value was set. */
  lemma SettingKeepsOthers(content: string, section: string, key: string, raw: string, other: string, otherKey: string)
    requires BareKey(key) && LineValue(raw) && NoNewline(section) && BareKey(otherKey)
    requires (section, key) != (other, otherKey)
    ensures Read(Patch(content, section, key, raw), other, otherKey) == Read(content, other, otherKey)
  {
    var e := Entry(key, raw);
    EntryIsClean(key, raw);
    PatchFrames(content, section, key, raw);
    ReadIsScan(Framed(FrameOf(content, section, key), e), other, otherKey);
    ReadIsScan(Split(content), other, otherKey);
    if key != otherKey {
      FrameKeepsOtherKey(content, section, e, key, other, otherKey);
    } else if section != "" {
      FrameKeepsOtherSection(content, section, e, key, other);
    } else {
      TopFrameKeepsSections(content, e, key, other);
    }
  }

  // ------------------------------------------------------------------- removal

  lemma RemovalKeepsOtherKey(lines: seq<string>, i: nat, key: string, h2: string, otherKey: string)
    requires BareKey(key) && BareKey(otherKey) && key != otherKey && IsHeaderText(h2)
    requires i < |lines| && MatchesKey(lines[i], key)
    ensures ScanAlike(lines[..i] + lines[i + 1..], lines, h2, otherKey)
  {
    KeyLineInvisible(lines[i], lines[i + 1..], h2, key, otherKey);
    SwapTail(lines[..i], lines[i + 1..], [lines[i]] + lines[i + 1..], h2, otherKey);
    assert lines == lines[..i] + ([lines[i]] + lines[i + 1..]);
  }

  lemma RemovalKeepsOtherSection(lines: seq<string>, p: nat, i: nat, h2: string, key: string)
    requires p < i < |lines| && IsHeader(lines[p]) && TrimSpace(lines[p]) != h2 && IsHeaderText(h2)
    requires Passed(lines, p + 1, i, key) && !IsHeader(lines[i])
    ensures ScanAlike(lines[..i] + lines[i + 1..], lines, h2, key)
  {
    var pre, a, rest := lines[..p + 1], lines[p + 1..i], lines[i + 1..];
    RemoveUnseen(lines, p + 1, i, h2, key);
    SwapTailBehindHeader(pre, a + rest, (a + [lines[i]]) + rest, h2, key);
    CutAt(lines, p + 1, i, lines[i]);
    CutOut(lines, p + 1, i);
  }

  lemma RemoveUnseen(lines: seq<string>, lo: nat, i: nat, h2: string, key: string)
    requires lo <= i < |lines| && IsHeaderText(h2) && Passed(lines, lo, i, key) && !IsHeader(lines[i])
    ensures ScanIn(lines[lo..i] + lines[i + 1..], h2, key)
         == ScanIn((lines[lo..i] + [lines[i]]) + lines[i + 1..], h2, key)
  {
    var a, rest := lines[lo..i], lines[i + 1..];
    assert NoHeaders(a);
    SkipToTail(a, rest, h2, key);
    SkipToTail(a + [lines[i]], rest, h2, key);
  }

  lemma CutOut(lines: seq<string>, lo: nat, i: nat)
    requires lo <= i < |lines|
    ensures lines[..i] + lines[i + 1..] == lines[..lo] + (lines[lo..i] + lines[i + 1..])
  {
    assert lines[..i] == lines[..lo] + lines[lo..i];
  }

  lemma TopRemovalKeepsSections(lines: seq<string>, i: nat, h2: string, key: string)
    requires i < |lines| && IsHeaderText(h2) && Passed(lines, 0, i, key) && !IsHeader(lines[i])
    ensures ScanIn(lines[..i] + lines[i + 1..], h2, key) == ScanIn(lines, h2, key)
  {
    assert NoHeaders(lines[..i]);
    SkipToTail(lines[..i], lines[i + 1..], h2, key);
    SkipPrefix(lines, i + 1, h2, key);
  }

  /** Taking out the line a removal takes out changes no other key's reading. */
  lemma RemovedLineUnseen(lines: seq<string>, section: string, key: string, other: string, otherKey: string, i: nat)
    requires BareKey(key) && BareKey(otherKey) && (section, key) != (other, otherKey)
    requires PlaceOf(lines, section, key) == Replace(i)
    ensures ReadLines(lines[..i] + lines[i + 1..], other, otherKey) == ReadLines(lines, other, otherKey)
  {
    var left, h2 := lines[..i] + lines[i + 1..], SectionHeader(other);
    PlaceSetsKey(lines, section, key, i);
    KeyLineIsNoHeader(lines[i], key);
    ReadIsScan(left, other, otherKey);
    ReadIsScan(lines, other, otherKey);
    if key != otherKey {
      RemovalKeepsOtherKey(lines, i, key, h2, otherKey);
    } else if section != "" {
      SectionLineOf(lines, section, key, other);
      RemovalKeepsOtherSection(lines, SectionAt(lines, SectionHeader(section)), i, h2, key);
    } else {
      TopPlaceIsRight(lines, key);
      TopRemovalKeepsSections(lines, i, h2, key);
    }
  }

  lemma RemovingKeepsOthers(content: string, section: string, key: string, other: string, otherKey: string)
    requires BareKey(key) && BareKey(otherKey) && (section, key) != (other, otherKey)
    ensures Read(Patch(content, section, key, ""), other, otherKey) == Read(content, other, otherKey)
  {
    var lines := Split(content);
    SplitIsClean(content);
    var place := PlaceOf(lines, section, key);
    if place.Replace? {
      var left := lines[..place.at] + lines[place.at + 1..];
      RemovedLineUnseen(lines, section, key, other, otherKey, place.at);
      JoinedReads(left, other, otherKey);
    }
  }

  /** Joining lines and splitting them again changes no reading, not even of no lines at all. */
  lemma JoinedReads(lines: seq<string>, section: string, key: string)
    requires CleanLines(lines)
    ensures Read(Join(lines), section, key) == ReadLines(lines, section, key)
  {
    if lines == [] {
      OneBlank(section, key);
      ReadIsScan([], section, key);
      assert Join([]) == "";
    } else {
      SplitJoin(lines);
    }
  }

  /**
    Reading any other key, of this or another section, gives what it gave before the
    patch, whether the patch sets its key or removes it.
   */
  lemma PatchKeepsOthers(content: string, section: string, key: string, raw: string, other: string, otherKey: string)
    requires BareKey(key) && BareKey(otherKey) && (section, key) != (other, otherKey)
    requires raw == "" || (LineValue(raw) && NoNewline(section))
    ensures Read(Patch(content, section, key, raw), other, otherKey) == Read(content, other, otherKey)
  {
    if raw == "" {
      RemovingKeepsOthers(content, section, key, other, otherKey);
    } else {
      SettingKeepsOthers(content, section, key, raw, other, otherKey);
    }
  }

  // ----------------------------------------------------------- the operations

  /** The scan for the header of a section. */
  method FindSection(lines: seq<string>, header: string) returns (p: nat)
    ensures p == SectionAt(lines, header)
  {
    p := 0;
    while p < |lines| && TrimSpace(lines[p]) != header
      invariant 0 <= p <= |lines|
      invariant SectionAt(lines, header) == p + SectionAt(lines[p..], header)
    {
      p := p + 1;
      assert lines[p - 1..][1..] == lines[p..];
    }
  }

  /** Within one table, the loop that returns the value of the first line that sets key. */
  method ReadTable(lines: seq<string>, start: nat, key: string) returns (r: string)
    requires start <= |lines|
    ensures r == ScanHere(lines[start..], key)
  {
    var end := FindTableEnd(lines, start);
    var i := start;
    HeaderAtFirst(lines[start..]);
    while i < end
      invariant start <= i <= end
      invariant ScanHere(lines[start..], key) == ScanHere(lines[i..], key)
    {
      assert lines[i] == lines[start..][i - start];
      if MatchesKey(lines[i], key) {
        return ValueOf(lines[i]);
      }
      i := i + 1;
      assert lines[i - 1..][1..] == lines[i..];
    }
    assert end < |lines| ==> lines[end] == lines[start..][end - start];
    r := "";
  }

  lemma {:induction false} ScanInAt(lines: seq<string>, header: string, key: string)
    ensures var p := SectionAt(lines, header);
      ScanIn(lines, header, key) == if p == |lines| then "" else ScanHere(lines[p + 1..], key)
  {
    if lines != [] && TrimSpace(lines[0]) != header {
      ScanInAt(lines[1..], header, key);
      var p := SectionAt(lines, header);
      assert p < |lines| ==> lines[1..][p..] == lines[p + 1..];
    }
  }

  /** readSectionValue. */
  method ReadSectionValue(content: string, section: string, key: string) returns (r: string)
    ensures r == Read(content, section, key)
  {
    var lines := Split(content);
    ReadIsScan(lines, section, key);
    if section == "" {
      r := ReadTable(lines, 0, key);
      assert lines[0..] == lines;
    } else {
      var p := FindSection(lines, SectionHeader(section));
      ScanInAt(lines, SectionHeader(section), key);
      if p == |lines| {
        return "";
      }
      r := ReadTable(lines, p + 1, key);
    }
  }

  /** The scan for the end of the table that starts at lo. */
  method FindTableEnd(lines: seq<string>, lo: nat) returns (hi: nat)
    requires lo <= |lines|
    ensures hi == TableEnd(lines, lo)
  {
    hi := lo;
    while hi < |lines| && !IsHeader(lines[hi])
      invariant lo <= hi <= |lines|
      invariant TableEnd(lines, lo) == hi + HeaderAt(lines[hi..])
    {
      hi := hi + 1;
      assert lines[hi - 1..][1..] == lines[hi..];
    }
  }

  /** The scan for the key in the table that starts at lo and ends at hi. */
  method FindKey(lines: seq<string>, lo: nat, hi: nat, key: string) returns (i: nat)
    requires lo <= |lines| && hi == TableEnd(lines, lo)
    ensures i == KeyInTable(lines, lo, key)
  {
    i := lo;
    assert lines[lo..hi] == lines[i..hi];
    while i < hi && !MatchesKey(lines[i], key)
      invariant lo <= i <= hi
      invariant KeyInTable(lines, lo, key) == i + KeyAt(lines[i..hi], key)
    {
      i := i + 1;
      assert lines[i - 1..hi][1..] == lines[i..hi];
    }
  }

  /** The copying loop of PatchSectionValue: an update, a deletion or an insertion. */
  method EditSection(lines: seq<string>, header: nat, keyLine: Option<nat>, key: string, raw: string)
    returns (result: seq<string>)
    requires header < |lines|
    requires keyLine.Some? ==> header < keyLine.value < |lines|
    ensures keyLine.Some? ==> result == SetLine(lines, keyLine.value, key, raw)
    ensures keyLine.None? && raw == "" ==> result == lines
    ensures keyLine.None? && raw != "" ==> result == lines[..header + 1] + [Entry(key, raw)] + lines[header + 1..]
  {
    var patched := if keyLine.Some? && raw != "" then lines[keyLine.value := Entry(key, raw)] else lines;
    result := [];
    for i := 0 to |patched|
      invariant keyLine.Some? && raw == "" ==>
        result == if i <= keyLine.value then lines[..i] else lines[..keyLine.value] + lines[keyLine.value + 1..i]
      invariant keyLine.Some? && raw != "" ==> result == patched[..i]
      invariant keyLine.None? && raw == "" ==> result == lines[..i]
      invariant keyLine.None? && raw != "" ==>
        result == if i <= header then lines[..i] else lines[..header + 1] + [Entry(key, raw)] + lines[header + 1..i]
    {
      assert lines[..i + 1] == lines[..i] + [lines[i]];
      if !(keyLine == Some(i) && raw == "") {
        result := result + [patched[i]];
        if i == header && keyLine.None? && raw != "" {
          result := result + [Entry(key, raw)];
        }
      }
    }
  }

  /** PatchSectionValue for a named section. */
  method PatchSection(content: string, section: string, key: string, raw: string) returns (r: string)
    requires section != ""
    ensures r == Patch(content, section, key, raw)
  {
    var lines := Split(content);
    var p := FindSection(lines, SectionHeader(section));
    if p == |lines| {
      if raw == "" {
        return content;
      }
      return TrimNewlines(Join(lines)) + "\n\n" + SectionHeader(section) + "\n" + Entry(key, raw) + "\n";
    }
    var hi := FindTableEnd(lines, p + 1);
    var i := FindKey(lines, p + 1, hi, key);
    assert PlaceOf(lines, section, key) == if i < hi then Replace(i) else AfterHeader(p + 1);
    var result := EditSection(lines, p, if i < hi then Some(i) else None, key, raw);
    r := Join(result);
  }

  /** patchTopLevel. */
  method PatchTopLevel(content: string, key: string, raw: string) returns (r: string)
    ensures r == Patch(content, "", key, raw)
  {
    var lines := Split(content);
    var top := FindTableEnd(lines, 0);
    var i := FindKey(lines, 0, top, key);
    if i < top {
      return Join(SetLine(lines, i, key, raw));
    }
    if raw == "" {
      return Join(lines);
    }
    var entry := Entry(key, raw);
    if top == |lines| {
      var joined := TrimNewlines(Join(lines));
      return if joined == "" then entry + "\n" else joined + "\n" + entry + "\n";
    }
    var result := lines[..top];
    while result != [] && TrimSpace(result[|result| - 1]) == ""
      invariant DropBlankTail(result) == DropBlankTail(lines[..top])
    {
      result := result[..|result| - 1];
    }
    r := Join(result + [entry, ""] + lines[top..]);
  }
}
