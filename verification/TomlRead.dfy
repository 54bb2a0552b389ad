/**
  What the reader of config.toml returns, said of the text of the file: which lines
  open a table, which set a key, and what stands after the equals sign.
 */
module TomlRead {
  import opened Text
  import opened TomlPatch

  // ---------------------------------------------------------------- trimming

  /** A line that is the text between white space, and the text does not start or end with any. */
  ghost predicate Surrounds(line: string, text: string) {
    Trimmed(text) && exists lead, trail :: line == lead + text + trail && AllSpace(lead) && AllSpace(trail)
  }

  lemma {:induction false} SkipLeft(lead: string, s: string)
    requires AllSpace(lead)
    ensures TrimLeftSpace(lead + s) == TrimLeftSpace(s)
  {
    if lead == "" {
      assert lead + s == s;
    } else {
      assert (lead + s)[1..] == lead[1..] + s;
      SkipLeft(lead[1..], s);
    }
  }

  lemma {:induction false} SkipRight(s: string, trail: string)
    requires AllSpace(trail)
    ensures TrimRightSpace(s + trail) == TrimRightSpace(s)
  {
    if trail == "" {
      assert s + trail == s;
    } else {
      var n := |trail| - 1;
      assert (s + trail)[..|s| + n] == s + trail[..n];
      assert (s + trail)[|s| + n] == trail[n];
      SkipRight(s, trail[..n]);
    }
  }

  lemma {:induction false} LeftCut(s: string) returns (n: nat)
    ensures n <= |s| && TrimLeftSpace(s) == s[n..] && forall i | 0 <= i < n :: IsSpace(s[i])
  {
    if s != "" && IsSpace(s[0]) {
      var m := LeftCut(s[1..]);
      n := m + 1;
      assert s[1..][m..] == s[n..];
      assert forall i | 0 < i < n :: s[i] == s[1..][i - 1];
    } else {
      n := 0;
    }
  }

  lemma {:induction false} RightCut(s: string) returns (n: nat)
    ensures n <= |s| && TrimRightSpace(s) == s[..n] && forall i | n <= i < |s| :: IsSpace(s[i])
  {
    if s != "" && IsSpace(s[|s| - 1]) {
      n := RightCut(s[..|s| - 1]);
      assert s[..|s| - 1][..n] == s[..n];
    } else {
      n := |s|;
    }
  }

  lemma LeftParts(s: string) returns (lead: string)
    ensures s == lead + TrimLeftSpace(s) && AllSpace(lead)
  {
    var n := LeftCut(s);
    lead := s[..n];
  }

  lemma RightParts(s: string) returns (trail: string)
    ensures s == TrimRightSpace(s) + trail && AllSpace(trail)
  {
    var n := RightCut(s);
    trail := s[n..];
  }

  lemma TrimmedPart(lead: string, text: string, trail: string)
    requires AllSpace(lead) && AllSpace(trail) && Trimmed(text)
    ensures TrimSpace(lead + text + trail) == text
  {
    assert lead + text + trail == lead + (text + trail);
    SkipLeft(lead, text + trail);
    if text == "" {
      assert text + trail == trail + "";
      SkipLeft(trail, "");
    } else {
      assert (text + trail)[0] == text[0];
      SkipRight(text, trail);
    }
  }

  /** Trimming a line leaves the one text that the line surrounds with white space. */
  lemma TrimSpaceIff(line: string, text: string)
    ensures TrimSpace(line) == text <==> Surrounds(line, text)
  {
    if Surrounds(line, text) {
      var lead, trail :| line == lead + text + trail && AllSpace(lead) && AllSpace(trail);
      TrimmedPart(lead, text, trail);
    }
    if TrimSpace(line) == text {
      var lead := LeftParts(line);
      var trail := RightParts(TrimLeftSpace(line));
      TrimSpaceTrims(line);
      assert line == lead + text + trail;
    }
  }

  lemma TrimRightFirst(s: string)
    ensures TrimSpace(TrimRightSpace(s)) == TrimSpace(s)
  {
    var r := TrimRightSpace(s);
    var trail := RightParts(s);
    TrimSpaceIff(r, TrimSpace(r));
    var lead, last :| r == lead + TrimSpace(r) + last && AllSpace(lead) && AllSpace(last);
    assert s == lead + TrimSpace(r) + (last + trail);
    TrimmedPart(lead, TrimSpace(r), last + trail);
  }

  // ------------------------------------------------------------- single lines

  /** White space and then a bracket. */
  ghost predicate OpensTable(line: string) {
    exists lead, rest :: line == lead + "[" + rest && AllSpace(lead)
  }

  lemma BracketTrimmed(lead: string, rest: string)
    requires AllSpace(lead)
    ensures TrimSpace(lead + "[" + rest) == "[" + TrimRightSpace(rest)
  {
    var r := TrimRightSpace(rest);
    var trail := RightParts(rest);
    TrimRightEnds(rest);
    assert lead + "[" + rest == lead + ("[" + r) + trail;
    assert ("[" + r)[0] == '[';
    TrimmedPart(lead, "[" + r, trail);
  }

  lemma HeaderOpens(line: string)
    requires IsHeader(line)
    ensures OpensTable(line)
  {
    var t := TrimSpace(line);
    TrimSpaceIff(line, t);
    var lead, trail :| line == lead + t + trail && AllSpace(lead) && AllSpace(trail);
    assert line == lead + "[" + (t[1..] + trail) by {
      assert t == "[" + t[1..];
      assert lead + ("[" + t[1..]) + trail == lead + "[" + (t[1..] + trail);
    }
  }

  /** A line is a section header exactly when it opens a table. */
  lemma OpensTableIff(line: string)
    ensures IsHeader(line) <==> OpensTable(line)
  {
    if OpensTable(line) {
      var lead, rest :| line == lead + "[" + rest && AllSpace(lead);
      BracketTrimmed(lead, rest);
    }
    if IsHeader(line) {
      HeaderOpens(line);
    }
  }

  /** Text that a trimmed line can start with and that does not make it a comment. */
  predicate KeyText(key: string) {
    key != "" && !IsSpace(key[0]) && key[0] != '#'
  }

  predicate AllBlank(s: string) {
    forall i | 0 <= i < |s| :: s[i] == ' ' || s[i] == '\t'
  }

  /** White space, the key, blanks, an equals sign, and the rest. */
  predicate Setting(line: string, lead: string, key: string, gap: string, rest: string) {
    KeyText(key) && AllSpace(lead) && AllBlank(gap) && line == lead + key + gap + "=" + rest
  }

  ghost predicate Sets(line: string, key: string) {
    exists lead, gap, rest :: Setting(line, lead, key, gap, rest)
  }

  /** The value of a line is what stands after its first equals sign. */
  lemma ValueAfterEquals(line: string, a: string, b: string)
    requires TrimSpace(line) == a + "=" + b && '=' !in a
    ensures ValueOf(line) == TrimSpace(b)
  {
    var t := TrimSpace(line);
    assert t == a + (['='] + b);
    EqualsAfter(a, b);
    assert t[|a| + 1..] == b;
  }

  /** A line without an equals sign has no value. */
  lemma NoEqualsNoValue(line: string)
    requires '=' !in TrimSpace(line)
    ensures ValueOf(line) == ""
  {
    EqualsNowhere(TrimSpace(line));
  }

  lemma {:induction false} EqualsNowhere(s: string)
    requires '=' !in s
    ensures EqualsAt(s) == |s|
  {
    if s != "" {
      EqualsNowhere(s[1..]);
    }
  }

  lemma SettingTrimmed(line: string, lead: string, key: string, gap: string, rest: string)
    requires Setting(line, lead, key, gap, rest)
    ensures TrimSpace(line) == key + gap + "=" + TrimRightSpace(rest)
  {
    var r := TrimRightSpace(rest);
    var trail := RightParts(rest);
    TrimRightEnds(rest);
    var t := key + gap + "=" + r;
    assert line == lead + t + trail;
    assert t[0] == key[0];
    assert t[|t| - 1] == if r == "" then '=' else r[|r| - 1];
    TrimmedPart(lead, t, trail);
  }

  lemma SettingValue(line: string, lead: string, key: string, gap: string, rest: string)
    requires Setting(line, lead, key, gap, rest) && '=' !in key
    ensures ValueOf(line) == TrimSpace(rest)
  {
    SettingTrimmed(line, lead, key, gap, rest);
    assert '=' !in key + gap;
    ValueAfterEquals(line, key + gap, TrimRightSpace(rest));
    TrimRightFirst(rest);
  }

  lemma {:induction false} SkipBlanks(gap: string, s: string)
    requires AllBlank(gap)
    ensures TrimLeftBlanks(gap + s) == TrimLeftBlanks(s)
  {
    if gap == "" {
      assert gap + s == s;
    } else {
      assert (gap + s)[1..] == gap[1..] + s;
      SkipBlanks(gap[1..], s);
    }
  }

  lemma {:induction false} BlankCut(s: string) returns (n: nat)
    ensures n <= |s| && TrimLeftBlanks(s) == s[n..] && AllBlank(s[..n])
  {
    if s != "" && (s[0] == ' ' || s[0] == '\t') {
      var m := BlankCut(s[1..]);
      n := m + 1;
      assert s[1..][m..] == s[n..];
      assert forall i | 0 < i < n :: s[i] == s[1..][..m][i - 1];
    } else {
      n := 0;
    }
  }

  lemma SettingMatches(line: string, lead: string, key: string, gap: string, rest: string)
    requires Setting(line, lead, key, gap, rest)
    ensures MatchesKey(line, key)
  {
    SettingTrimmed(line, lead, key, gap, rest);
    var t, tail := TrimSpace(line), "=" + TrimRightSpace(rest);
    assert t[|key|..] == gap + tail;
    assert t[0] == key[0];
    SkipBlanks(gap, tail);
    TrimLeftBlanksKeeps(tail);
  }

  lemma MatchedParts(t: string, key: string) returns (gap: string, value: string)
    requires key <= t
    requires var rest := TrimLeftBlanks(t[|key|..]); rest != "" && rest[0] == '='
    ensures AllBlank(gap) && t == key + gap + "=" + value
  {
    var n := BlankCut(t[|key|..]);
    gap, value := t[|key|..][..n], t[|key|..][n + 1..];
    assert t[|key|..] == gap + "=" + value;
    assert t == key + t[|key|..];
  }

  lemma MatchedSets(line: string, key: string)
    requires MatchesKey(line, key)
    ensures Sets(line, key)
  {
    var t := TrimSpace(line);
    TrimSpaceIff(line, t);
    var lead, trail :| line == lead + t + trail && AllSpace(lead) && AllSpace(trail);
    var gap, value := MatchedParts(t, key);
    assert t[0] == key[0];
    assert line == lead + key + gap + "=" + (value + trail) by {
      Regroup(lead, key, gap, value, trail);
    }
    assert Setting(line, lead, key, gap, value + trail);
  }

  lemma Regroup(lead: string, key: string, gap: string, value: string, trail: string)
    ensures lead + (key + gap + "=" + value) + trail == lead + key + gap + "=" + (value + trail)
  {
  }

  /** A line matches a key exactly when it sets that key. */
  lemma MatchesIff(line: string, key: string)
    ensures MatchesKey(line, key) <==> Sets(line, key)
  {
    if Sets(line, key) {
      var lead, gap, rest :| Setting(line, lead, key, gap, rest);
      SettingMatches(line, lead, key, gap, rest);
    }
    if MatchesKey(line, key) {
      MatchedSets(line, key);
    }
  }

  // -------------------------------------------------------------- whole files

  /** The first line that is the section's header. */
  ghost predicate StartsSection(lines: seq<string>, section: string, p: nat) {
    && p < |lines|
    && Surrounds(lines[p], "[" + section + "]")
    && forall j | 0 <= j < p :: !Surrounds(lines[j], "[" + section + "]")
  }

  /** Lines from lo to i, none of which opens a table. */
  ghost predicate SameTable(lines: seq<string>, lo: nat, i: nat) {
    lo <= i < |lines| && forall j | lo <= j <= i :: !OpensTable(lines[j])
  }

  /** The line belongs to the section: to its first table, or, for no section, to the top of the file. */
  ghost predicate InSection(lines: seq<string>, section: string, i: nat) {
    if section == "" then SameTable(lines, 0, i)
    else exists p: nat :: StartsSection(lines, section, p) && SameTable(lines, p + 1, i)
  }

  /** None of the first n lines sets the key in the section. */
  ghost predicate Unset(lines: seq<string>, section: string, key: string, n: nat) {
    n <= |lines| && forall j: nat | j < n && InSection(lines, section, j) :: !Sets(lines[j], key)
  }

  lemma UnsetPassed(lines: seq<string>, lo: nat, i: nat, key: string)
    requires i <= |lines|
    requires forall j | lo <= j < i :: !OpensTable(lines[j]) && !Sets(lines[j], key)
    ensures Passed(lines, lo, i, key)
  {
    forall j | lo <= j < i ensures !IsHeader(lines[j]) && !MatchesKey(lines[j], key) {
      OpensTableIff(lines[j]);
      MatchesIff(lines[j], key);
    }
  }

  lemma StartFound(lines: seq<string>, section: string, p: nat)
    requires StartsSection(lines, section, p)
    ensures TrimSpace(lines[p]) == SectionHeader(section)
    ensures forall j | 0 <= j < p :: TrimSpace(lines[j]) != SectionHeader(section)
  {
    forall j | 0 <= j <= p { TrimSpaceIff(lines[j], SectionHeader(section)); }
  }

  lemma TopLocates(lines: seq<string>, key: string, i: nat)
    requires InSection(lines, "", i) && Sets(lines[i], key)
    requires Unset(lines, "", key, i)
    ensures Locate(lines, "", key) == Some(i)
  {
    forall j | 0 <= j < i ensures !OpensTable(lines[j]) && !Sets(lines[j], key) {
      assert InSection(lines, "", j);
    }
    UnsetPassed(lines, 0, i, key);
    LocateHereSkips(lines, i, key);
    OpensTableIff(lines[i]);
    MatchesIff(lines[i], key);
  }

  lemma SectionLocates(lines: seq<string>, section: string, key: string, p: nat, i: nat)
    requires StartsSection(lines, section, p) && p < i < |lines|
    requires !OpensTable(lines[i]) && Sets(lines[i], key)
    requires forall j | p + 1 <= j < i :: !OpensTable(lines[j]) && !Sets(lines[j], key)
    ensures LocateIn(lines, SectionHeader(section), key) == Some(i)
  {
    StartFound(lines, section, p);
    UnsetPassed(lines, p + 1, i, key);
    LocateInSkips(lines, SectionHeader(section), p, i, key);
    OpensTableIff(lines[i]);
    MatchesIff(lines[i], key);
  }

  lemma InSectionLocates(lines: seq<string>, section: string, key: string, i: nat)
    requires section != "" && InSection(lines, section, i) && Sets(lines[i], key)
    requires Unset(lines, section, key, i)
    ensures Locate(lines, section, key) == Some(i)
  {
    var p: nat :| StartsSection(lines, section, p) && SameTable(lines, p + 1, i);
    forall j | p + 1 <= j < i ensures !OpensTable(lines[j]) && !Sets(lines[j], key) {
      assert SameTable(lines, p + 1, j);
      assert InSection(lines, section, j);
    }
    SectionLocates(lines, section, key, p, i);
  }

  /**
    The first line of the section that sets the key is the one read, and the value is
    what stands after its equals sign, without the white space around it.
   */
  lemma ReadFinds(content: string, section: string, key: string, i: nat, lead: string, gap: string, rest: string)
    requires var lines := Split(content);
      && InSection(lines, section, i) && Unset(lines, section, key, i)
      && Setting(lines[i], lead, key, gap, rest)
    requires '=' !in key
    ensures Read(content, section, key) == TrimSpace(rest)
  {
    var lines := Split(content);
    if section == "" {
      TopLocates(lines, key, i);
    } else {
      InSectionLocates(lines, section, key, i);
    }
    SettingValue(lines[i], lead, key, gap, rest);
  }

  lemma TableByText(lines: seq<string>, lo: nat)
    requires lo <= |lines|
    ensures forall j: nat | lo <= j < TableEnd(lines, lo) :: SameTable(lines, lo, j)
  {
    HeaderAtFirst(lines[lo..]);
    forall j: nat | lo <= j < TableEnd(lines, lo) ensures !OpensTable(lines[j]) {
      assert lines[j] == lines[lo..][j - lo];
      OpensTableIff(lines[j]);
    }
  }

  lemma TopMissing(lines: seq<string>, key: string)
    requires Unset(lines, "", key, |lines|)
    ensures Locate(lines, "", key) == None
  {
    TableByText(lines, 0);
    forall j | 0 <= j < TableEnd(lines, 0) ensures !OpensTable(lines[j]) && !Sets(lines[j], key) {
      assert SameTable(lines, 0, j);
      assert InSection(lines, "", j);
    }
    UnsetPassed(lines, 0, TableEnd(lines, 0), key);
    LocateNothing(lines, 0, key);
    assert lines[0..] == lines;
  }

  lemma TableUnset(lines: seq<string>, section: string, key: string, p: nat)
    requires section != "" && StartsSection(lines, section, p) && Unset(lines, section, key, |lines|)
    ensures Passed(lines, p + 1, TableEnd(lines, p + 1), key)
  {
    TableByText(lines, p + 1);
    forall j | p + 1 <= j < TableEnd(lines, p + 1) ensures !OpensTable(lines[j]) && !Sets(lines[j], key) {
      assert SameTable(lines, p + 1, j);
      assert InSection(lines, section, j);
    }
    UnsetPassed(lines, p + 1, TableEnd(lines, p + 1), key);
  }

  lemma FirstStarts(lines: seq<string>, section: string, p: nat)
    requires p < |lines| && TrimSpace(lines[p]) == SectionHeader(section)
    requires forall j | 0 <= j < p :: TrimSpace(lines[j]) != SectionHeader(section)
    ensures StartsSection(lines, section, p)
  {
    forall j | 0 <= j <= p { TrimSpaceIff(lines[j], SectionHeader(section)); }
  }

  lemma SectionMissing(lines: seq<string>, section: string, key: string)
    requires section != ""
    requires Unset(lines, section, key, |lines|)
    ensures Locate(lines, section, key) == None
  {
    var header := SectionHeader(section);
    var p := SectionAt(lines, header);
    SectionAtFirst(lines, header);
    if p == |lines| {
      LocateInAbsent(lines, header, key);
    } else {
      FirstStarts(lines, section, p);
      TableUnset(lines, section, key, p);
      NoKeyLocated(lines, header, p, key);
    }
  }

  /** When no line of the section sets the key, nothing is read. */
  lemma ReadMissing(content: string, section: string, key: string)
    requires Unset(Split(content), section, key, |Split(content)|)
    ensures Read(content, section, key) == ""
  {
    if section == "" {
      TopMissing(Split(content), key);
    } else {
      SectionMissing(Split(content), section, key);
    }
  }
}
