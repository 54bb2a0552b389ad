/**
  What a patch of config.toml leaves alone: every line with anything on it, comments
  included, stays where it is but for the one line that sets the key.
 */
module TomlLines {
  import opened Text
  import opened TomlPatch

  /** The lines that are not blank, in order. */
  function Written(lines: seq<string>): seq<string> {
    if lines == [] then []
    else
      var front, last := Written(lines[..|lines| - 1]), lines[|lines| - 1];
      if TrimSpace(last) == "" then front else front + [last]
  }

  lemma {:induction false} WrittenConcat(a: seq<string>, b: seq<string>)
    ensures Written(a + b) == Written(a) + Written(b)
    decreases |b|
  {
    if b == [] {
      assert a + b == a;
    } else {
      var n := |b| - 1;
      assert (a + b)[..|a + b| - 1] == a + b[..n];
      assert (a + b)[|a + b| - 1] == b[n];
      WrittenConcat(a, b[..n]);
    }
  }

  lemma {:induction false} BlanksUnwritten(blanks: seq<string>)
    requires forall i | 0 <= i < |blanks| :: TrimSpace(blanks[i]) == ""
    ensures Written(blanks) == []
    decreases |blanks|
  {
    if blanks != [] {
      BlanksUnwritten(blanks[..|blanks| - 1]);
    }
  }

  lemma OneWritten(line: string)
    ensures Written([line]) == if TrimSpace(line) == "" then [] else [line]
  {
    assert [line][..0] == [];
  }

  lemma EntryWritten(key: string, raw: string)
    requires BareKey(key) && LineValue(raw)
    ensures Written([Entry(key, raw)]) == [Entry(key, raw)]
  {
    EntryIsTrimmed(key, raw);
    OneWritten(Entry(key, raw));
  }

  lemma FramedWritten(f: Frame, e: string)
    requires Written([e]) == [e]
    ensures Written(Framed(f, e)) == Written(f.before) + [e] + Written(f.after)
  {
    WrittenConcat([e], f.after);
    WrittenConcat(f.before, [e] + f.after);
    assert Written(f.before) + ([e] + Written(f.after)) == Written(f.before) + [e] + Written(f.after);
  }

  /** Trimming the end of the file takes no line with anything on it. */
  lemma KeptWritten(content: string)
    ensures Written(Split(TrimNewlines(content))) == Written(Split(content))
  {
    var kept, blanks := KeptAndEmpties(content);
    WrittenConcat(kept, blanks);
    BlanksUnwritten(blanks);
  }

  lemma DroppedWritten(lines: seq<string>)
    ensures Written(DropBlankTail(lines)) == Written(lines)
  {
    var front, blanks := BlankTail(lines);
    WrittenConcat(front, blanks);
    BlanksUnwritten(blanks);
  }

  /** The written lines of a file after its line i has been replaced by others, or others put before it. */
  predicate Edited(before: seq<string>, after: seq<string>, i: nat, replaced: nat, put: seq<string>) {
    i + replaced <= |before| && Written(after) == Written(before[..i]) + put + Written(before[i + replaced..])
  }

  lemma EditsAt(lines: seq<string>, f: Frame, e: string, i: nat, replaced: nat)
    requires Written([e]) == [e] && i + replaced <= |lines|
    requires Written(f.before) == Written(lines[..i]) && Written(f.after) == Written(lines[i + replaced..])
    ensures Edited(lines, Framed(f, e), i, replaced, [e])
  {
    FramedWritten(f, e);
  }

  lemma TopEndEdits(content: string, e: string)
    requires Written([e]) == [e]
    ensures var lines, kept := Split(content), TrimNewlines(content);
      Edited(lines, Framed(Frame(if kept == "" then [] else Split(kept), [""]), e), |lines|, 0, [e])
  {
    var lines, kept := Split(content), TrimNewlines(content);
    KeptWritten(content);
    OneWritten("");
    assert lines[..|lines|] == lines && lines[|lines|..] == [];
    EditsAt(lines, Frame(if kept == "" then [] else Split(kept), [""]), e, |lines|, 0);
  }

  lemma BeforeFirstEdits(lines: seq<string>, top: nat, e: string)
    requires Written([e]) == [e] && top < |lines|
    ensures Edited(lines, Framed(Frame(DropBlankTail(lines[..top]), [""] + lines[top..]), e), top, 0, [e])
  {
    DroppedWritten(lines[..top]);
    WrittenConcat([""], lines[top..]);
    OneWritten("");
    EditsAt(lines, Frame(DropBlankTail(lines[..top]), [""] + lines[top..]), e, top, 0);
  }

  lemma HeaderAdded(kept: seq<string>, section: string)
    ensures Written(kept + ["", SectionHeader(section)]) == Written(kept) + [SectionHeader(section)]
  {
    var h := SectionHeader(section);
    HeaderIsHeader(section);
    WrittenConcat(kept, ["", h]);
    WrittenConcat([""], [h]);
    assert [""] + [h] == ["", h];
    OneWritten("");
    OneWritten(h);
  }

  lemma TwoPut(w: seq<string>, h: string, e: string)
    ensures w + [h] + [e] + [] == w + [h, e]
  {
  }

  lemma NewSectionWritten(kept: seq<string>, section: string, e: string)
    requires Written([e]) == [e]
    ensures Written(Framed(Frame(kept + ["", SectionHeader(section)], [""]), e)) == Written(kept) + [SectionHeader(section), e]
  {
    var h := SectionHeader(section);
    HeaderAdded(kept, section);
    FramedWritten(Frame(kept + ["", h], [""]), e);
    OneWritten("");
    TwoPut(Written(kept), h, e);
  }

  lemma AppendedEdits(lines: seq<string>, after: seq<string>, put: seq<string>)
    requires Written(after) == Written(lines) + put
    ensures Edited(lines, after, |lines|, 0, put)
  {
    assert lines[..|lines|] == lines && lines[|lines|..] == [];
    assert Written(lines) + put + [] == Written(lines) + put;
  }

  lemma NewSectionEdits(content: string, section: string, e: string)
    requires Written([e]) == [e]
    ensures var lines, h := Split(content), SectionHeader(section);
      Edited(lines, Framed(Frame(Split(TrimNewlines(content)) + ["", h], [""]), e), |lines|, 0, [h, e])
  {
    var lines, kept, h := Split(content), Split(TrimNewlines(content)), SectionHeader(section);
    KeptWritten(content);
    NewSectionWritten(kept, section, e);
    AppendedEdits(lines, Framed(Frame(kept + ["", h], [""]), e), [h, e]);
  }

  /** A patch keeps the written lines: its line goes over that of the key, or into a place of its own. */
  ghost predicate KeepsLines(lines: seq<string>, after: seq<string>, section: string, key: string, e: string) {
    || (exists i: nat :: i < |lines| && MatchesKey(lines[i], key) && Edited(lines, after, i, 1, [e]))
    || (exists i: nat :: Edited(lines, after, i, 0, [e]))
    || (section != "" && Edited(lines, after, |lines|, 0, [SectionHeader(section), e]))
  }

  lemma KeptAround(lines: seq<string>, after: seq<string>, section: string, key: string, e: string, i: nat, replaced: nat)
    requires Edited(lines, after, i, replaced, [e]) && replaced <= 1 && (replaced == 1 ==> MatchesKey(lines[i], key))
    ensures KeepsLines(lines, after, section, key, e)
  {
  }

  lemma ReplaceKeepsLines(content: string, section: string, key: string, e: string, i: nat)
    requires BareKey(key) && Written([e]) == [e] && PlaceOf(Split(content), section, key) == Replace(i)
    ensures KeepsLines(Split(content), Framed(FrameOf(content, section, key), e), section, key, e)
  {
    var lines, f := Split(content), FrameOf(content, section, key);
    PlaceSetsKey(lines, section, key, i);
    EditsAt(lines, f, e, i, 1);
    KeptAround(lines, Framed(f, e), section, key, e, i, 1);
  }

  lemma InsertKeepsLines(content: string, section: string, key: string, e: string, i: nat)
    requires Written([e]) == [e] && PlaceOf(Split(content), section, key) == AfterHeader(i)
    ensures KeepsLines(Split(content), Framed(FrameOf(content, section, key), e), section, key, e)
  {
    var lines, f := Split(content), FrameOf(content, section, key);
    EditsAt(lines, f, e, i, 0);
    KeptAround(lines, Framed(f, e), section, key, e, i, 0);
  }

  lemma TopKeepsLines(content: string, section: string, key: string, e: string, place: Place)
    requires Written([e]) == [e] && PlaceOf(Split(content), section, key) == place && (place.TopEnd? || place.BeforeFirst?)
    ensures KeepsLines(Split(content), Framed(FrameOf(content, section, key), e), section, key, e)
  {
    var lines, f := Split(content), FrameOf(content, section, key);
    if place.TopEnd? {
      TopEndEdits(content, e);
      KeptAround(lines, Framed(f, e), section, key, e, |lines|, 0);
    } else {
      BeforeFirstEdits(lines, place.at, e);
      KeptAround(lines, Framed(f, e), section, key, e, place.at, 0);
    }
  }

  lemma FrameKeepsLines(content: string, section: string, key: string, e: string)
    requires BareKey(key) && Written([e]) == [e]
    ensures KeepsLines(Split(content), Framed(FrameOf(content, section, key), e), section, key, e)
  {
    match PlaceOf(Split(content), section, key) {
      case Replace(i) => ReplaceKeepsLines(content, section, key, e, i);
      case AfterHeader(i) => InsertKeepsLines(content, section, key, e, i);
      case NewSection => NewSectionEdits(content, section, e);
      case TopEnd => TopKeepsLines(content, section, key, e, TopEnd);
      case BeforeFirst(top) => TopKeepsLines(content, section, key, e, BeforeFirst(top));
    }
  }

  /**
    Setting a key puts its line over the line that set it, or in a new place of its own,
    with the section's header before it where the section is new. Nothing else with
    anything on it is changed, moved or lost.
   */
  lemma SettingKeepsLines(content: string, section: string, key: string, raw: string)
    requires BareKey(key) && LineValue(raw) && NoNewline(section)
    ensures KeepsLines(Split(content), Split(Patch(content, section, key, raw)), section, key, Entry(key, raw))
  {
    PatchFrames(content, section, key, raw);
    EntryWritten(key, raw);
    FrameKeepsLines(content, section, key, Entry(key, raw));
  }

  /** Removing a key takes away the line that sets it, or nothing. */
  lemma RemovingKeepsLines(content: string, section: string, key: string)
    requires BareKey(key)
    ensures var lines, after := Split(content), Split(Patch(content, section, key, ""));
      || after == lines
      || (exists i: nat :: i < |lines| && MatchesKey(lines[i], key) && Edited(lines, after, i, 1, []))
  {
    var lines := Split(content);
    SplitIsClean(content);
    var place := PlaceOf(lines, section, key);
    if place.Replace? {
      var left := lines[..place.at] + lines[place.at + 1..];
      PlaceSetsKey(lines, section, key, place.at);
      JoinedWritten(left);
      WrittenConcat(lines[..place.at], lines[place.at + 1..]);
      assert Edited(lines, Split(Join(left)), place.at, 1, []) by {
        assert Written(lines[..place.at]) + [] == Written(lines[..place.at]);
      }
    }
  }

  lemma JoinedWritten(lines: seq<string>)
    requires CleanLines(lines)
    ensures Written(Split(Join(lines))) == Written(lines)
  {
    if lines == [] {
      OneWritten("");
    } else {
      SplitJoin(lines);
    }
  }
}
