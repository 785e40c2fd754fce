/** Normalization and scanner together: which tokens a source text yields once it is normalized. */
module NormalizedLayout {
  import opened Common
  import opened IndentScanner
  import opened ScannerRuns
  import opened ScannerLayout
  import opened Normalize

  /** What the scanner measures on a line is its leading width, in 16 bits. */
  lemma MeasureIsLeadingWidth(line: string)
    requires forall i :: 0 <= i < |line| ==> !IsBreak(line[i])
    ensures Measure(line, 0, 0).indent == LeadingWidth(line) % 65536
  {
    NoBreakNoEnd(line, 0);
    MeasureAddsWidth(line, 0, 0, |line|);
    assert line[0..|line|] == line;
  }

  lemma {:induction false} NoBreakNoEnd(line: string, pos: nat)
    requires pos <= |line| && forall i :: 0 <= i < |line| ==> !IsBreak(line[i])
    ensures LineEnd(line, pos) == |line|
    decreases |line| - pos
  {
    if pos < |line| {
      NoBreakNoEnd(line, pos + 1);
    }
  }

  /** The lines of a text are cut where the scanner's lines end. */
  lemma {:induction false} LinesFollowBreaks(text: string, pos: nat)
    requires pos <= |text|
    ensures var end := LineEnd(text, pos);
            && Lines(text[pos..])[0] == text[pos..end]
            && Lines(text[pos..])[1..] == if end == |text| then [] else Lines(text[end + 1..])
    decreases |text| - pos
  {
    if pos < |text| {
      assert text[pos..][0] == text[pos] && text[pos..][1..] == text[pos + 1..];
      LinesUnfold(text[pos..]);
      hide Lines;
      if !IsBreak(text[pos]) {
        LinesFollowBreaks(text, pos + 1);
        var end := LineEnd(text, pos);
        assert text[pos..end] == [text[pos]] + text[pos + 1..end];
      } else {
        assert text[pos..pos] == [];
      }
    } else {
      assert text[pos..] == [] && text[pos..pos] == [];
    }
  }

  lemma LinesUnfold(s: string)
    requires s != []
    ensures IsBreak(s[0]) ==> Lines(s)[0] == [] && Lines(s)[1..] == Lines(s[1..])
    ensures !IsBreak(s[0]) ==> Lines(s)[0] == [s[0]] + Lines(s[1..])[0] && Lines(s)[1..] == Lines(s[1..])[1..]
  {
  }

  function Wrapped(indents: seq<nat>): seq<int> {
    seq(|indents|, i requires 0 <= i < |indents| => indents[i] % 65536)
  }

  lemma WrappedConcat(a: seq<nat>, b: seq<nat>)
    ensures Wrapped(a + b) == Wrapped(a) + Wrapped(b)
  {
  }

  /** In normal form, a line that is not the last is empty or has ink, and the scanner's view of it is
      its ink indent. */
  lemma NormalLineIndent(t: string, start: nat)
    requires NormalForm(t) && start < |t|
    ensures LineEnd(t, start) < |t|
    ensures LineIndent(t, start) == Wrapped(InkIndent(t[start..LineEnd(t, start)]))
  {
    EndsAtBreak(t, start);
    var end := LineEnd(t, start);
    var line := t[start..end];
    if start < end {
      assert t[end] == '\n' && t[end - 1] != '\n' && !IsWhitespace(t[end - 1]);
      assert line[|line| - 1] == t[end - 1];
      assert HasInk(line) && !IsBlankLine(line);
    } else {
      assert line == [] && !HasInk(line) && IsBlankLine(line);
    }
  }

  lemma {:induction false} EndsAtBreak(t: string, pos: nat)
    requires NormalForm(t) && pos < |t|
    ensures LineEnd(t, pos) < |t| && t[LineEnd(t, pos)] == '\n'
    ensures forall i :: pos <= i < LineEnd(t, pos) ==> t[i] != '\n'
    decreases |t| - pos
  {
    if !IsBreak(t[pos]) {
      EndsAtBreak(t, pos + 1);
    }
  }

  /** The scanner sees, after the first line, every line with ink and the empty line at the end. */
  lemma {:induction false} NormalLineIndents(t: string, pos: nat)
    requires NormalForm(t) && pos < |t|
    ensures LineIndents(t, pos) == Wrapped(Indents(Lines(t[pos..])[1..])) + [0]
    decreases |t| - pos
  {
    hide NormalForm, LineIndent, Lines, Indents, InkIndent, Wrapped, LineEnd;
    EndsAtBreak(t, pos);
    LinesFollowBreaks(t, pos);
    var start := LineEnd(t, pos) + 1;
    if start == |t| {
      LastLineIsEmpty(t);
    } else {
      NormalLineIndents(t, start);
      NormalLineIndent(t, start);
      LinesFollowBreaks(t, start);
      FirstInk(Lines(t[start..]));
    }
  }

  lemma FirstInk(lines: seq<string>)
    requires lines != []
    ensures Wrapped(Indents(lines)) == Wrapped(InkIndent(lines[0])) + Wrapped(Indents(lines[1..]))
  {
    hide InkIndent;
    WrappedConcat(InkIndent(lines[0]), Indents(lines[1..]));
  }

  lemma LastLineIsEmpty(t: string)
    ensures LineIndent(t, |t|) == [0] && LineIndents(t, |t|) == []
    ensures Wrapped(Indents(Lines(t[|t|..]))) == []
  {
    assert t[|t|..|t|] == [] && t[|t|..] == [];
    hide Lines, Indents;
    EmptyHasNoInk();
  }

  lemma EmptyHasNoInk()
    ensures Indents(Lines([])) == []
  {
    assert Lines([]) == [[]] && !HasInk([]);
    OneLine([]);
  }

  // ── The first line stays first ──────────────────────────────────────────────

  lemma {:induction false} FirstOfJoined(lines: seq<string>)
    requires NoLineBreaks(lines) && lines != []
    ensures Split(Joined(lines))[0] == CleanLine(lines[0])
  {
    var init, last := lines[..|lines| - 1], lines[|lines| - 1];
    var l := CleanLine(last);
    JoinedIsTidy(init);
    CleanLineIsTidy(last);
    SplitAtBreak(Joined(init), l);
    SplitSnoc(Joined(init) + l);
    if init == [] {
      assert Split(Joined(init)) == [[]];
    } else {
      FirstOfJoined(init);
      TwoParts(Joined(init));
    }
  }

  lemma TwoParts(s: string)
    requires s != [] && s[|s| - 1] == '\n'
    ensures |Split(s)| >= 2
  {
    SplitSnoc(s[..|s| - 1]);
    assert s == s[..|s| - 1] + "\n";
  }

  lemma {:induction false} FirstOfCollapsed(s: string)
    ensures Split(Collapsed(s))[0] == Split(s)[0]
    decreases |s|
  {
    if EndsWithTwoNewlines(s) {
      FirstOfCollapsed(s[..|s| - 1]);
      SplitSnoc(s[..|s| - 1]);
      assert s == s[..|s| - 1] + "\n";
    }
  }

  lemma FirstLineKept(src: string)
    ensures InkIndent(Lines(Normalized(src))[0]) == InkIndent(Lines(src)[0])
  {
    var lines := Split(LineFeeds(src));
    LineFeedsKeepsLines(src);
    SourceLinesHaveNoBreaks(src);
    FirstOfJoined(lines);
    FirstOfCollapsed(Joined(lines));
    NormalizedIsNormal(src);
    SplitIsLines(Normalized(src));
    CleanLineKeepsIndent(lines[0]);
    OneLine(lines[0]);
    OneLine(CleanLine(lines[0]));
  }

  lemma OneLine(l: string)
    ensures Indents([l]) == InkIndent(l)
  {
    assert [l][1..] == [] && FlatMap(InkIndent, []) == [];
    assert FlatMap(InkIndent, [l]) == InkIndent(l) + FlatMap(InkIndent, [l][1..]);
  }

  lemma OtherLinesKept(src: string)
    ensures Indents(Lines(Normalized(src))[1..]) == Indents(Lines(src)[1..])
  {
    FirstLineKept(src);
    NormalizeKeepsIndents(src);
    var a, b := Lines(Normalized(src)), Lines(src);
    var head := InkIndent(b[0]);
    assert Indents(a) == head + Indents(a[1..]) && Indents(b) == head + Indents(b[1..]);
    assert Indents(a[1..]) == Indents(a)[|head|..] && Indents(b[1..]) == Indents(b)[|head|..];
  }

  /** The scanner's stream for a normalized source is the layout of the indents, as the author wrote
      them, of the lines with ink after the first, closed by the empty line at the end. */
  lemma NormalizedTokens(src: string)
    ensures Drive(INITIAL, Normalized(src), 0) == BoundedLayout([0], Wrapped(Indents(Lines(src)[1..])) + [0])
  {
    var t := Normalized(src);
    NormalizedIsNormal(src);
    OtherLinesKept(src);
    NormalLineIndents(t, 0);
    assert t[0..] == t;
    DriveIsBoundedLayout(INITIAL, t, 0);
  }

  /** Line endings, tabs, trailing whitespace and blank lines are invisible to the parser: sources with
      the same ink indents after the first line yield the same tokens. */
  lemma SameInkSameTokens(a: string, b: string)
    requires Indents(Lines(a)[1..]) == Indents(Lines(b)[1..])
    ensures Drive(INITIAL, Normalized(a), 0) == Drive(INITIAL, Normalized(b), 0)
  {
    NormalizedTokens(a);
    NormalizedTokens(b);
  }
}
