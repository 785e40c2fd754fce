/** The token stream of a whole text, against a declarative layout of its lines. */
module ScannerLayout {
  import opened Common
  import opened IndentScanner
  import opened ScannerRuns

  const ALL := ValidSymbols(true, true, true)

  /** Call the scanner at every position with all tokens acceptable, stepping over ordinary
      characters when it declines, until the text ends. */
  function Drive(s: State, text: string, pos: nat): seq<Token>
    requires Wellformed(s) && pos <= |text|
    decreases |text| - pos, Held(s)
  {
    ScanKeepsWellformed(s, text, pos, ALL);
    Progress(s, Call(text, pos, ALL));
    var r := ScanResult(s, text, pos, ALL);
    if r.token.Some? then [r.token.value] + Drive(r.state, text, r.pos)
    else if pos < |text| && !AtBreak(text, pos) then Drive(s, text, pos + 1)
    else []
  }

  // ── The declarative layout ──────────────────────────────────────────────────

  function LineEnd(text: string, pos: nat): (end: nat)
    requires pos <= |text|
    ensures pos <= end <= |text| && (end < |text| ==> IsBreak(text[end]))
    decreases |text| - pos
  {
    if pos == |text| || IsBreak(text[pos]) then pos else LineEnd(text, pos + 1)
  }

  function LeadingWidth(line: string): nat {
    if line == [] || !IsBlank(line[0]) then 0 else Width(line[0]) + LeadingWidth(line[1..])
  }

  predicate IsBlankLine(line: string) { forall i :: 0 <= i < |line| ==> IsBlank(line[i]) }

  /** The indent of the line starting at `start`, in 16 bits, if it matters. Blank lines do not; the
      empty line after a final break does. */
  function LineIndent(text: string, start: nat): seq<int>
    requires start <= |text|
  {
    var end := LineEnd(text, start);
    var line := text[start..end];
    var indent := LeadingWidth(line) % 65536;
    if IsBlankLine(line) && (end < |text| || indent > 0) then [] else [indent]
  }

  /** The indents of the lines after the next break, in order. */
  function LineIndents(text: string, pos: nat): seq<int>
    requires pos <= |text|
    decreases |text| - pos
  {
    var brk := LineEnd(text, pos);
    if brk == |text| then [] else LineIndent(text, brk + 1) + LineIndents(text, brk + 1)
  }

  function Repeat(t: Token, n: nat): seq<Token> { seq(n, _ => t) }

  /** How many open levels are deeper than `d`. */
  function Deeper(stack: seq<int>, d: int): (n: nat)
    ensures n <= |stack|
  {
    if stack == [] then 0 else Deeper(stack[..|stack| - 1], d) + if stack[|stack| - 1] > d then 1 else 0
  }

  predicate Opens(stack: seq<int>, d: int) { stack == [] || d > stack[|stack| - 1] }

  function Keeping(stack: seq<int>, d: int): seq<int> { stack[..|stack| - Deeper(stack, d)] }

  /** The tokens a line at indent `d` contributes when it opens no level: a DEDENT for each deeper
      level, and a NEWLINE when `d` is itself an open level. */
  function Closing(stack: seq<int>, d: int): seq<Token> {
    Repeat(Dedent, Deeper(stack, d)) + if d in stack then [Newline] else []
  }

  function Layout(stack: seq<int>, indents: seq<int>): seq<Token>
    decreases |indents|
  {
    if indents == [] then Repeat(Dedent, if stack == [] then 0 else |stack| - 1)
    else if Opens(stack, indents[0]) then [Indent] + Layout(stack + [indents[0]], indents[1..])
    else Closing(stack, indents[0]) + Layout(Keeping(stack, indents[0]), indents[1..])
  }

  /** How many levels are open at the deepest point. */
  function Depth(stack: seq<int>, indents: seq<int>): nat
    decreases |indents|
  {
    if indents == [] then |stack|
    else if Opens(stack, indents[0]) then Depth(stack + [indents[0]], indents[1..])
    else
      var d := Depth(Keeping(stack, indents[0]), indents[1..]);
      if d > |stack| then d else |stack|
  }

  // ── The layout with a bounded stack ─────────────────────────────────────────

  function Push(stack: seq<int>, d: int): seq<int> {
    if |stack| < MAX_INDENT_LEVELS then stack + [d] else stack
  }

  function Emitted(stack: seq<int>, d: int): seq<Token> {
    if Opens(stack, d) then [Indent] else Closing(stack, d)
  }

  function After(stack: seq<int>, d: int): seq<int> {
    if Opens(stack, d) then Push(stack, d) else Keeping(stack, d)
  }

  function BoundedLayout(stack: seq<int>, indents: seq<int>): seq<Token>
    decreases |indents|
  {
    if indents == [] then Repeat(Dedent, if stack == [] then 0 else |stack| - 1)
    else Emitted(stack, indents[0]) + BoundedLayout(After(stack, indents[0]), indents[1..])
  }

  predicate Indentable(indents: seq<int>) { forall i :: 0 <= i < |indents| ==> 0 <= indents[i] < 65536 }

  lemma {:induction false} NoneDeeper(stack: seq<int>, d: int)
    requires Levels(stack) && stack[|stack| - 1] <= d
    ensures Deeper(stack, d) == 0
  {
    if |stack| > 1 {
      NoneDeeper(stack[..|stack| - 1], d);
    }
  }

  /** Popping from the top removes exactly the deeper levels. */
  lemma {:induction false} PoppedIsKeeping(stack: seq<int>, d: int)
    requires Levels(stack) && 0 <= d
    ensures Popped(stack, d) == Keeping(stack, d)
    ensures d in stack <==> Popped(stack, d)[|Popped(stack, d)| - 1] == d
  {
    var init, last := stack[..|stack| - 1], stack[|stack| - 1];
    if |stack| > 1 && last > d {
      PoppedIsKeeping(init, d);
      DeeperOfInit(stack, d);
    } else {
      LevelsOrdered(stack);
      NoneDeeper(stack, d);
      hide Levels, Deeper;
    }
  }

  lemma DeeperOfInit(stack: seq<int>, d: int)
    requires stack != [] && stack[|stack| - 1] > d
    ensures Keeping(stack[..|stack| - 1], d) == Keeping(stack, d)
    ensures d in stack <==> d in stack[..|stack| - 1]
  {
    var init, last := stack[..|stack| - 1], stack[|stack| - 1];
    assert stack == init + [last];
  }

  lemma KeepingIsLevels(stack: seq<int>, d: int)
    requires Levels(stack) && 0 <= d
    ensures Levels(Keeping(stack, d)) && |Keeping(stack, d)| == |stack| - Deeper(stack, d) >= 1
  {
    PoppedIsKeeping(stack, d);
    PoppedIsLevels(stack, d);
  }

  // ── The driver follows the bounded layout, on every text ────────────────────

  lemma {:induction false} MeasureStopsInLine(text: string, pos: nat, indent: int, end: nat)
    requires pos <= end <= |text| && 0 <= indent < 65536 && end == LineEnd(text, pos)
    ensures var start := Measure(text, pos, indent).start;
            start <= end && LineEnd(text, start) == end && (start == end <==> IsBlankLine(text[pos..end]))
    decreases |text| - pos
  {
    var line := text[pos..end];
    if AtBlank(text, pos) {
      MeasureStopsInLine(text, pos + 1, (indent + Width(text[pos])) % 65536, end);
      assert line[0] == text[pos] && line[1..] == text[pos + 1..end];
      assert forall i :: 0 < i < |line| ==> line[i] == line[1..][i - 1];
    } else if pos < end {
      assert !IsBlank(line[0]);
    }
  }

  lemma WrapTwice(a: int, b: int)
    ensures (a % 65536 + b) % 65536 == (a + b) % 65536
  {
  }

  lemma {:induction false} MeasureAddsWidth(text: string, pos: nat, indent: int, end: nat)
    requires pos <= end <= |text| && 0 <= indent < 65536 && end == LineEnd(text, pos)
    ensures Measure(text, pos, indent).indent == (indent + LeadingWidth(text[pos..end])) % 65536
    decreases |text| - pos
  {
    if AtBlank(text, pos) {
      var w := Width(text[pos]);
      MeasureAddsWidth(text, pos + 1, (indent + w) % 65536, end);
      assert text[pos..end][1..] == text[pos + 1..end];
      WrapTwice(indent + w, LeadingWidth(text[pos + 1..end]));
    } else {
      assert LeadingWidth(text[pos..end]) == 0;
    }
  }

  lemma {:induction false} LineIndentsSkip(text: string, pos: nat, next: nat)
    requires pos <= next <= |text| && LineEnd(text, pos) == LineEnd(text, next)
    ensures LineIndents(text, pos) == LineIndents(text, next)
  {
  }

  lemma MeasuredLineIndent(text: string, start: nat)
    requires start <= |text|
    ensures var line := Measure(text, start, 0);
            LineIndent(text, start) ==
              if AtBreak(text, line.start) || (line.start == |text| && line.indent > 0) then [] else [line.indent]
  {
    var end := LineEnd(text, start);
    MeasureStopsInLine(text, start, 0, end);
    MeasureAddsWidth(text, start, 0, end);
  }

  /** Past the blanks of a line nothing changes for the lines after it. */
  lemma SkipBlanks(text: string, start: nat)
    requires start <= |text|
    ensures LineIndents(text, start) == LineIndents(text, Measure(text, start, 0).start)
  {
    MeasureStopsInLine(text, start, 0, LineEnd(text, start));
    LineIndentsSkip(text, start, Measure(text, start, 0).start);
  }

  /** Looking for the next line finds the next indent of the layout. */
  lemma {:induction false} NextLineIsNextIndent(text: string, pos: nat)
    requires AtBreak(text, pos)
    ensures var line := NextLine(text, pos);
            LineIndents(text, pos) ==
              (if line.start == |text| && line.indent > 0 then [] else [line.indent]) + LineIndents(text, line.start)
    decreases |text| - pos
  {
    hide LineIndent, Measure;
    var line := Measure(text, pos + 1, 0);
    calc {
      LineIndents(text, pos);
      LineIndent(text, pos + 1) + LineIndents(text, pos + 1);
      { SkipBlanks(text, pos + 1); }
      LineIndent(text, pos + 1) + LineIndents(text, line.start);
    }
    MeasuredLineIndent(text, pos + 1);
    if AtBreak(text, line.start) {
      NextLineIsNextIndent(text, line.start);
    }
  }

  lemma {:induction false} LineIndentsInRange(text: string, pos: nat)
    requires pos <= |text|
    ensures Indentable(LineIndents(text, pos))
    decreases |text| - pos
  {
    var brk := LineEnd(text, pos);
    if brk < |text| {
      LineIndentsInRange(text, brk + 1);
    }
  }

  lemma RepeatFirst(t: Token, n: nat)
    requires n > 0
    ensures Repeat(t, n) == [t] + Repeat(t, n - 1)
  {
  }

  lemma {:induction false} DriveAtEnd(s: State, text: string)
    requires Wellformed(s) && s.dedents == 0 && !s.newline
    ensures Drive(s, text, |text|) == Repeat(Dedent, |s.stack| - 1)
    decreases |s.stack|
  {
    if |s.stack| > 1 {
      DriveAtEnd(s.(stack := s.stack[..|s.stack| - 1]), text);
      RepeatFirst(Dedent, |s.stack| - 1);
    }
  }

  /** Queued tokens come out first. */
  lemma {:induction false} DriveQueued(s: State, text: string, pos: nat)
    requires Wellformed(s) && pos <= |text|
    ensures Drive(s, text, pos) ==
              Repeat(Dedent, s.dedents) + (if s.newline then [Newline] else [])
              + Drive(State(s.stack, 0, false), text, pos)
    decreases s.dedents
  {
    if s.dedents > 0 {
      DriveQueued(s.(dedents := s.dedents - 1), text, pos);
      RepeatFirst(Dedent, s.dedents);
    }
  }

  /** The driver's state between lines: nothing queued. */
  predicate AtRest(s: State, text: string, pos: nat, line: Line) {
    && Wellformed(s) && s.dedents == 0 && !s.newline && AtBreak(text, pos) && line == NextLine(text, pos)
    && (line.start < |text| || line.indent == 0)
  }

  lemma DriveOpening(s: State, text: string, pos: nat, line: Line)
    requires AtRest(s, text, pos, line) && line.indent > Top(s)
    ensures var next := State(After(s.stack, line.indent), 0, false);
            Wellformed(next) && Drive(s, text, pos) == Emitted(s.stack, line.indent) + Drive(next, text, line.start)
  {
    LevelsDeeper(s.stack, line.indent);
    assert ScanResult(s, text, pos, ALL) ==
           Scanned(State(After(s.stack, line.indent), 0, false), Some(Indent), line.start);
  }

  lemma ScanClosing(s: State, text: string, pos: nat, line: Line)
    requires AtRest(s, text, pos, line) && line.indent < Top(s)
    ensures Levels(Keeping(s.stack, line.indent)) && 0 < Deeper(s.stack, line.indent) < |s.stack|
    ensures ScanResult(s, text, pos, ALL) ==
              Scanned(State(Keeping(s.stack, line.indent), Deeper(s.stack, line.indent) - 1, line.indent in s.stack),
                      Some(Dedent), line.start)
  {
    KeepingIsLevels(s.stack, line.indent);
    PoppedIsKeeping(s.stack, line.indent);
  }

  lemma DriveClosing(s: State, text: string, pos: nat, line: Line)
    requires AtRest(s, text, pos, line) && line.indent < Top(s)
    ensures var next := State(After(s.stack, line.indent), 0, false);
            Wellformed(next) && Drive(s, text, pos) == Emitted(s.stack, line.indent) + Drive(next, text, line.start)
  {
    ScanClosing(s, text, pos, line);
    var n, nl := Deeper(s.stack, line.indent), if line.indent in s.stack then [Newline] else [];
    var queued := State(Keeping(s.stack, line.indent), n - 1, line.indent in s.stack);
    var rest := Drive(State(queued.stack, 0, false), text, line.start);
    calc {
      Drive(s, text, pos);
      [Dedent] + Drive(queued, text, line.start);
      { DriveQueued(queued, text, line.start); }
      [Dedent] + (Repeat(Dedent, n - 1) + nl + rest);
      { RepeatFirst(Dedent, n); }
      Repeat(Dedent, n) + nl + rest;
    }
  }

  lemma DriveSame(s: State, text: string, pos: nat, line: Line)
    requires AtRest(s, text, pos, line) && line.indent == Top(s)
    ensures var next := State(After(s.stack, line.indent), 0, false);
            Wellformed(next) && Drive(s, text, pos) == Emitted(s.stack, line.indent) + Drive(next, text, line.start)
  {
    NoneDeeper(s.stack, line.indent);
    assert Emitted(s.stack, line.indent) == [Newline] && After(s.stack, line.indent) == s.stack;
  }

  lemma DriveLine(s: State, text: string, pos: nat, line: Line)
    requires AtRest(s, text, pos, line)
    ensures var next := State(After(s.stack, line.indent), 0, false);
            Wellformed(next) && Drive(s, text, pos) == Emitted(s.stack, line.indent) + Drive(next, text, line.start)
  {
    if line.indent > Top(s) {
      DriveOpening(s, text, pos, line);
    } else if line.indent < Top(s) {
      DriveClosing(s, text, pos, line);
    } else {
      DriveSame(s, text, pos, line);
    }
  }

  /** On every text the emitted stream is the bounded layout of the line indents. */
  lemma {:induction false} DriveIsBoundedLayout(s: State, text: string, pos: nat)
    requires Wellformed(s) && s.dedents == 0 && !s.newline && pos <= |text|
    ensures Drive(s, text, pos) == BoundedLayout(s.stack, LineIndents(text, pos))
    decreases |text| - pos
  {
    hide Drive, BoundedLayout, LineIndents, Levels;
    if pos == |text| {
      NothingLeft(s, text);
    } else if !AtBreak(text, pos) {
      DriveIsBoundedLayout(s, text, pos + 1);
      StepOver(s, text, pos);
    } else {
      var line := NextLine(text, pos);
      if line.start == |text| && line.indent > 0 {
        TrailingBlankLine(s, text, pos);
      } else {
        DriveLine(s, text, pos, line);
        DriveIsBoundedLayout(State(After(s.stack, line.indent), 0, false), text, line.start);
        LayoutLine(s.stack, text, pos);
      }
    }
  }

  lemma NothingLeft(s: State, text: string)
    requires Wellformed(s) && s.dedents == 0 && !s.newline
    ensures Drive(s, text, |text|) == BoundedLayout(s.stack, LineIndents(text, |text|))
  {
    hide Drive, Levels;
    DriveAtEnd(s, text);
    LevelsOrdered(s.stack);
  }

  lemma StepOver(s: State, text: string, pos: nat)
    requires Wellformed(s) && s.dedents == 0 && !s.newline && pos < |text| && !AtBreak(text, pos)
    ensures Drive(s, text, pos) == Drive(s, text, pos + 1) && LineIndents(text, pos) == LineIndents(text, pos + 1)
  {
    hide LineIndent, Levels;
    LineIndentsSkip(text, pos, pos + 1);
  }

  lemma LayoutLine(stack: seq<int>, text: string, pos: nat)
    requires AtBreak(text, pos) && (NextLine(text, pos).start < |text| || NextLine(text, pos).indent == 0)
    ensures var line := NextLine(text, pos);
            BoundedLayout(stack, LineIndents(text, pos)) ==
              Emitted(stack, line.indent) + BoundedLayout(After(stack, line.indent), LineIndents(text, line.start))
  {
    hide LineIndents, NextLine, Emitted, After;
    NextLineIsNextIndent(text, pos);
    var line := NextLine(text, pos);
    var indents := LineIndents(text, pos);
    assert indents[0] == line.indent && indents[1..] == LineIndents(text, line.start);
  }

  lemma TrailingBlankLine(s: State, text: string, pos: nat)
    requires Wellformed(s) && s.dedents == 0 && !s.newline && AtBreak(text, pos)
    requires NextLine(text, pos).start == |text| && NextLine(text, pos).indent > 0
    ensures Drive(s, text, pos) == BoundedLayout(s.stack, LineIndents(text, pos))
  {
    LevelsOrdered(s.stack);
    NextLineIsNextIndent(text, pos);
    assert LineIndents(text, |text|) == [] && LineIndents(text, pos) == [];
    if |s.stack| > 1 {
      DriveAtEnd(s.(stack := s.stack[..|s.stack| - 1]), text);
      RepeatFirst(Dedent, |s.stack| - 1);
    }
  }

  // ── When the bound does not show ────────────────────────────────────────────

  function Overflows(stack: seq<int>, indents: seq<int>): nat
    decreases |indents|
  {
    if indents == [] then 0
    else
      (if Opens(stack, indents[0]) && |stack| >= MAX_INDENT_LEVELS then 1 else 0)
      + Overflows(After(stack, indents[0]), indents[1..])
  }

  lemma {:induction false} DepthAtLeastStack(stack: seq<int>, indents: seq<int>)
    ensures Depth(stack, indents) >= |stack|
    decreases |indents|
  {
    if indents != [] && Opens(stack, indents[0]) {
      DepthAtLeastStack(stack + [indents[0]], indents[1..]);
    }
  }

  lemma {:induction false} ShallowIsUnbounded(stack: seq<int>, indents: seq<int>)
    requires |stack| <= MAX_INDENT_LEVELS
    ensures Depth(stack, indents) <= MAX_INDENT_LEVELS ==> BoundedLayout(stack, indents) == Layout(stack, indents)
    ensures Depth(stack, indents) <= MAX_INDENT_LEVELS <==> Overflows(stack, indents) == 0
    decreases |indents|
  {
    if indents != [] {
      if Opens(stack, indents[0]) {
        DepthAtLeastStack(stack + [indents[0]], indents[1..]);
        if |stack| < MAX_INDENT_LEVELS {
          ShallowIsUnbounded(stack + [indents[0]], indents[1..]);
        }
      } else {
        ShallowIsUnbounded(Keeping(stack, indents[0]), indents[1..]);
      }
    }
  }

  lemma BalanceConcat(a: seq<Token>, b: seq<Token>)
    ensures Balance(a + b) == Balance(a) + Balance(b)
  {
    assert multiset(a + b) == multiset(a) + multiset(b);
  }

  lemma {:induction false} BalanceRepeat(n: nat)
    ensures Balance(Repeat(Dedent, n)) == 0 - n
  {
    if n > 0 {
      RepeatFirst(Dedent, n);
      BalanceConcat([Dedent], Repeat(Dedent, n - 1));
      BalanceRepeat(n - 1);
    }
  }

  lemma BalanceClosing(stack: seq<int>, d: int)
    ensures Balance(Closing(stack, d)) == 0 - Deeper(stack, d)
  {
    BalanceRepeat(Deeper(stack, d));
    BalanceConcat(Repeat(Dedent, Deeper(stack, d)), if d in stack then [Newline] else []);
  }

  lemma {:induction false} BoundedBalance(stack: seq<int>, indents: seq<int>)
    requires Levels(stack) && Indentable(indents)
    ensures Balance(BoundedLayout(stack, indents)) == 1 - |stack| + Overflows(stack, indents)
    decreases |indents|
  {
    if indents == [] {
      BalanceRepeat(|stack| - 1);
    } else {
      var d, rest := indents[0], indents[1..];
      if Opens(stack, d) {
        LevelsDeeper(stack, d);
        BoundedBalance(Push(stack, d), rest);
        BalanceConcat([Indent], BoundedLayout(Push(stack, d), rest));
      } else {
        KeepingIsLevels(stack, d);
        BoundedBalance(Keeping(stack, d), rest);
        BalanceClosing(stack, d);
        BalanceConcat(Closing(stack, d), BoundedLayout(Keeping(stack, d), rest));
      }
    }
  }

  lemma {:induction false} LayoutBalance(stack: seq<int>, indents: seq<int>)
    requires Levels(stack) && Indentable(indents)
    ensures Balance(Layout(stack, indents)) == 1 - |stack|
    decreases |indents|
  {
    if indents == [] {
      BalanceRepeat(|stack| - 1);
    } else {
      var d, rest := indents[0], indents[1..];
      if Opens(stack, d) {
        LevelsDeeper(stack, d);
        LayoutBalance(stack + [d], rest);
        BalanceConcat([Indent], Layout(stack + [d], rest));
      } else {
        KeepingIsLevels(stack, d);
        LayoutBalance(Keeping(stack, d), rest);
        BalanceClosing(stack, d);
        BalanceConcat(Closing(stack, d), Layout(Keeping(stack, d), rest));
      }
    }
  }

  /** The scanner's stream for a text is the layout of its lines, and balanced, exactly when the
      lines never nest more than 64 levels deep. */
  lemma ScannerRefinesLayout(text: string)
    ensures var indents := LineIndents(text, 0);
            var tokens := Drive(INITIAL, text, 0);
            && (tokens == Layout([0], indents) <==> Depth([0], indents) <= MAX_INDENT_LEVELS)
            && (Balance(tokens) == 0 <==> Depth([0], indents) <= MAX_INDENT_LEVELS)
  {
    var indents := LineIndents(text, 0);
    DriveIsBoundedLayout(INITIAL, text, 0);
    LineIndentsInRange(text, 0);
    ShallowIsUnbounded([0], indents);
    BoundedBalance([0], indents);
    LayoutBalance([0], indents);
  }

  // ── A text that nests too deep ──────────────────────────────────────────────

  function Spaces(n: nat): string { seq(n, _ => ' ') }

  /** Lines indented by `from`, `from + 1` and so on, `n` of them. */
  function Stairs(from: nat, n: nat): (text: string)
    ensures n > 0 ==> text != [] && text[0] == '\n'
    ensures n == 0 ==> text == []
    decreases n
  {
    if n == 0 then [] else ['\n'] + Spaces(from) + ['x'] + Stairs(from + 1, n - 1)
  }

  function Steps(from: nat, n: nat): seq<int> { seq(n, i => from + i) }

  lemma {:induction false} LineEndShift(a: string, b: string, pos: nat)
    requires pos <= |b|
    ensures LineEnd(a + b, |a| + pos) == |a| + LineEnd(b, pos)
    decreases |b| - pos
  {
    if pos < |b| {
      assert (a + b)[|a| + pos] == b[pos];
      if !IsBreak(b[pos]) {
        LineEndShift(a, b, pos + 1);
      }
    }
  }

  lemma LineIndentShift(a: string, b: string, start: nat)
    requires start <= |b|
    ensures LineIndent(a + b, |a| + start) == LineIndent(b, start)
  {
    hide LineEnd;
    LineEndShift(a, b, start);
    var end := LineEnd(b, start);
    assert (a + b)[|a| + start..|a| + end] == b[start..end];
  }

  /** The lines after a prefix do not depend on it. */
  lemma {:induction false} LineIndentsShift(a: string, b: string, pos: nat)
    requires pos <= |b|
    ensures LineIndents(a + b, |a| + pos) == LineIndents(b, pos)
    decreases |b| - pos
  {
    hide LineEnd, LineIndent;
    LineEndShift(a, b, pos);
    var brk := LineEnd(b, pos);
    if brk < |b| {
      LineIndentShift(a, b, brk + 1);
      LineIndentsShift(a, b, brk + 1);
      assert |a| + (brk + 1) == (|a| + brk) + 1;
    }
  }

  lemma {:induction false} EndAfter(line: string, rest: string, pos: nat)
    requires pos <= |line| && (rest == [] || IsBreak(rest[0])) && (forall i :: 0 <= i < |line| ==> !IsBreak(line[i]))
    ensures LineEnd(line + rest, pos) == |line|
    decreases |line| - pos
  {
    if pos < |line| {
      EndAfter(line, rest, pos + 1);
    }
  }

  lemma {:induction false} WidthOfSpaces(n: nat)
    ensures LeadingWidth(Spaces(n) + ['x']) == n
  {
    if n > 0 {
      assert (Spaces(n) + ['x'])[1..] == Spaces(n - 1) + ['x'];
      WidthOfSpaces(n - 1);
    }
  }

  /** The indent of a first line with ink, and what follows it. */
  lemma FirstLine(line: string, rest: string)
    requires line != [] && !IsBlank(line[|line| - 1]) && (rest == [] || IsBreak(rest[0]))
    requires forall i :: 0 <= i < |line| ==> !IsBreak(line[i])
    ensures LineIndents(['\n'] + line + rest, 0) == [LeadingWidth(line) % 65536] + LineIndents(rest, 0)
  {
    var text := ['\n'] + line + rest;
    hide LineIndents, LeadingWidth;
    assert text == ['\n'] + (line + rest);
    EndAfter(line, rest, 0);
    LineEndShift(['\n'], line + rest, 0);
    assert LineEnd(text, 1) == 1 + |line| && text[1..1 + |line|] == line;
    assert LineIndent(text, 1) == [LeadingWidth(line) % 65536];
    RestOfLines(line, rest);
    assert LineEnd(text, 0) == 0;
    FirstThenRest(text);
  }

  lemma FirstThenRest(text: string)
    requires text != [] && IsBreak(text[0])
    ensures LineIndents(text, 0) == LineIndent(text, 1) + LineIndents(text, 1)
  {
    hide LineIndent;
  }

  lemma RestOfLines(line: string, rest: string)
    requires (rest == [] || IsBreak(rest[0])) && (forall i :: 0 <= i < |line| ==> !IsBreak(line[i]))
    ensures LineIndents(['\n'] + line + rest, 1) == LineIndents(rest, 0)
  {
    var head := ['\n'] + line;
    hide LineIndent, LineIndents;
    assert head + rest == ['\n'] + (line + rest);
    EndAfter(line, rest, 0);
    LineEndShift(['\n'], line + rest, 0);
    LineEndShift(head, rest, 0);
    LineIndentsShift(head, rest, 0);
    LineIndentsSkip(head + rest, 1, |head|);
  }

  lemma {:induction false} StairIndents(from: nat, n: nat)
    requires from + n <= 65536
    ensures LineIndents(Stairs(from, n), 0) == Steps(from, n)
    decreases n
  {
    hide LineIndents, LeadingWidth, LineEnd;
    if n == 0 {
      NoLines();
    } else {
      StairIndents(from + 1, n - 1);
      OneStair(from, n);
      assert Steps(from, n) == [from] + Steps(from + 1, n - 1);
    }
  }

  lemma NoLines()
    ensures LineIndents([], 0) == []
  {
  }

  lemma OneStair(from: nat, n: nat)
    requires 0 < n && from < 65536
    ensures LineIndents(Stairs(from, n), 0) == [from] + LineIndents(Stairs(from + 1, n - 1), 0)
  {
    hide LineIndents, LeadingWidth, LineEnd;
    var line, rest := Spaces(from) + ['x'], Stairs(from + 1, n - 1);
    assert ['\n'] + line + rest == Stairs(from, n);
    WidthOfSpaces(from);
    FirstLine(line, rest);
  }

  lemma {:induction false} StairDepth(stack: seq<int>, from: nat, n: nat)
    requires stack == [] || stack[|stack| - 1] < from
    ensures Depth(stack, Steps(from, n)) == |stack| + n
    decreases n
  {
    if n > 0 {
      assert Steps(from, n)[1..] == Steps(from + 1, n - 1);
      StairDepth(stack + [from], from + 1, n - 1);
    }
  }

  /** Where it fails: a staircase of `n` lines opens `n + 1` levels, so that from 64 lines on the stream
      is neither the layout nor balanced. */
  lemma DeepStairsUnbalance(n: nat)
    requires 1 + n <= 65536
    ensures var tokens := Drive(INITIAL, Stairs(1, n), 0);
            && (tokens == Layout([0], Steps(1, n)) <==> n < MAX_INDENT_LEVELS)
            && (Balance(tokens) == 0 <==> n < MAX_INDENT_LEVELS)
  {
    StairIndents(1, n);
    StairDepth([0], 1, n);
    ScannerRefinesLayout(Stairs(1, n));
  }
}
