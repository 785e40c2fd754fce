/** Source-text normalization, done before the text reaches the parser. */
module Normalize {
  import opened IndentScanner
  import opened ScannerLayout

  /** Rust's `char::is_whitespace`: the Unicode White_Space property. */
  predicate IsWhitespace(c: char) {
    || '\t' <= c <= '\r' || c == ' ' || c == '\U{0085}' || c == '\U{00A0}' || c == '\U{1680}'
    || '\U{2000}' <= c <= '\U{200A}' || c == '\U{2028}' || c == '\U{2029}' || c == '\U{202F}'
    || c == '\U{205F}' || c == '\U{3000}'
  }

  // ── The library calls the loop is made of ───────────────────────────────────

  /** `replace("\r\n", "\n")` followed by `replace('\r', "\n")`. */
  function LineFeeds(s: string): string {
    if s == [] then []
    else if s[0] == '\r' then ['\n'] + LineFeeds(if |s| > 1 && s[1] == '\n' then s[2..] else s[1..])
    else [s[0]] + LineFeeds(s[1..])
  }

  /** `split('\n')`: one more part than there are separators. */
  function Split(s: string): (parts: seq<string>)
    ensures |parts| >= 1
    ensures forall i :: 0 <= i < |parts| ==> '\n' !in parts[i]
  {
    if s == [] then [[]]
    else if s[0] == '\n' then [[]] + Split(s[1..])
    else
      var rest := Split(s[1..]);
      [[s[0]] + rest[0]] + rest[1..]
  }

  function ExpandTabs(line: string): string {
    if line == [] then []
    else (if line[0] == '\t' then "  " else [line[0]]) + ExpandTabs(line[1..])
  }

  function TrimEnd(line: string): string {
    if line == [] || !IsWhitespace(line[|line| - 1]) then line else TrimEnd(line[..|line| - 1])
  }

  function CleanLine(line: string): string { TrimEnd(ExpandTabs(line)) }

  /** Every line cleaned and ended by a line feed. */
  function Joined(lines: seq<string>): string {
    if lines == [] then []
    else Joined(lines[..|lines| - 1]) + CleanLine(lines[|lines| - 1]) + "\n"
  }

  predicate EndsWithTwoNewlines(s: string) {
    |s| >= 2 && s[|s| - 1] == '\n' && s[|s| - 2] == '\n'
  }

  function Collapsed(s: string): string {
    if EndsWithTwoNewlines(s) then Collapsed(s[..|s| - 1]) else s
  }

  function Normalized(src: string): string { Collapsed(Joined(Split(LineFeeds(src)))) }

  method NormalizeSource(src: string) returns (result: string)
    ensures result == Normalized(src)
  {
    var lines := Split(LineFeeds(src));
    result := [];
    for i := 0 to |lines|
      invariant result == Joined(lines[..i])
    {
      assert lines[..i + 1][..i] == lines[..i];
      var expanded := ExpandTabs(lines[i]);
      result := result + TrimEnd(expanded) + "\n";
    }
    assert lines[..|lines|] == lines;
    while EndsWithTwoNewlines(result)
      invariant Collapsed(result) == Normalized(src)
      decreases |result|
    {
      result := result[..|result| - 1];
    }
  }

  // ── The normal form ─────────────────────────────────────────────────────────

  /** No trailing whitespace before any line feed, no tab and no carriage return. */
  predicate Tidy(t: string) {
    && (forall i :: 0 <= i < |t| ==> t[i] != '\r' && t[i] != '\t')
    && (forall i :: 0 < i < |t| && t[i] == '\n' ==> t[i - 1] == '\n' || !IsWhitespace(t[i - 1]))
  }

  predicate NormalForm(t: string) {
    Tidy(t) && t != [] && t[|t| - 1] == '\n' && !EndsWithTwoNewlines(t)
  }

  predicate TidyLine(l: string) {
    && (forall i :: 0 <= i < |l| ==> l[i] != '\r' && l[i] != '\t' && l[i] != '\n')
    && (l != [] ==> !IsWhitespace(l[|l| - 1]))
  }

  lemma {:induction false} ExpandTabsTidies(l: string)
    requires '\n' !in l && '\r' !in l
    ensures forall i :: 0 <= i < |ExpandTabs(l)| ==> ExpandTabs(l)[i] !in {'\n', '\r', '\t'}
  {
    if l != [] {
      ExpandTabsTidies(l[1..]);
    }
  }

  lemma {:induction false} TrimEndIsPrefix(l: string)
    ensures TrimEnd(l) <= l
    ensures TrimEnd(l) != [] ==> !IsWhitespace(TrimEnd(l)[|TrimEnd(l)| - 1])
    ensures forall i :: |TrimEnd(l)| <= i < |l| ==> IsWhitespace(l[i])
  {
    if l != [] && IsWhitespace(l[|l| - 1]) {
      TrimEndIsPrefix(l[..|l| - 1]);
    }
  }

  lemma CleanLineIsTidy(l: string)
    requires '\n' !in l && '\r' !in l
    ensures TidyLine(CleanLine(l))
  {
    ExpandTabsTidies(l);
    TrimEndIsPrefix(ExpandTabs(l));
    var e, t := ExpandTabs(l), CleanLine(l);
    assert forall i :: 0 <= i < |t| ==> t[i] == e[i];
  }

  lemma {:induction false} LineFeedsHasNoCr(s: string)
    ensures '\r' !in LineFeeds(s)
    decreases |s|
  {
    if s != [] {
      LineFeedsHasNoCr(if s[0] == '\r' && |s| > 1 && s[1] == '\n' then s[2..] else s[1..]);
    }
  }

  lemma {:induction false} SplitKeepsOut(s: string, c: char)
    requires c !in s
    ensures forall i :: 0 <= i < |Split(s)| ==> c !in Split(s)[i]
  {
    if s != [] {
      SplitKeepsOut(s[1..], c);
    }
  }

  predicate NoLineBreaks(lines: seq<string>) {
    forall i :: 0 <= i < |lines| ==> '\n' !in lines[i] && '\r' !in lines[i]
  }

  lemma AppendTidyLine(t: string, l: string)
    requires Tidy(t) && (t != [] ==> t[|t| - 1] == '\n') && TidyLine(l)
    ensures Tidy(t + l + "\n")
  {
    var u := t + l + "\n";
    forall i | 0 < i < |u| && u[i] == '\n'
      ensures u[i - 1] == '\n' || !IsWhitespace(u[i - 1])
    {
      if i < |t| {
        assert u[i] == t[i] && u[i - 1] == t[i - 1];
      } else if i < |t| + |l| {
        assert u[i] == l[i - |t|];
      } else if l == [] {
        assert u[i - 1] == t[i - 1];
      } else {
        assert u[i - 1] == l[|l| - 1];
      }
    }
  }

  lemma {:induction false} JoinedIsTidy(lines: seq<string>)
    requires NoLineBreaks(lines)
    ensures Tidy(Joined(lines)) && (lines != [] ==> Joined(lines) != [])
    ensures Joined(lines) != [] ==> Joined(lines)[|Joined(lines)| - 1] == '\n'
  {
    if lines != [] {
      var init, last := lines[..|lines| - 1], lines[|lines| - 1];
      JoinedIsTidy(init);
      CleanLineIsTidy(last);
      AppendTidyLine(Joined(init), CleanLine(last));
    }
  }

  lemma {:induction false} CollapsedIsNormal(t: string)
    requires Tidy(t) && t != [] && t[|t| - 1] == '\n'
    ensures NormalForm(Collapsed(t))
  {
    if EndsWithTwoNewlines(t) {
      CollapsedIsNormal(t[..|t| - 1]);
    }
  }

  lemma SourceLinesHaveNoBreaks(src: string)
    ensures NoLineBreaks(Split(LineFeeds(src)))
  {
    LineFeedsHasNoCr(src);
    SplitKeepsOut(LineFeeds(src), '\r');
  }

  /** Whatever the input: no carriage return, no tab, no trailing whitespace, one final line feed. */
  lemma NormalizedIsNormal(src: string)
    ensures NormalForm(Normalized(src))
  {
    SourceLinesHaveNoBreaks(src);
    JoinedIsTidy(Split(LineFeeds(src)));
    CollapsedIsNormal(Joined(Split(LineFeeds(src))));
  }

  // ── Idempotence ─────────────────────────────────────────────────────────────

  lemma {:induction false} LineFeedsFixed(s: string)
    requires '\r' !in s
    ensures LineFeeds(s) == s
  {
    if s != [] {
      LineFeedsFixed(s[1..]);
    }
  }

  lemma {:induction false} ExpandTabsFixed(l: string)
    requires '\t' !in l
    ensures ExpandTabs(l) == l
  {
    if l != [] {
      ExpandTabsFixed(l[1..]);
    }
  }

  /** Appending a line feed appends an empty part. */
  lemma {:induction false} SplitSnoc(s: string)
    ensures Split(s + "\n") == Split(s) + [[]]
  {
    if s == [] {
      assert (s + "\n")[1..] == [];
      assert Split(s + "\n") == [[]] + Split([]);
    } else {
      assert (s + "\n")[1..] == s[1..] + "\n";
      SplitSnoc(s[1..]);
      var rest := Split(s[1..]);
      assert (rest + [[]])[1..] == rest[1..] + [[]] && (rest + [[]])[0] == rest[0];
    }
  }

  /** Appending a character extends the last part. */
  lemma {:induction false} SplitExtend(s: string, c: char)
    requires c != '\n'
    ensures var p := Split(s); Split(s + [c]) == p[..|p| - 1] + [p[|p| - 1] + [c]]
  {
    var p := Split(s);
    if s == [] {
      assert (s + [c])[1..] == [];
      var rest := Split([]);
      assert p == rest && |rest| == 1 && rest[0] == [];
      assert [c] + rest[0] == [c] == p[0] + [c];
    } else {
      assert (s + [c])[1..] == s[1..] + [c];
      SplitExtend(s[1..], c);
      var q := Split(s[1..]);
      var q' := q[..|q| - 1] + [q[|q| - 1] + [c]];
      if s[0] == '\n' {
        assert [[]] + q' == p[..|p| - 1] + [p[|p| - 1] + [c]];
      } else if |q| == 1 {
        assert [s[0]] + (q[0] + [c]) == ([s[0]] + q[0]) + [c];
        assert [[s[0]] + q'[0]] + q'[1..] == p[..|p| - 1] + [p[|p| - 1] + [c]];
      } else {
        assert [[s[0]] + q'[0]] + q'[1..] == p[..|p| - 1] + [p[|p| - 1] + [c]];
      }
    }
  }

  /** Re-joining the parts of tidy text gives the text back, with one line feed more. */
  lemma {:induction false} JoinedSplit(t: string)
    requires Tidy(t)
    ensures var p := Split(t);
            Joined(p[..|p| - 1]) + p[|p| - 1] == t
  {
    if t == [] {
      assert Split(t) == [[]];
    } else {
      var init, c := t[..|t| - 1], t[|t| - 1];
      assert t == init + [c];
      JoinedSplit(init);
      var p := Split(init);
      if c == '\n' {
        SplitSnoc(init);
        assert Split(t)[..|p|] == p;
        LastPartIsClean(init);
        assert CleanLine(p[|p| - 1]) == p[|p| - 1];
        assert Joined(p) == Joined(p[..|p| - 1]) + p[|p| - 1] + "\n";
      } else {
        SplitExtend(init, c);
        assert Split(t)[..|p| - 1] == p[..|p| - 1];
      }
    }
  }

  /** Before a line feed of tidy text, the last part is already clean. */
  lemma LastPartIsClean(init: string)
    requires Tidy(init + "\n")
    ensures var p := Split(init); CleanLine(p[|p| - 1]) == p[|p| - 1]
  {
    var t := init + "\n";
    var p := Split(init);
    var last := p[|p| - 1];
    forall i | 0 <= i < |init|
      ensures init[i] != '\t'
    {
      assert t[i] == init[i];
    }
    SplitKeepsOut(init, '\t');
    ExpandTabsFixed(last);
    LastPartIsSuffix(init);
    if last != [] {
      assert last[|last| - 1] == init[|init| - 1] == t[|t| - 2];
      assert t[|t| - 1] == '\n';
    }
  }

  lemma {:induction false} LastPartIsSuffix(s: string)
    ensures var p := Split(s); var last := p[|p| - 1];
            |last| <= |s| && last == s[|s| - |last|..]
  {
    if s != [] {
      LastPartIsSuffix(s[1..]);
      var q := Split(s[1..]);
      var last := q[|q| - 1];
      assert last == s[1..][|s[1..]| - |last|..] == s[|s| - |last|..];
      if s[0] != '\n' && |q| == 1 {
        SingletonSplit(s[1..]);
      }
    }
  }

  lemma {:induction false} SingletonSplit(s: string)
    ensures |Split(s)| == 1 ==> Split(s)[0] == s
  {
    if s != [] {
      SingletonSplit(s[1..]);
    }
  }

  lemma RejoinNormalForm(t: string)
    requires NormalForm(t)
    ensures Joined(Split(t)) == t + "\n"
  {
    JoinedSplit(t);
    var p, init := Split(t), t[..|t| - 1];
    assert t == init + "\n";
    SplitSnoc(init);
    assert p[|p| - 1] == [] && CleanLine([]) == [];
    assert t + [] + "\n" == t + "\n";
  }

  /** Text in normal form is left alone. */
  lemma NormalFormIsFixed(t: string)
    requires NormalForm(t)
    ensures Normalized(t) == t
  {
    LineFeedsFixed(t);
    RejoinNormalForm(t);
    var u := t + "\n";
    assert EndsWithTwoNewlines(u) && u[..|u| - 1] == t;
    assert Collapsed(u) == Collapsed(t);
  }

  lemma {:induction false} NormalizeIdempotent(src: string)
    ensures Normalized(Normalized(src)) == Normalized(src)
  {
    NormalizedIsNormal(src);
    NormalFormIsFixed(Normalized(src));
  }

  // ── Indentation is kept ─────────────────────────────────────────────────────

  predicate HasInk(line: string) { exists i :: 0 <= i < |line| && !IsWhitespace(line[i]) }

  /** Lines as the scanner sees them: every carriage return and every line feed ends one. */
  function Lines(s: string): (parts: seq<string>)
    ensures |parts| >= 1
  {
    if s == [] then [[]]
    else if IsBreak(s[0]) then [[]] + Lines(s[1..])
    else
      var rest := Lines(s[1..]);
      [[s[0]] + rest[0]] + rest[1..]
  }

  /** The indent of a line with a non-whitespace character, by the scanner's widths. */
  function InkIndent(line: string): seq<nat> {
    if HasInk(line) then [LeadingWidth(line)] else []
  }

  function FlatMap(f: string -> seq<nat>, lines: seq<string>): seq<nat> {
    if lines == [] then [] else f(lines[0]) + FlatMap(f, lines[1..])
  }

  function Indents(lines: seq<string>): seq<nat> { FlatMap(InkIndent, lines) }

  lemma {:induction false} FlatMapConcat(f: string -> seq<nat>, a: seq<string>, b: seq<string>)
    ensures FlatMap(f, a + b) == FlatMap(f, a) + FlatMap(f, b)
  {
    if a == [] {
      assert a + b == b;
    } else {
      assert (a + b)[1..] == a[1..] + b;
      FlatMapConcat(f, a[1..], b);
    }
  }

  lemma IndentsConcat(a: seq<string>, b: seq<string>)
    ensures Indents(a + b) == Indents(a) + Indents(b)
  {
    FlatMapConcat(InkIndent, a, b);
  }

  /** Converting line endings only merges or keeps blank lines. */
  lemma {:induction false} LineFeedsKeepsLines(s: string)
    ensures Lines(s)[0] == Split(LineFeeds(s))[0]
    ensures Indents(Lines(s)[1..]) == Indents(Split(LineFeeds(s))[1..])
    decreases |s|
  {
    if s != [] {
      if s[0] == '\r' && |s| > 1 && s[1] == '\n' {
        LineFeedsKeepsLines(s[2..]);
        assert LineFeeds(s)[1..] == LineFeeds(s[2..]);
        assert s[1..][1..] == s[2..];
        assert Lines(s)[1..] == [[]] + Lines(s[2..]);
        assert ([[]] + Lines(s[2..]))[1..] == Lines(s[2..]);
        WholeFromParts(s[2..]);
      } else {
        LineFeedsKeepsLines(s[1..]);
        assert LineFeeds(s)[1..] == LineFeeds(s[1..]);
        WholeFromParts(s[1..]);
      }
    }
  }

  lemma WholeFromParts(s: string)
    ensures var a, b := Lines(s), Split(LineFeeds(s));
            a[0] == b[0] && Indents(a[1..]) == Indents(b[1..]) ==> Indents(a) == Indents(b)
  {
  }

  lemma {:induction false} SplitIsLines(s: string)
    requires '\r' !in s
    ensures Split(s) == Lines(s)
  {
    if s != [] {
      SplitIsLines(s[1..]);
    }
  }

  lemma {:induction false} ExpandKeepsIndent(l: string)
    ensures LeadingWidth(ExpandTabs(l)) == LeadingWidth(l) && (HasInk(ExpandTabs(l)) <==> HasInk(l))
  {
    if l != [] {
      var e := ExpandTabs(l[1..]);
      ExpandKeepsIndent(l[1..]);
      InkOfConcat([l[0]], l[1..]);
      assert l == [l[0]] + l[1..];
      if l[0] == '\t' {
        InkOfConcat("  ", e);
        assert ("  " + e)[1..] == " " + e && (" " + e)[1..] == e;
        assert !HasInk("  ") && !HasInk([l[0]]);
      } else {
        InkOfConcat([l[0]], e);
        assert ([l[0]] + e)[1..] == e;
      }
    }
  }

  lemma InkOfConcat(a: string, b: string)
    ensures HasInk(a + b) <==> HasInk(a) || HasInk(b)
  {
    if HasInk(a) {
      var i :| 0 <= i < |a| && !IsWhitespace(a[i]);
      assert (a + b)[i] == a[i];
    }
    if HasInk(b) {
      var i :| 0 <= i < |b| && !IsWhitespace(b[i]);
      assert (a + b)[|a| + i] == b[i];
    }
  }

  lemma {:induction false} IndentOfPrefix(p: string, l: string)
    requires p <= l && HasInk(p)
    ensures LeadingWidth(p) == LeadingWidth(l)
  {
    if p[0] == ' ' || p[0] == '\t' {
      assert p == [p[0]] + p[1..];
      InkOfConcat([p[0]], p[1..]);
      IndentOfPrefix(p[1..], l[1..]);
    }
  }

  lemma TrimKeepsIndent(l: string)
    ensures HasInk(TrimEnd(l)) <==> HasInk(l)
    ensures HasInk(l) ==> LeadingWidth(TrimEnd(l)) == LeadingWidth(l)
  {
    TrimEndIsPrefix(l);
    var t := TrimEnd(l);
    if HasInk(l) {
      var i :| 0 <= i < |l| && !IsWhitespace(l[i]);
      assert t[i] == l[i];
      IndentOfPrefix(t, l);
    }
  }

  lemma CleanLineKeepsIndent(l: string)
    ensures Indents([CleanLine(l)]) == Indents([l])
  {
    ExpandKeepsIndent(l);
    TrimKeepsIndent(ExpandTabs(l));
    assert [l][1..] == [] && [CleanLine(l)][1..] == [];
  }

  lemma {:induction false} SplitLine(s: string, l: string)
    requires '\n' !in l && (s == [] || s[|s| - 1] == '\n')
    ensures Indents(Split(s + l + "\n")) == Indents(Split(s)) + Indents([l])
    decreases |l|
  {
    SplitSnoc(s + l);
    IndentsConcat(Split(s + l), [[]]);
    assert !HasInk([]) && Indents([[]]) == [];
    SplitAtBreak(s, l);
    var p := Split(s);
    IndentsConcat(p[..|p| - 1], [l]);
    IndentsConcat(p[..|p| - 1], [[]]);
    assert p == p[..|p| - 1] + [[]];
  }

  lemma {:induction false} SplitAtBreak(s: string, l: string)
    requires '\n' !in l && (s == [] || s[|s| - 1] == '\n')
    ensures var p := Split(s); p[|p| - 1] == [] && Split(s + l) == p[..|p| - 1] + [l]
    decreases |l|
  {
    var p := Split(s);
    if s != [] {
      assert s == s[..|s| - 1] + "\n";
      SplitSnoc(s[..|s| - 1]);
    }
    if l == [] {
      assert s + l == s;
    } else {
      var init, c := l[..|l| - 1], l[|l| - 1];
      SplitAtBreak(s, init);
      SplitExtend(s + init, c);
      assert s + l == s + init + [c] && l == init + [c];
    }
  }

  lemma {:induction false} JoinedKeepsIndents(lines: seq<string>)
    requires NoLineBreaks(lines)
    ensures Indents(Split(Joined(lines))) == Indents(lines)
  {
    if lines == [] {
      assert !HasInk([]) && Indents(Split([])) == [];
    } else {
      var init, last := lines[..|lines| - 1], lines[|lines| - 1];
      JoinedKeepsIndents(init);
      JoinedIsTidy(init);
      CleanLineIsTidy(last);
      SplitLine(Joined(init), CleanLine(last));
      CleanLineKeepsIndent(last);
      IndentsConcat(init, [last]);
      assert lines == init + [last];
    }
  }

  lemma {:induction false} CollapsedKeepsIndents(s: string)
    ensures Indents(Split(Collapsed(s))) == Indents(Split(s))
  {
    if EndsWithTwoNewlines(s) {
      var t := s[..|s| - 1];
      CollapsedKeepsIndents(t);
      assert s == t + "\n";
      SplitSnoc(t);
      IndentsConcat(Split(t), [[]]);
      assert !HasInk([]) && Indents([[]]) == [];
    }
  }

  /** The measured indents of all lines with a non-whitespace character survive normalization. */
  lemma {:induction false} NormalizeKeepsIndents(src: string)
    ensures Indents(Lines(Normalized(src))) == Indents(Lines(src))
  {
    var lines := Split(LineFeeds(src));
    LineFeedsKeepsLines(src);
    WholeFromParts(src);
    SourceLinesHaveNoBreaks(src);
    JoinedKeepsIndents(lines);
    CollapsedKeepsIndents(Joined(lines));
    NormalizedIsNormal(src);
    SplitIsLines(Normalized(src));
  }

  // ── Nothing but whitespace changes ──────────────────────────────────────────

  /** The characters that are not whitespace, in order. */
  function Ink(s: string): string {
    if s == [] then [] else (if IsWhitespace(s[0]) then [] else [s[0]]) + Ink(s[1..])
  }

  function InkOfLines(lines: seq<string>): string {
    if lines == [] then [] else InkOfLines(lines[..|lines| - 1]) + Ink(lines[|lines| - 1])
  }

  lemma {:induction false} InkConcat(a: string, b: string)
    ensures Ink(a + b) == Ink(a) + Ink(b)
  {
    if a == [] {
      assert a + b == b;
    } else {
      assert (a + b)[1..] == a[1..] + b;
      InkConcat(a[1..], b);
    }
  }

  lemma {:induction false} LineFeedsKeepsInk(s: string)
    ensures Ink(LineFeeds(s)) == Ink(s)
    decreases |s|
  {
    if s != [] {
      var rest := if s[0] == '\r' && |s| > 1 && s[1] == '\n' then s[2..] else s[1..];
      LineFeedsKeepsInk(rest);
      InkConcat([if s[0] == '\r' then '\n' else s[0]], LineFeeds(rest));
      if s[0] == '\r' && |s| > 1 && s[1] == '\n' {
        assert s[1..][1..] == s[2..];
      }
    }
  }

  lemma {:induction false} ExpandTabsKeepsInk(l: string)
    ensures Ink(ExpandTabs(l)) == Ink(l)
  {
    if l != [] {
      ExpandTabsKeepsInk(l[1..]);
      if l[0] == '\t' {
        InkConcat(" ", " ");
        assert " " + " " == "  " && Ink(" ") == [];
      }
      InkConcat(if l[0] == '\t' then "  " else [l[0]], ExpandTabs(l[1..]));
    }
  }

  lemma {:induction false} TrimEndKeepsInk(l: string)
    ensures Ink(TrimEnd(l)) == Ink(l)
  {
    if l != [] && IsWhitespace(l[|l| - 1]) {
      var init, last := l[..|l| - 1], l[|l| - 1];
      TrimEndKeepsInk(init);
      InkConcat(init, [last]);
      assert l == init + [last] && Ink([last]) == [];
    }
  }

  lemma {:induction false} JoinedKeepsInk(lines: seq<string>)
    ensures Ink(Joined(lines)) == InkOfLines(lines)
  {
    if lines != [] {
      var init, last := lines[..|lines| - 1], lines[|lines| - 1];
      JoinedKeepsInk(init);
      ExpandTabsKeepsInk(last);
      TrimEndKeepsInk(ExpandTabs(last));
      InkConcat(Joined(init), CleanLine(last));
      InkConcat(Joined(init) + CleanLine(last), "\n");
    }
  }

  lemma {:induction false} SplitKeepsInk(s: string)
    ensures InkOfLines(Split(s)) == Ink(s)
  {
    hide InkOfLines;
    if s == [] {
      InkOfOneLine([]);
    } else {
      var rest := Split(s[1..]);
      SplitKeepsInk(s[1..]);
      if s[0] == '\n' {
        InkOfLinesHead([], rest);
      } else {
        assert rest == [rest[0]] + rest[1..];
        InkOfLinesHead([s[0]] + rest[0], rest[1..]);
        InkOfLinesHead(rest[0], rest[1..]);
        InkConcat([s[0]], rest[0]);
      }
    }
  }

  lemma InkOfOneLine(l: string)
    ensures InkOfLines([l]) == Ink(l)
  {
    assert [l][..0] == [];
  }

  lemma {:induction false} InkOfLinesHead(l: string, b: seq<string>)
    ensures InkOfLines([l] + b) == Ink(l) + InkOfLines(b)
    decreases |b|
  {
    if b == [] {
      assert [l] + b == [l];
      InkOfOneLine(l);
    } else {
      assert ([l] + b)[..|b|] == [l] + b[..|b| - 1];
      InkOfLinesHead(l, b[..|b| - 1]);
    }
  }

  lemma {:induction false} CollapsedKeepsInk(s: string)
    ensures Ink(Collapsed(s)) == Ink(s)
    decreases |s|
  {
    if EndsWithTwoNewlines(s) {
      var init := s[..|s| - 1];
      CollapsedKeepsInk(init);
      InkConcat(init, "\n");
      assert s == init + "\n";
    }
  }

  /** Every character that is not whitespace survives, in order. */
  lemma NormalizeKeepsInk(src: string)
    ensures Ink(Normalized(src)) == Ink(src)
  {
    LineFeedsKeepsInk(src);
    SplitKeepsInk(LineFeeds(src));
    JoinedKeepsInk(Split(LineFeeds(src)));
    CollapsedKeepsInk(Joined(Split(LineFeeds(src))));
  }
}
