/** What normalization does not distinguish: line endings, tabs and pairs of spaces, whitespace at the end of
    a line, and line feeds at the end of the text. Together with the fact that text in normal form is left
    alone, these laws determine it. */
module NormalizeLaws {
  import opened Normalize

  predicate EndsIn(s: string, c: char) { s != [] && s[|s| - 1] == c }

  predicate StartsIn(s: string, c: char) { s != [] && s[0] == c }

  // ── Line endings ────────────────────────────────────────────────────────────

  lemma {:induction false} LineFeedsConcat(a: string, b: string)
    requires !(EndsIn(a, '\r') && StartsIn(b, '\n'))
    ensures LineFeeds(a + b) == LineFeeds(a) + LineFeeds(b)
    decreases |a|
  {
    hide LineFeeds;
    if a == [] {
      assert a + b == b && LineFeeds([]) + LineFeeds(b) == LineFeeds(b) by { LineFeedsOfNone(); }
    } else {
      var n := if a[0] == '\r' && |a| > 1 && a[1] == '\n' then 2 else 1;
      LineFeedsConcat(a[n..], b);
      LineFeedsStep(a, n);
      StepsAlike(a, b, n);
      LineFeedsStep(a + b, n);
    }
  }

  lemma LineFeedsOfNone()
    ensures LineFeeds([]) == []
  {
  }

  /** The first step on a concatenation is the first step on its first half. */
  lemma StepsAlike(a: string, b: string, n: nat)
    requires a != [] && n == (if a[0] == '\r' && |a| > 1 && a[1] == '\n' then 2 else 1)
    requires !(EndsIn(a, '\r') && StartsIn(b, '\n'))
    ensures (a + b)[0] == a[0] && (a + b)[n..] == a[n..] + b
    ensures n == if (a + b)[0] == '\r' && |a + b| > 1 && (a + b)[1] == '\n' then 2 else 1
  {
    assert |a| > 1 ==> (a + b)[1] == a[1];
    assert |a| == 1 && b != [] ==> (a + b)[1] == b[0];
  }

  lemma LineFeedsStep(s: string, n: nat)
    requires s != [] && n == if s[0] == '\r' && |s| > 1 && s[1] == '\n' then 2 else 1
    ensures LineFeeds(s) == [if s[0] == '\r' then '\n' else s[0]] + LineFeeds(s[n..])
  {
  }

  lemma LineFeedsOfOne(c: char)
    ensures LineFeeds([c]) == if c == '\r' then "\n" else [c]
  {
    assert [c][1..] == [] && ['\n'] + [] == "\n";
  }

  lemma LineFeedsOfPair()
    ensures LineFeeds("\r\n") == "\n"
  {
    assert "\r\n"[2..] == [] && ['\n'] + [] == "\n";
  }

  /** CRLF is a line feed. */
  lemma CrLfIsLf(a: string, b: string)
    requires !EndsIn(a, '\r')
    ensures Normalized(a + "\r\n" + b) == Normalized(a + "\n" + b)
  {
    LineFeedsConcat(a, "\r\n");
    LineFeedsConcat(a + "\r\n", b);
    LineFeedsConcat(a, "\n");
    LineFeedsConcat(a + "\n", b);
    LineFeedsOfPair();
    LineFeedsOfOne('\n');
  }

  /** So is a carriage return by itself. */
  lemma CrIsLf(a: string, b: string)
    requires !EndsIn(a, '\r') && !StartsIn(b, '\n')
    ensures Normalized(a + "\r" + b) == Normalized(a + "\n" + b)
  {
    LineFeedsConcat(a, "\r");
    LineFeedsConcat(a + "\r", b);
    LineFeedsConcat(a, "\n");
    LineFeedsConcat(a + "\n", b);
    LineFeedsOfOne('\r');
    LineFeedsOfOne('\n');
  }

  // ── Inside a line ───────────────────────────────────────────────────────────

  /** The last part of the one and the first of the other make one part. */
  function Glued(p: seq<string>, q: seq<string>): seq<string>
    requires p != [] && q != []
  {
    p[..|p| - 1] + [p[|p| - 1] + q[0]] + q[1..]
  }

  lemma GluedBehind(head: string, p: seq<string>, q: seq<string>)
    requires p != [] && q != []
    ensures [head] + Glued(p, q) == Glued([head] + p, q)
    ensures var g := Glued(p, q); [head + g[0]] + g[1..] == Glued([head + p[0]] + p[1..], q)
  {
    var g := Glued(p, q);
    if |p| == 1 {
      assert head + (p[0] + q[0]) == (head + p[0]) + q[0];
    }
  }

  /** The parts of a concatenation are the parts of its halves, glued. */
  lemma {:induction false} SplitConcat(a: string, b: string)
    ensures Split(a + b) == Glued(Split(a), Split(b))
  {
    var q := Split(b);
    if a == [] {
      assert a + b == b && Split(a) == [[]] && [] + q[0] == q[0];
      assert q == [q[0]] + q[1..];
    } else {
      assert (a + b)[1..] == a[1..] + b && (a + b)[0] == a[0];
      SplitConcat(a[1..], b);
      SplitStep(a);
      SplitStep(a + b);
      hide Split, Glued;
      GluedBehind(if a[0] == '\n' then [] else [a[0]], Split(a[1..]), q);
    }
  }

  lemma SplitStep(s: string)
    requires s != []
    ensures var rest := Split(s[1..]);
            Split(s) == if s[0] == '\n' then [[]] + rest else [[s[0]] + rest[0]] + rest[1..]
  {
  }

  lemma {:induction false} ExpandConcat(a: string, b: string)
    ensures ExpandTabs(a + b) == ExpandTabs(a) + ExpandTabs(b)
  {
    if a == [] {
      assert a + b == b;
    } else {
      assert (a + b)[1..] == a[1..] + b;
      ExpandConcat(a[1..], b);
    }
  }

  lemma {:induction false} TrimConcat(a: string, b: string)
    requires forall c <- b :: IsWhitespace(c)
    ensures TrimEnd(a + b) == TrimEnd(a)
    decreases |b|
  {
    if b == [] {
      assert a + b == a;
    } else {
      var init := b[..|b| - 1];
      assert (a + b)[..|a + b| - 1] == a + init && (a + b)[|a + b| - 1] == b[|b| - 1];
      TrimConcat(a, init);
    }
  }

  /** Lines that clean to the same are joined to the same. */
  lemma {:induction false} JoinedAlike(p: seq<string>, q: seq<string>)
    requires |p| == |q| && forall i :: 0 <= i < |p| ==> CleanLine(p[i]) == CleanLine(q[i])
    ensures Joined(p) == Joined(q)
  {
    if p != [] {
      JoinedAlike(p[..|p| - 1], q[..|q| - 1]);
    }
  }

  lemma {:induction false} OnePart(x: string)
    requires '\n' !in x
    ensures Split(x) == [x]
  {
    if x != [] {
      assert '\n' !in x[1..] && [x[0]] + x[1..] == x;
      OnePart(x[1..]);
    }
  }

  /** Text that cleans alike within a line can be exchanged anywhere. */
  lemma ExchangeAlike(a: string, x: string, y: string, b: string)
    requires '\n' !in x && '\n' !in y
    requires var u, v := Split(a)[|Split(a)| - 1], Split(b)[0]; CleanLine(u + x + v) == CleanLine(u + y + v)
    ensures Joined(Split(a + x + b)) == Joined(Split(a + y + b))
  {
    hide Split, CleanLine, Joined;
    SplitAround(a, x, b);
    SplitAround(a, y, b);
    var p, q := Split(a), Split(b);
    var u, v, init := p[|p| - 1], q[0], p[..|p| - 1];
    var with, other := init + [u + x + v] + q[1..], init + [u + y + v] + q[1..];
    assert forall i :: 0 <= i < |with| && i != |init| ==> with[i] == other[i];
    JoinedAlike(with, other);
  }

  lemma SplitAround(a: string, x: string, b: string)
    requires '\n' !in x
    ensures var p, q := Split(a), Split(b);
            Split(a + x + b) == p[..|p| - 1] + [p[|p| - 1] + x + q[0]] + q[1..]
  {
    var p, q := Split(a), Split(b);
    OnePart(x);
    SplitConcat(a, x);
    var r := Split(a + x);
    assert r == p[..|p| - 1] + [p[|p| - 1] + x];
    SplitConcat(a + x, b);
    assert r[..|r| - 1] == p[..|p| - 1];
  }

  lemma CleanTab(u: string, v: string)
    ensures CleanLine(u + "\t" + v) == CleanLine(u + "  " + v)
  {
    ExpandConcat(u + "\t", v);
    ExpandConcat(u, "\t");
    ExpandConcat(u + "  ", v);
    ExpandConcat(u, "  ");
    assert ExpandTabs("\t") == "  " by {
      assert "\t"[1..] == [] && "  " + [] == "  ";
    }
    ExpandTabsFixed("  ");
  }

  /** A tab is two spaces, anywhere. */
  lemma TabIsTwoSpaces(a: string, b: string)
    ensures Normalized(a + "\t" + b) == Normalized(a + "  " + b)
  {
    var la, lb := LineFeeds(a), LineFeeds(b);
    LineFeedsConcat(a, "\t");
    LineFeedsConcat(a + "\t", b);
    LineFeedsConcat(a, "  ");
    LineFeedsConcat(a + "  ", b);
    LineFeedsOfOne('\t');
    LineFeedsFixed("  ");
    CleanTab(Split(la)[|Split(la)| - 1], Split(lb)[0]);
    ExchangeAlike(la, "\t", "  ", lb);
  }

  lemma CleanTrailing(u: string, c: char)
    requires IsWhitespace(c)
    ensures CleanLine(u + [c] + []) == CleanLine(u + [] + [])
  {
    assert u + [c] + [] == u + [c] && u + [] + [] == u;
    ExpandConcat(u, [c]);
    var e := ExpandTabs([c]);
    assert e == if c == '\t' then "  " else [c] by {
      assert [c][1..] == [];
    }
    TrimConcat(ExpandTabs(u), e);
  }

  lemma NothingBeforeBreak(b: string)
    requires b == [] || b[0] == '\n'
    ensures Split(LineFeeds(b))[0] == []
  {
  }

  /** Whitespace before the end of a line does not count. */
  lemma TrailingIsNothing(a: string, c: char, b: string)
    requires IsWhitespace(c) && c != '\n' && c != '\r' && !EndsIn(a, '\r')
    requires b == [] || b[0] == '\n'
    ensures Normalized(a + [c] + b) == Normalized(a + b)
  {
    hide Split, LineFeeds, Joined, CleanLine, Collapsed;
    var la, lb := LineFeeds(a), LineFeeds(b);
    TrailingLineFeeds(a, c, b);
    NothingBeforeBreak(b);
    CleanTrailing(Split(la)[|Split(la)| - 1], c);
    ExchangeAlike(la, [c], [], lb);
    assert la + [] + lb == la + lb;
  }

  lemma TrailingLineFeeds(a: string, c: char, b: string)
    requires c != '\n' && c != '\r' && !EndsIn(a, '\r')
    ensures LineFeeds(a + [c] + b) == LineFeeds(a) + [c] + LineFeeds(b)
    ensures LineFeeds(a + b) == LineFeeds(a) + LineFeeds(b)
  {
    hide LineFeeds;
    LineFeedsConcat(a, [c]);
    LineFeedsConcat(a + [c], b);
    LineFeedsConcat(a, b);
    LineFeedsOfOne(c);
  }

  // ── The end of the text ─────────────────────────────────────────────────────

  lemma EmptyLastLine(p: seq<string>)
    requires p != [] && NoLineBreaks(p)
    ensures Collapsed(Joined(p + [[]])) == Collapsed(Joined(p))
  {
    JoinedIsTidy(p);
    var j := Joined(p);
    assert (p + [[]])[..|p|] == p && CleanLine([]) == [];
    assert Joined(p + [[]]) == j + [] + "\n" == j + "\n";
    hide Joined;
    assert EndsWithTwoNewlines(j + "\n") && (j + "\n")[..|j|] == j;
  }

  lemma LineFeedAfter(a: string)
    ensures var la := LineFeeds(a); LineFeeds(a + "\n") == if EndsIn(a, '\r') then la else la + "\n"
  {
    hide LineFeeds;
    if EndsIn(a, '\r') {
      var init := a[..|a| - 1];
      assert a == init + "\r" && a + "\n" == init + "\r\n";
      LineFeedsConcat(init, "\r");
      LineFeedsConcat(init, "\r\n");
      LineFeedsOfOne('\r');
      LineFeedsOfPair();
    } else {
      LineFeedsConcat(a, "\n");
      LineFeedsOfOne('\n');
    }
  }

  /** Nor does a line feed at the end of the text. */
  lemma FinalLineFeed(a: string)
    ensures Normalized(a + "\n") == Normalized(a)
  {
    hide LineFeeds, Split, Joined, Collapsed;
    LineFeedAfter(a);
    SplitSnoc(LineFeeds(a));
    SourceLinesHaveNoBreaks(a);
    EmptyLastLine(Split(LineFeeds(a)));
  }

  // ── The laws determine normalization ────────────────────────────────────────

  ghost predicate IgnoresEndings(f: string -> string) {
    && (forall a, b :: !EndsIn(a, '\r') ==> f(a + "\r\n" + b) == f(a + "\n" + b))
    && (forall a, b :: !EndsIn(a, '\r') && !StartsIn(b, '\n') ==> f(a + "\r" + b) == f(a + "\n" + b))
  }

  ghost predicate IgnoresTabs(f: string -> string) { forall a, b :: f(a + "\t" + b) == f(a + "  " + b) }

  predicate Ignored(f: string -> string, a: string, c: char, b: string) { f(a + [c] + b) == f(a + b) }

  ghost predicate IgnoresTrailing(f: string -> string) {
    && (forall a, c, b ::
          IsWhitespace(c) && c != '\n' && c != '\r' && !EndsIn(a, '\r') && (b == [] || b[0] == '\n') ==>
            Ignored(f, a, c, b))
    && (forall a :: f(a + "\n") == f(a))
  }

  ghost predicate FixesNormalForm(f: string -> string) { forall t :: NormalForm(t) ==> f(t) == t }

  function Count(s: string, c: char): nat { multiset(s)[c] }

  lemma CountConcat(a: string, b: string, c: char)
    ensures Count(a + b, c) == Count(a, c) + Count(b, c)
  {
  }

  lemma CountIn(s: string, c: char)
    ensures Count(s, c) > 0 <==> c in s
  {
  }

  lemma {:induction false} FirstOf(s: string, c: char) returns (i: nat)
    requires c in s
    ensures i < |s| && s[i] == c && c !in s[..i]
  {
    if s[0] == c {
      i := 0;
    } else {
      i := FirstOf(s[1..], c);
      assert s[..i + 1] == [s[0]] + s[1..][..i];
      i := i + 1;
    }
  }

  /** Whitespace at the end of a line, other than a line break. */
  predicate Trails(s: string, i: int) {
    0 <= i < |s| && IsWhitespace(s[i]) && s[i] != '\n' && (i + 1 == |s| || s[i + 1] == '\n')
  }

  /** Normalization itself makes none of these distinctions. */
  lemma NormalizedIsLawful()
    ensures IgnoresEndings(Normalized) && IgnoresTabs(Normalized) && IgnoresTrailing(Normalized)
    ensures FixesNormalForm(Normalized)
  {
    hide Normalized, NormalForm;
    forall a, b
      ensures Normalized(a + "\t" + b) == Normalized(a + "  " + b)
    {
      TabIsTwoSpaces(a, b);
    }
    forall a, b | !EndsIn(a, '\r')
      ensures Normalized(a + "\r\n" + b) == Normalized(a + "\n" + b)
    {
      CrLfIsLf(a, b);
    }
    forall a, b | !EndsIn(a, '\r') && !StartsIn(b, '\n')
      ensures Normalized(a + "\r" + b) == Normalized(a + "\n" + b)
    {
      CrIsLf(a, b);
    }
    forall a
      ensures Normalized(a + "\n") == Normalized(a)
    {
      FinalLineFeed(a);
    }
    forall a, c, b | IsWhitespace(c) && c != '\n' && c != '\r' && !EndsIn(a, '\r') && (b == [] || b[0] == '\n')
      ensures Ignored(Normalized, a, c, b)
    {
      TrailingIsNothing(a, c, b);
    }
    forall t | NormalForm(t)
      ensures Normalized(t) == t
    {
      NormalFormIsFixed(t);
    }
  }

  /** Any way of normalizing that makes none of these distinctions and leaves text in normal form alone is
      this one. */
  lemma {:induction false} LawsDetermine(f: string -> string, s: string)
    requires IgnoresEndings(f) && IgnoresTabs(f) && IgnoresTrailing(f) && FixesNormalForm(f)
    ensures f(s) == Normalized(s)
    decreases Count(s, '\r'), Count(s, '\t'), |s|
  {
    hide Normalized, NormalForm, Count, IgnoresEndings, IgnoresTabs, IgnoresTrailing, FixesNormalForm, IsWhitespace;
    CountIn(s, '\r');
    CountIn(s, '\t');
    if '\r' in s {
      var t := WithoutReturn(f, s);
      LawsDetermine(f, t);
    } else if '\t' in s {
      var t := WithoutTab(f, s);
      LawsDetermine(f, t);
    } else if exists i :: Trails(s, i) {
      var i :| Trails(s, i);
      var t := WithoutTrailing(f, s, i);
      LawsDetermine(f, t);
    } else if EndsWithTwoNewlines(s) {
      var t := s[..|s| - 1];
      assert s == t + "\n";
      CountConcat(t, "\n", '\r');
      CountConcat(t, "\n", '\t');
      LawsDetermine(f, t);
      LineFeedLaw(f, t);
      FinalLineFeed(t);
    } else {
      NearlyNormal(f, s);
    }
  }

  lemma LineFeedLaw(f: string -> string, a: string)
    requires IgnoresTrailing(f)
    ensures f(a + "\n") == f(a)
  {
  }

  lemma WithoutReturn(f: string -> string, s: string) returns (t: string)
    requires IgnoresEndings(f) && '\r' in s
    ensures f(s) == f(t) && Normalized(s) == Normalized(t) && Count(t, '\r') < Count(s, '\r')
  {
    hide Normalized, Count;
    var i := FirstOf(s, '\r');
    var a := s[..i];
    if i + 1 < |s| && s[i + 1] == '\n' {
      var b := s[i + 2..];
      assert s == a + "\r\n" + b;
      t := a + "\n" + b;
      CrLfIsLf(a, b);
      assert "\r" + "\n" == "\r\n";
      CountAround(a, "\r\n", b, '\r');
      CountAround(a, "\n", b, '\r');
      CountPieces();
    } else {
      var b := s[i + 1..];
      assert s == a + "\r" + b;
      t := a + "\n" + b;
      CrIsLf(a, b);
      CountAround(a, "\r", b, '\r');
      CountAround(a, "\n", b, '\r');
      CountPieces();
    }
  }

  lemma CountAround(a: string, x: string, b: string, c: char)
    ensures Count(a + x + b, c) == Count(a, c) + Count(x, c) + Count(b, c)
  {
    CountConcat(a, x, c);
    CountConcat(a + x, b, c);
  }

  lemma CountPieces()
    ensures Count("\r\n", '\r') == 1 && Count("\r", '\r') == 1 && Count("\n", '\r') == 0
    ensures Count("\t", '\r') == 0 && Count("  ", '\r') == 0 && Count("\t", '\t') == 1 && Count("  ", '\t') == 0
  {
    assert "\r\n" == ['\r', '\n'] && "  " == [' ', ' '];
  }

  lemma WithoutTab(f: string -> string, s: string) returns (t: string)
    requires IgnoresTabs(f) && '\t' in s
    ensures f(s) == f(t) && Normalized(s) == Normalized(t)
    ensures Count(t, '\r') == Count(s, '\r') && Count(t, '\t') < Count(s, '\t')
  {
    hide Normalized, Count;
    var i := FirstOf(s, '\t');
    var a, b := s[..i], s[i + 1..];
    assert s == a + "\t" + b;
    t := a + "  " + b;
    TabIsTwoSpaces(a, b);
    CountAround(a, "\t", b, '\r');
    CountAround(a, "  ", b, '\r');
    CountAround(a, "\t", b, '\t');
    CountAround(a, "  ", b, '\t');
    CountPieces();
  }

  lemma WithoutTrailing(f: string -> string, s: string, i: nat) returns (t: string)
    requires IgnoresTrailing(f) && '\r' !in s && '\t' !in s && Trails(s, i)
    ensures f(s) == f(t) && Normalized(s) == Normalized(t)
    ensures Count(t, '\r') == Count(s, '\r') && Count(t, '\t') == Count(s, '\t') && |t| < |s|
  {
    hide Normalized, Count, IsWhitespace;
    var a, c, b := s[..i], s[i], s[i + 1..];
    assert s == a + [c] + b;
    t := a + b;
    assert a != [] ==> a[|a| - 1] == s[i - 1];
    TrailingIsNothing(a, c, b);
    assert Ignored(f, a, c, b);
    CountIn(s, '\r');
    CountIn(s, '\t');
    CountIn(t, '\r');
    CountIn(t, '\t');
    assert forall x :: x in t ==> x in s;
  }

  /** What is left lacks a final line feed at most. */
  lemma NearlyNormal(f: string -> string, s: string)
    requires IgnoresTrailing(f) && FixesNormalForm(f)
    requires '\r' !in s && '\t' !in s && !(exists i :: Trails(s, i)) && !EndsWithTwoNewlines(s)
    ensures f(s) == Normalized(s)
  {
    hide Normalized;
    var t := if EndsIn(s, '\n') then s else s + "\n";
    assert NormalForm(t) by {
      forall i | 0 < i < |t| && t[i] == '\n'
        ensures t[i - 1] == '\n' || !IsWhitespace(t[i - 1])
      {
        assert !Trails(s, i - 1) && t[i - 1] == s[i - 1];
      }
    }
    NormalFormIsFixed(t);
    FinalLineFeed(s);
    LineFeedLaw(f, s);
    hide NormalForm;
  }
}
