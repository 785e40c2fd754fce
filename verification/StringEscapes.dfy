/** Escape processing for double-quoted strings, done one `string_content` token at a time. */
module StringEscapes {
  import opened Common

  datatype EscapeError = UnknownEscape(ch: char) | DanglingBackslash

  function EscapeMeaning(c: char): Option<char> {
    match c
    case '\\' => Some('\\')
    case '"' => Some('"')
    case 'n' => Some('\n')
    case 't' => Some('\t')
    case 'r' => Some('\r')
    case '0' => Some('\0')
    case '$' => Some('$')
    case _ => None
  }

  function Prepend(head: string, tail: Result<string, EscapeError>): Result<string, EscapeError> {
    match tail
    case Ok(t) => Ok(head + t)
    case Err(e) => Err(e)
  }

  lemma PrependTwice(a: string, b: string, r: Result<string, EscapeError>)
    ensures Prepend(a + b, r) == Prepend(a, Prepend(b, r)) && Prepend([], r) == r
  {
    if r.Ok? {
      assert (a + b) + r.value == a + (b + r.value);
      assert [] + r.value == r.value;
    }
  }

  /** Concatenation of results; the first error wins. */
  function Then(first: Result<string, EscapeError>, rest: Result<string, EscapeError>): Result<string, EscapeError> {
    if first.Ok? then Prepend(first.value, rest) else first
  }

  function Unescaped(s: string): Result<string, EscapeError> {
    if s == [] then Ok([])
    else if s[0] != '\\' then Prepend([s[0]], Unescaped(s[1..]))
    else if |s| == 1 then Err(DanglingBackslash)
    else
      match EscapeMeaning(s[1])
      case None => Err(UnknownEscape(s[1]))
      case Some(c) => Prepend([c], Unescaped(s[2..]))
  }

  /** The source's single pass over the characters. */
  method Unescape(s: string) returns (r: Result<string, EscapeError>)
    ensures r == Unescaped(s)
  {
    var out := [];
    var i := 0;
    assert s[0..] == s;
    PrependTwice([], [], Unescaped(s));
    while i < |s|
      invariant i <= |s|
      invariant Unescaped(s) == Prepend(out, Unescaped(s[i..]))
    {
      ghost var rest := s[i..];
      if s[i] != '\\' {
        assert rest[1..] == s[i + 1..];
        PrependTwice(out, [s[i]], Unescaped(s[i + 1..]));
        out := out + [s[i]];
        i := i + 1;
      } else if i + 1 == |s| {
        return Err(DanglingBackslash);
      } else {
        match EscapeMeaning(s[i + 1]) {
          case None => return Err(UnknownEscape(s[i + 1]));
          case Some(c) =>
            assert rest[2..] == s[i + 2..];
            PrependTwice(out, [c], Unescaped(s[i + 2..]));
            out := out + [c];
            i := i + 2;
        }
      }
    }
    assert s[i..] == [] && out + [] == out;
    return Ok(out);
  }

  /** Seven characters can be escaped; a backslash before any other is an error. */
  lemma EscapesExactly(c: char)
    ensures Unescaped(['\\', c]) ==
              if c == 'n' then Ok("\n") else if c == 't' then Ok("\t") else if c == 'r' then Ok("\r")
              else if c == '0' then Ok("\0") else if c in {'\\', '"', '$'} then Ok([c])
              else Err(UnknownEscape(c))
  {
    var s := ['\\', c];
    assert s[2..] == [] && s[1] == c;
    var meaning := EscapeMeaning(c);
    if meaning.Some? {
      assert [meaning.value] + [] == [meaning.value];
    }
  }

  /** The escape for a character that has one. */
  function EscapeFor(c: char): (e: Option<char>)
    ensures e.Some? ==> EscapeMeaning(e.value) == Some(c)
  {
    match c
    case '\\' => Some('\\')
    case '"' => Some('"')
    case '\n' => Some('n')
    case '\t' => Some('t')
    case '\r' => Some('r')
    case '\0' => Some('0')
    case '$' => Some('$')
    case _ => None
  }

  function Escaped(s: string): string {
    if s == [] then []
    else (if EscapeFor(s[0]).Some? then ['\\', EscapeFor(s[0]).value] else [s[0]]) + Escaped(s[1..])
  }

  /** Every text can be written down: unescaping inverts escaping. */
  lemma {:induction false} UnescapeInvertsEscape(s: string)
    ensures Unescaped(Escaped(s)) == Ok(s)
  {
    if s != [] {
      UnescapeInvertsEscape(s[1..]);
      var e := Escaped(s);
      if EscapeFor(s[0]).Some? {
        assert e[0] == '\\' && e[1] == EscapeFor(s[0]).value && e[2..] == Escaped(s[1..]);
      } else {
        assert e[0] == s[0] && e[1..] == Escaped(s[1..]);
      }
      assert [s[0]] + s[1..] == s;
    }
  }

  // ── Tokens of an interpolation-free body ────────────────────────────────────

  predicate IsPlain(c: char) { c != '"' && c != '\\' && c != '$' }

  /** What the grammar's `string_content` token can be: a run of plain characters, a backslash
      with any character but a line feed, or a lone dollar sign. */
  predicate IsStringContent(t: string) {
    || (t != [] && forall c <- t :: IsPlain(c))
    || (|t| == 2 && t[0] == '\\' && t[1] != '\n')
    || t == "$"
  }

  function PlainRun(body: string): (n: nat)
    ensures n <= |body| && (forall c <- body[..n] :: IsPlain(c))
    ensures n < |body| ==> !IsPlain(body[n])
  {
    if body == [] || !IsPlain(body[0]) then 0
    else
      var n := PlainRun(body[1..]);
      assert body[..n + 1] == [body[0]] + body[1..][..n];
      n + 1
  }

  /** The length of the longest token the body can start with. */
  function FirstLength(body: string): nat
    requires body != []
  {
    if body[0] == '\\' then 2 else if body[0] == '$' then 1 else PlainRun(body)
  }

  /** Longest-match tokenization; `None` when the grammar finds a quote, an interpolation or an
      unfinished escape instead of a token. */
  function Tokenize(body: string): Option<seq<string>>
    decreases |body|
  {
    if body == [] then Some([])
    else
      var n := FirstLength(body);
      if n == 0 || n > |body| || !IsStringContent(body[..n])
         || (body[0] == '$' && |body| > 1 && body[1] == '{') then None
      else
        match Tokenize(body[n..])
        case None => None
        case Some(rest) => Some([body[..n]] + rest)
  }

  function Flatten(tokens: seq<string>): string {
    if tokens == [] then [] else tokens[0] + Flatten(tokens[1..])
  }

  function UnescapedAll(tokens: seq<string>): Result<string, EscapeError> {
    if tokens == [] then Ok([])
    else Then(Unescaped(tokens[0]), UnescapedAll(tokens[1..]))
  }

  lemma {:induction false} PlainPassesThrough(t: string, rest: string)
    requires forall c <- t :: IsPlain(c)
    ensures Unescaped(t) == Ok(t) && Unescaped(t + rest) == Prepend(t, Unescaped(rest))
  {
    if t == [] {
      assert t + rest == rest;
      PrependTwice(t, t, Unescaped(rest));
    } else {
      assert IsPlain(t[0]);
      PlainPassesThrough(t[1..], rest);
      assert (t + rest)[1..] == t[1..] + rest;
      assert t == [t[0]] + t[1..] && Unescaped(t[1..]) == Ok(t[1..]);
      PrependTwice([t[0]], t[1..], Unescaped(rest));
    }
  }

  lemma TokenThenRest(t: string, rest: string)
    requires IsStringContent(t)
    ensures Unescaped(t + rest) == Then(Unescaped(t), Unescaped(rest))
  {
    if |t| == 2 && t[0] == '\\' {
      assert (t + rest)[2..] == rest && t[2..] == [];
      var meaning := EscapeMeaning(t[1]);
      if meaning.Some? {
        assert [meaning.value] + [] == [meaning.value];
      }
    } else if t == "$" {
      assert (t + rest)[1..] == rest && t[1..] == [] && t == [t[0]] + [];
    } else {
      PlainPassesThrough(t, rest);
    }
  }

  predicate AllContent(tokens: seq<string>) { forall t <- tokens :: IsStringContent(t) }

  lemma {:induction false} TokensFlatten(body: string)
    requires Tokenize(body).Some?
    ensures Flatten(Tokenize(body).value) == body && AllContent(Tokenize(body).value)
    decreases |body|
  {
    hide Tokenize, FirstLength, IsStringContent, Flatten, AllContent;
    if body == [] {
      NoToken();
    } else {
      var n := FirstLength(body);
      TokenizeStep(body, n);
      TokensFlatten(body[n..]);
      OneMoreToken(body[..n], Tokenize(body[n..]).value);
      assert body == body[..n] + body[n..];
    }
  }

  lemma NoToken()
    ensures Tokenize([]) == Some([]) && Flatten([]) == [] && AllContent([])
  {
  }

  lemma OneMoreToken(token: string, rest: seq<string>)
    requires IsStringContent(token) && AllContent(rest)
    ensures Flatten([token] + rest) == token + Flatten(rest) && AllContent([token] + rest)
  {
    hide IsStringContent;
    assert ([token] + rest)[1..] == rest;
  }

  lemma TokenizeStep(body: string, n: nat)
    requires body != [] && Tokenize(body).Some?
    requires n == FirstLength(body)
    ensures 0 < n <= |body| && IsStringContent(body[..n]) && Tokenize(body[n..]).Some?
    ensures Tokenize(body).value == [body[..n]] + Tokenize(body[n..]).value
  {
    hide IsStringContent;
  }

  lemma {:induction false} UnescapedAllFlatten(tokens: seq<string>)
    requires AllContent(tokens)
    ensures UnescapedAll(tokens) == Unescaped(Flatten(tokens))
  {
    if tokens != [] {
      UnescapedAllFlatten(tokens[1..]);
      TokenThenRest(tokens[0], Flatten(tokens[1..]));
    }
  }

  /** Unescaping token by token is unescaping the whole body: the same string or the same first error. */
  lemma TokenwiseUnescape(body: string)
    requires Tokenize(body).Some?
    ensures UnescapedAll(Tokenize(body).value) == Unescaped(body)
  {
    TokensFlatten(body);
    UnescapedAllFlatten(Tokenize(body).value);
  }

  // ── Rewriting the fragments in place ────────────────────────────────────────

  /** A string fragment before evaluation; `Hole` stands for an interpolated expression. */
  datatype Piece = Text(text: string) | Hole(id: nat)

  function Rewritten(p: Piece): Piece {
    if p.Text? && Unescaped(p.text).Ok? then Text(Unescaped(p.text).value) else p
  }

  function EscapeErrors(pieces: seq<Piece>): seq<EscapeError> {
    if pieces == [] then []
    else
      var init, last := pieces[..|pieces| - 1], pieces[|pieces| - 1];
      EscapeErrors(init) + (if last.Text? && Unescaped(last.text).Err? then [Unescaped(last.text).error] else [])
  }

  method LowerStringFragments(pieces: array<Piece>) returns (errors: seq<EscapeError>)
    modifies pieces
    ensures forall k :: 0 <= k < pieces.Length ==> pieces[k] == Rewritten(old(pieces[k]))
    ensures errors == EscapeErrors(old(pieces[..]))
  {
    errors := [];
    ghost var was := pieces[..];
    for i := 0 to pieces.Length
      invariant forall k :: 0 <= k < pieces.Length ==> pieces[k] == if k < i then Rewritten(was[k]) else was[k]
      invariant errors == EscapeErrors(was[..i])
    {
      assert was[..i + 1][..i] == was[..i];
      if pieces[i].Text? {
        var u := Unescape(pieces[i].text);
        match u {
          case Ok(t) => pieces[i] := Text(t);
          case Err(e) => errors := errors + [e];
        }
      }
    }
    assert was[..pieces.Length] == was;
  }

  function AsPieces(tokens: seq<string>): seq<Piece> {
    seq(|tokens|, i requires 0 <= i < |tokens| => Text(tokens[i]))
  }

  lemma {:induction false} ErrorsIffSomeTokenFails(tokens: seq<string>)
    ensures EscapeErrors(AsPieces(tokens)) == [] <==> (forall i :: 0 <= i < |tokens| ==> Unescaped(tokens[i]).Ok?)
  {
    if tokens != [] {
      var init := tokens[..|tokens| - 1];
      ErrorsIffSomeTokenFails(init);
      assert AsPieces(tokens)[..|tokens| - 1] == AsPieces(init);
      assert forall i :: 0 <= i < |init| ==> init[i] == tokens[i];
    }
  }

  lemma {:induction false} AllOkIffEachOk(tokens: seq<string>)
    ensures UnescapedAll(tokens).Ok? <==> (forall i :: 0 <= i < |tokens| ==> Unescaped(tokens[i]).Ok?)
  {
    if tokens != [] {
      AllOkIffEachOk(tokens[1..]);
      assert forall i :: 0 < i < |tokens| ==> tokens[i] == tokens[1..][i - 1];
    }
  }

  /** The lowering pass reports no escape error exactly when the whole body unescapes. */
  lemma {:induction false} NoEscapeErrorIffBodyUnescapes(body: string)
    requires Tokenize(body).Some?
    ensures EscapeErrors(AsPieces(Tokenize(body).value)) == [] <==> Unescaped(body).Ok?
  {
    TokenwiseUnescape(body);
    ErrorsIffSomeTokenFails(Tokenize(body).value);
    AllOkIffEachOk(Tokenize(body).value);
  }
}
