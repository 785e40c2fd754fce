/** Properties of the scanner over whole runs, whatever the parser asks for. */
module ScannerRuns {
  import opened Common
  import opened IndentScanner

  /** One call by the parser: it may pick any text position and any set of acceptable tokens. */
  datatype Call = Call(text: string, pos: nat, valid: ValidSymbols)

  predicate InText(calls: seq<Call>) {
    forall i :: 0 <= i < |calls| ==> calls[i].pos <= |calls[i].text|
  }

  function CountBreaks(s: string): nat {
    if s == [] then 0 else (if IsBreak(s[0]) then 1 else 0) + CountBreaks(s[1..])
  }

  /** What a run produced: `breaks` counts the line-break characters its tokens consumed, `overflows`
      the INDENTs emitted while the stack was full. */
  datatype Trace = Trace(state: State, tokens: seq<Token>, breaks: nat, overflows: nat)

  function Observe(t: Trace, call: Call): Trace
    requires t.state.stack != [] && call.pos <= |call.text|
  {
    var r := ScanResult(t.state, call.text, call.pos, call.valid);
    if r.token.None? then t.(state := r.state)
    else Trace(
      r.state,
      t.tokens + [r.token.value],
      t.breaks + if call.pos <= r.pos <= |call.text| then CountBreaks(call.text[call.pos..r.pos]) else 0,
      t.overflows + if r.token.value == Indent && |t.state.stack| == MAX_INDENT_LEVELS then 1 else 0)
  }

  function Run(s: State, calls: seq<Call>): (t: Trace)
    requires Wellformed(s) && InText(calls)
    ensures Wellformed(t.state)
  {
    if calls == [] then Trace(s, [], 0, 0)
    else
      var before, call := Run(s, calls[..|calls| - 1]), calls[|calls| - 1];
      ScanKeepsWellformed(before.state, call.text, call.pos, call.valid);
      Observe(before, call)
  }

  // ── Conservation ────────────────────────────────────────────────────────────

  function Count(t: Token, tokens: seq<Token>): nat { multiset(tokens)[t] }

  function Balance(tokens: seq<Token>): int { Count(Indent, tokens) - Count(Dedent, tokens) }

  /** Levels still to be closed: open ones and queued DEDENTs. */
  function Owed(s: State): int { |s.stack| - 1 + s.dedents }

  lemma OneCallConserves(s: State, call: Call)
    requires Wellformed(s) && call.pos <= |call.text|
    ensures var r := ScanResult(s, call.text, call.pos, call.valid);
            && (r.token.None? ==> r.state == s)
            && (r.token == Some(Newline) ==> Owed(r.state) == Owed(s))
            && (r.token == Some(Dedent) ==> Owed(r.state) == Owed(s) - 1)
            && (r.token == Some(Indent) ==>
                  Owed(r.state) == Owed(s) + if |s.stack| == MAX_INDENT_LEVELS then 0 else 1)
  {
  }

  /** INDENTs minus DEDENTs emitted is always what the state still owes plus the overflowed INDENTs. */
  lemma {:induction false} Conservation(calls: seq<Call>)
    requires InText(calls)
    ensures var t := Run(INITIAL, calls);
            Balance(t.tokens) == Owed(t.state) + t.overflows
  {
    if calls != [] {
      var init, call := calls[..|calls| - 1], calls[|calls| - 1];
      Conservation(init);
      OneCallConserves(Run(INITIAL, init).state, call);
    }
  }

  /** Over every run the stack holds 1 to 64 levels, strictly deeper from 0, and the 8-bit counter
      of queued DEDENTs keeps its true value. */
  lemma {:induction false} ReachableStates(calls: seq<Call>)
    requires InText(calls)
    ensures var s := Run(INITIAL, calls).state;
            && 1 <= |s.stack| <= MAX_INDENT_LEVELS && s.stack[0] == 0 && 0 <= s.dedents < 256
            && forall i, j :: 0 <= i < j < |s.stack| ==> s.stack[i] < s.stack[j]
  {
    LevelsOrdered(Run(INITIAL, calls).state.stack);
  }

  // ── Progress and the amortised bound ────────────────────────────────────────

  /** Each token strictly shortens the remaining text or, on the same text, what the state holds;
      a refusal changes nothing. */
  lemma Progress(s: State, call: Call)
    requires Wellformed(s) && call.pos <= |call.text|
    ensures var r := ScanResult(s, call.text, call.pos, call.valid);
            && call.pos <= r.pos <= |call.text|
            && (r.token.None? ==> r.state == s)
            && (r.token.Some? ==> r.pos > call.pos || (r.pos == call.pos && Held(r.state) < Held(s)))
  {
  }

  function Held(s: State): int { s.dedents + |s.stack| + if s.newline then 1 else 0 }

  lemma BreakIsCounted(s: string)
    requires s != [] && IsBreak(s[0])
    ensures CountBreaks(s) >= 1
  {
  }

  lemma {:induction false} OneCallPays(s: State, call: Call)
    requires Wellformed(s) && call.pos <= |call.text|
    ensures var r := ScanResult(s, call.text, call.pos, call.valid);
            r.token.Some? ==>
              Held(r.state) + 1 <= Held(s) + 2 * CountBreaks(call.text[call.pos..r.pos])
  {
    Progress(s, call);
    var r := ScanResult(s, call.text, call.pos, call.valid);
    if r.pos > call.pos {
      BreakIsCounted(call.text[call.pos..r.pos]);
    }
  }

  /** Over any run, at most twice as many tokens as line-break characters consumed. */
  lemma {:induction false} AmortisedBound(calls: seq<Call>)
    requires InText(calls)
    ensures var t := Run(INITIAL, calls);
            |t.tokens| + Held(t.state) <= 1 + 2 * t.breaks && |t.tokens| <= 2 * t.breaks
  {
    if calls != [] {
      var init, call := calls[..|calls| - 1], calls[|calls| - 1];
      AmortisedBound(init);
      var s := Run(INITIAL, init).state;
      Progress(s, call);
      OneCallPays(s, call);
    }
  }

  // ── Serialization ───────────────────────────────────────────────────────────

  lemma LevelRoundTrip(n: int)
    requires 0 <= n < 65536
    ensures LowByte(n) + 256 * HighByte(n) == n
  {
  }

  lemma SlotRestored(f: Fields, s: State, memory: seq<Byte>, i: nat)
    requires InRange(f) && |s.stack| <= MAX_INDENT_LEVELS && i < |s.stack| && 0 <= s.stack[i] < 65536
    requires Encoded(s) <= memory
    ensures Restored(f, memory, |Encoded(s)|).slots[i] == s.stack[i]
  {
    var bytes := Encoded(s);
    assert memory[0] == bytes[0] == |s.stack|;
    assert memory[3 + 2 * i] == bytes[3 + 2 * i] == EncodedByte(s, 3 + 2 * i) == LowByte(s.stack[i]);
    assert memory[4 + 2 * i] == bytes[4 + 2 * i] == EncodedByte(s, 4 + 2 * i) == HighByte(s.stack[i]);
    LevelRoundTrip(s.stack[i]);
  }

  lemma HeaderRestored(f: Fields, s: State, memory: seq<Byte>)
    requires InRange(f) && |s.stack| <= MAX_INDENT_LEVELS && 0 <= s.dedents < 256 && Encoded(s) <= memory
    ensures var r := Restored(f, memory, |Encoded(s)|);
            |Encoded(s)| <= 131 && r.size == |s.stack| && r.dedents == s.dedents && r.newline == s.newline
  {
    var bytes := Encoded(s);
    assert memory[0] == bytes[0] == EncodedByte(s, 0) && memory[1] == bytes[1] == EncodedByte(s, 1);
    assert memory[2] == bytes[2] == EncodedByte(s, 2);
  }

  /** Restoring a state's bytes over any old field contents, whatever lies behind them in memory, gives
      that state back. */
  lemma RestoreEncoded(f: Fields, s: State, memory: seq<Byte>)
    requires InRange(f) && Wellformed(s) && Encoded(s) <= memory
    ensures |Encoded(s)| <= 131 && LiveState(Restored(f, memory, |Encoded(s)|)) == s
  {
    hide Restored, EncodedByte, Levels;
    var r := Restored(f, memory, |Encoded(s)|);
    HeaderRestored(f, s, memory);
    LevelsOrdered(s.stack);
    forall i | 0 <= i < |s.stack|
      ensures r.slots[i] == s.stack[i]
    {
      SlotRestored(f, s, memory, i);
    }
    assert r.slots[..r.size] == s.stack;
  }

  /** A parser may drop a scanner and restore it later from its bytes, into one that held anything:
      every later sequence of calls sees the same tokens and states as if nothing had happened. */
  lemma {:induction false} RestoredScannerIsBisimilar(before: seq<Call>, f: Fields, memory: seq<Byte>,
                                                      after: seq<Call>)
    requires InText(before) && InText(after) && InRange(f) && Encoded(Run(INITIAL, before).state) <= memory
    ensures var s := Run(INITIAL, before).state;
            var resumed := LiveState(Restored(f, memory, |Encoded(s)|));
            && Wellformed(resumed)
            && Run(resumed, after) == Run(s, after)
            && |Encoded(s)| <= 131 <= 1024
  {
    RestoreEncoded(f, Run(INITIAL, before).state, memory);
  }
}
