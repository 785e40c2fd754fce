/** The external scanner: turns line breaks and indentation into NEWLINE, INDENT and DEDENT tokens.

    `ScanResult` is the meaning of one call on a scanner's live state; the class below is the
    scanner itself, with its fixed buffer and in-place updates, proved to follow that meaning. */
module IndentScanner {
  import opened Common

  datatype Token = Newline | Indent | Dedent

  /** Which external tokens the parser would accept; the parser chooses freely. */
  datatype ValidSymbols = ValidSymbols(newline: bool, indent: bool, dedent: bool)

  const MAX_INDENT_LEVELS := 64
  const TAB_WIDTH := 2

  /** The live part of a scanner: open indent levels, queued DEDENTs, queued NEWLINE. */
  datatype State = State(stack: seq<int>, dedents: int, newline: bool)

  const INITIAL := State([0], 0, false)

  /** Open levels: the outermost is 0 and each next one is deeper, within 16 bits. */
  predicate Levels(stack: seq<int>) {
    if |stack| <= 1 then stack == [0]
    else Levels(stack[..|stack| - 1]) && stack[|stack| - 2] < stack[|stack| - 1] < 65536
  }

  /** What every reachable state satisfies. `dedents` stays far below the 8-bit limit. */
  predicate Wellformed(s: State) {
    |s.stack| <= MAX_INDENT_LEVELS && Levels(s.stack) && 0 <= s.dedents < MAX_INDENT_LEVELS
  }

  lemma {:induction false} LevelsOrdered(stack: seq<int>)
    requires Levels(stack)
    ensures |stack| >= 1 && stack[0] == 0
    ensures forall i :: 0 <= i < |stack| ==> 0 <= stack[i] < 65536
    ensures forall i, j :: 0 <= i < j < |stack| ==> stack[i] < stack[j]
  {
    if |stack| > 1 {
      var init := stack[..|stack| - 1];
      LevelsOrdered(init);
      assert forall i :: 0 <= i < |init| ==> init[i] == stack[i];
    }
  }

  function Top(s: State): int
    requires s.stack != []
  {
    s.stack[|s.stack| - 1]
  }

  // ── Reading the text ────────────────────────────────────────────────────────

  predicate IsBreak(c: char) { c == '\n' || c == '\r' }

  predicate IsBlank(c: char) { c == ' ' || c == '\t' }

  predicate AtBreak(text: string, pos: nat) { pos < |text| && IsBreak(text[pos]) }

  predicate AtBlank(text: string, pos: nat) { pos < |text| && IsBlank(text[pos]) }

  function Width(c: char): int { if c == '\t' then TAB_WIDTH else 1 }

  datatype Line = Line(indent: int, start: nat)

  /** Leading blanks measured in 16-bit arithmetic, and where they end. */
  function Measure(text: string, pos: nat, indent: int): (line: Line)
    requires pos <= |text| && 0 <= indent < 65536
    ensures pos <= line.start <= |text| && !AtBlank(text, line.start) && 0 <= line.indent < 65536
    decreases |text| - pos
  {
    if AtBlank(text, pos) then Measure(text, pos + 1, (indent + Width(text[pos])) % 65536)
    else Line(indent, pos)
  }

  /** The next line that is not blank, or whatever follows the last break. */
  function NextLine(text: string, pos: nat): (line: Line)
    requires AtBreak(text, pos)
    ensures pos < line.start <= |text| && !AtBreak(text, line.start) && 0 <= line.indent < 65536
    decreases |text| - pos
  {
    var line := Measure(text, pos + 1, 0);
    if AtBreak(text, line.start) then NextLine(text, line.start) else line
  }

  // ── One call ────────────────────────────────────────────────────────────────

  datatype Scanned = Scanned(state: State, token: Option<Token>, pos: nat)

  /** Close levels deeper than `indent`, never the outermost. */
  function Popped(stack: seq<int>, indent: int): (kept: seq<int>)
    ensures kept <= stack
    ensures |stack| >= 1 ==> |kept| >= 1
    ensures |kept| > 1 ==> kept[|kept| - 1] <= indent
  {
    if |stack| > 1 && stack[|stack| - 1] > indent then Popped(stack[..|stack| - 1], indent) else stack
  }

  function AtEof(s: State, pos: nat, valid: ValidSymbols): Scanned {
    if valid.dedent && |s.stack| > 1 then Scanned(s.(stack := s.stack[..|s.stack| - 1]), Some(Dedent), pos)
    else Scanned(s, None, pos)
  }

  function AtLine(s: State, line: Line, valid: ValidSymbols): Scanned
    requires s.stack != []
  {
    if line.indent > Top(s) && valid.indent then
      var stack := if |s.stack| < MAX_INDENT_LEVELS then s.stack + [line.indent] else s.stack;
      Scanned(s.(stack := stack), Some(Indent), line.start)
    else if line.indent < Top(s) && valid.dedent then
      var kept := Popped(s.stack, line.indent);
      Scanned(State(kept, s.dedents + |s.stack| - |kept| - 1, s.newline || kept[|kept| - 1] == line.indent),
              Some(Dedent), line.start)
    else if line.indent == Top(s) && valid.newline then Scanned(s, Some(Newline), line.start)
    else Scanned(s, None, line.start)
  }

  function ScanResult(s: State, text: string, pos: nat, valid: ValidSymbols): Scanned
    requires s.stack != [] && pos <= |text|
  {
    if s.dedents > 0 && valid.dedent then Scanned(s.(dedents := s.dedents - 1), Some(Dedent), pos)
    else if s.dedents == 0 && s.newline && valid.newline then Scanned(s.(newline := false), Some(Newline), pos)
    else if !valid.newline && !valid.indent && !valid.dedent then Scanned(s, None, pos)
    else if AtBreak(text, pos) then
      var line := NextLine(text, pos);
      if line.start == |text| && line.indent > 0 then AtEof(s, line.start, valid) else AtLine(s, line, valid)
    else if pos == |text| then AtEof(s, pos, valid)
    else Scanned(s, None, pos)
  }

  lemma {:induction false} PoppedIsLevels(stack: seq<int>, indent: int)
    requires Levels(stack)
    ensures Levels(Popped(stack, indent))
  {
    if |stack| > 1 && stack[|stack| - 1] > indent {
      PoppedIsLevels(stack[..|stack| - 1], indent);
    }
  }

  lemma {:induction false} LevelsDeeper(stack: seq<int>, d: int)
    requires Levels(stack) && stack[|stack| - 1] < d < 65536
    ensures Levels(stack + [d])
  {
    assert (stack + [d])[..|stack|] == stack;
  }

  lemma {:induction false} AtLineKeepsWellformed(s: State, line: Line, valid: ValidSymbols)
    requires Wellformed(s) && 0 <= line.indent < 65536 && (s.dedents > 0 ==> !valid.dedent)
    ensures Wellformed(AtLine(s, line, valid).state)
    ensures |s.stack| >= 1 && (line.indent < Top(s) ==> |s.stack| > 1)
  {
    hide Levels, Popped;
    LevelsOrdered(s.stack);
    PoppedIsLevels(s.stack, line.indent);
    if line.indent > Top(s) {
      LevelsDeeper(s.stack, line.indent);
    }
  }

  /** Every call keeps the state well formed: in particular the stack never over- or underflows and
      the queued DEDENTs never wrap. */
  lemma {:induction false} ScanKeepsWellformed(s: State, text: string, pos: nat, valid: ValidSymbols)
    requires Wellformed(s) && pos <= |text|
    ensures Wellformed(ScanResult(s, text, pos, valid).state)
  {
    if AtBreak(text, pos) {
      AtLineKeepsWellformed(s.(dedents := if valid.dedent then 0 else s.dedents), NextLine(text, pos), valid);
    }
  }

  // ── The scanner object ──────────────────────────────────────────────────────

  function LowByte(n: int): Byte { n % 256 }

  function HighByte(n: int): Byte { n / 256 % 256 }

  function EncodedByte(s: State, k: nat): Byte
    requires k < 3 + 2 * |s.stack|
  {
    if k == 0 then |s.stack| % 256
    else if k == 1 then s.dedents % 256
    else if k == 2 then if s.newline then 1 else 0
    else if k % 2 == 1 then LowByte(s.stack[(k - 3) / 2])
    else HighByte(s.stack[(k - 4) / 2])
  }

  /** The byte form handed to the parser: size, queues, then each level in little-endian order. */
  function Encoded(s: State): seq<Byte> {
    seq(3 + 2 * |s.stack|, k requires 0 <= k < 3 + 2 * |s.stack| => EncodedByte(s, k))
  }

  lemma EncodedHeader(s: State)
    requires |s.stack| < 256 && 0 <= s.dedents < 256
    ensures |Encoded(s)| == 3 + 2 * |s.stack|
    ensures Encoded(s)[..3] == [|s.stack|, s.dedents, if s.newline then 1 else 0]
  {
  }

  lemma EncodedLevel(s: State, i: nat)
    requires i < |s.stack|
    ensures |Encoded(s)| == 3 + 2 * |s.stack|
    ensures Encoded(s)[..5 + 2 * i] == Encoded(s)[..3 + 2 * i] + [LowByte(s.stack[i]), HighByte(s.stack[i])]
  {
    assert (3 + 2 * i) % 2 == 1 && (4 + 2 * i) % 2 == 0;
  }

  /** A scanner's fields as the C program holds them, dead slots included. */
  datatype Fields = Fields(slots: seq<int>, size: int, dedents: int, newline: bool)

  predicate InRange(f: Fields) {
    && |f.slots| == MAX_INDENT_LEVELS && (forall i :: 0 <= i < |f.slots| ==> 0 <= f.slots[i] < 65536)
    && 0 <= f.size <= MAX_INDENT_LEVELS && 0 <= f.dedents < 256
  }

  function LiveState(f: Fields): State
    requires InRange(f)
  {
    State(f.slots[..f.size], f.dedents, f.newline)
  }

  /** A level from its low and its high byte. */
  function LevelFrom(low: int, high: int): int { low + 256 * high }

  function Min(a: int, b: int): int { if a <= b then a else b }

  /** The memory a caller hands over with `length` bytes of it in use. Of a buffer that is not empty the
      second byte is read in any case. */
  predicate Readable(memory: seq<Byte>, length: nat) { length <= |memory| && (length > 0 ==> |memory| >= 2) }

  /** What deserializing leaves in the fields. Slots the bytes do not reach keep what they held. */
  function Restored(f: Fields, memory: seq<Byte>, length: nat): (r: Fields)
    requires InRange(f) && Readable(memory, length)
    ensures InRange(r)
  {
    if length == 0 then Fields(f.slots[0 := 0], 1, 0, false)
    else
      var size := Min(memory[0], MAX_INDENT_LEVELS);
      Fields(
        seq(MAX_INDENT_LEVELS, i requires 0 <= i < MAX_INDENT_LEVELS =>
          if i < size && 4 + 2 * i < length then LevelFrom(memory[3 + 2 * i], memory[4 + 2 * i]) else f.slots[i]),
        size,
        memory[1],
        if length > 2 then memory[2] != 0 else f.newline)
  }

  class Scanner {
    var indentStack: array<int>
    var stackSize: int
    var pendingDedents: int
    var pendingNewline: bool

    ghost function Contents(): Fields
      reads this, indentStack
    {
      Fields(indentStack[..], stackSize, pendingDedents, pendingNewline)
    }

    ghost predicate Bounded()
      reads this, indentStack
    {
      && indentStack.Length == MAX_INDENT_LEVELS
      && (forall i :: 0 <= i < indentStack.Length ==> 0 <= indentStack[i] < 65536)
      && 0 <= stackSize <= MAX_INDENT_LEVELS && 0 <= pendingDedents < 256
    }

    ghost function Live(): State
      requires Bounded()
      reads this, indentStack
    {
      State(indentStack[..stackSize], pendingDedents, pendingNewline)
    }

    ghost predicate Valid()
      reads this, indentStack
    {
      Bounded() && Wellformed(Live())
    }

    constructor ()
      ensures Valid() && fresh(indentStack) && Live() == INITIAL
    {
      indentStack := new int[MAX_INDENT_LEVELS](_ => 0);
      stackSize, pendingDedents, pendingNewline := 1, 0, false;
    }

    /** One scan call: the same token, position and live state as `ScanResult` gives. */
    method Scan(text: string, start: nat, valid: ValidSymbols) returns (token: Option<Token>, pos: nat)
      requires Valid() && start <= |text|
      modifies this, indentStack
      ensures Valid() && indentStack == old(indentStack)
      ensures Scanned(Live(), token, pos) == ScanResult(old(Live()), text, start, valid)
    {
      pos := start;
      ghost var s := Live();
      ScanKeepsWellformed(s, text, start, valid);
      if pendingDedents > 0 && valid.dedent {
        pendingDedents := pendingDedents - 1;
        return Some(Dedent), pos;
      }
      if pendingDedents == 0 && pendingNewline && valid.newline {
        pendingNewline := false;
        return Some(Newline), pos;
      }
      if !valid.newline && !valid.indent && !valid.dedent {
        return None, pos;
      }
      if AtBreak(text, pos) {
        while AtBreak(text, pos)
          invariant start <= pos <= |text| && AtBreak(text, pos)
          invariant NextLine(text, start) == NextLine(text, pos)
          invariant Valid() && Live() == s && indentStack == old(indentStack)
          decreases |text| - pos
        {
          ghost var brk := pos;
          pos := pos + 1;
          var indent := 0;
          while AtBlank(text, pos)
            invariant brk < pos <= |text| && 0 <= indent < 65536
            invariant Measure(text, brk + 1, 0) == Measure(text, pos, indent)
            decreases |text| - pos
          {
            indent := (indent + Width(text[pos])) % 65536;
            pos := pos + 1;
          }
          if AtBreak(text, pos) { continue; }
          if pos == |text| && indent > 0 { break; }
          token := TakeLine(Line(indent, pos), valid);
          return;
        }
      }
      if pos == |text| && valid.dedent && stackSize > 1 {
        stackSize := stackSize - 1;
        assert indentStack[..stackSize] == s.stack[..|s.stack| - 1];
        return Some(Dedent), pos;
      }
      return None, pos;
    }

    /** The decision at the first line that is not blank. */
    method TakeLine(line: Line, valid: ValidSymbols) returns (token: Option<Token>)
      requires Valid() && 0 <= line.indent < 65536 && (pendingDedents > 0 ==> !valid.dedent)
      modifies this, indentStack
      ensures Valid() && indentStack == old(indentStack)
      ensures Scanned(Live(), token, line.start) == AtLine(old(Live()), line, valid)
    {
      ghost var s := Live();
      ghost var next := AtLine(s, line, valid);
      hide Levels, Popped;
      AtLineKeepsWellformed(s, line, valid);
      var current := indentStack[stackSize - 1];
      token := None;
      if line.indent > current && valid.indent {
        OpenLevel(line.indent);
        token := Some(Indent);
      } else if line.indent < current && valid.dedent {
        CloseLevels(line.indent);
        token := Some(Dedent);
      } else if line.indent == current && valid.newline {
        token := Some(Newline);
      }
      assert Live() == next.state;
    }

    method OpenLevel(indent: int)
      requires Bounded() && 0 <= indent < 65536
      modifies this`stackSize, indentStack
      ensures Bounded()
      ensures var s := old(Live());
              Live() == s.(stack := if |s.stack| < MAX_INDENT_LEVELS then s.stack + [indent] else s.stack)
    {
      if stackSize < MAX_INDENT_LEVELS {
        indentStack[stackSize] := indent;
        stackSize := stackSize + 1;
      }
    }

    /** Closes down to `indent`: one DEDENT is returned at once, the others are queued. */
    method CloseLevels(indent: int)
      requires Bounded() && pendingDedents == 0
      requires stackSize > 1 && indentStack[stackSize - 1] > indent
      modifies this`stackSize, this`pendingDedents, this`pendingNewline
      ensures Bounded()
      ensures var s := old(Live()); var kept := Popped(s.stack, indent);
              Live() == State(kept, s.dedents + |s.stack| - |kept| - 1, s.newline || kept[|kept| - 1] == indent)
    {
      ghost var s := Live();
      PopLevels(indent);
      ghost var kept := Popped(s.stack, indent);
      if indentStack[stackSize - 1] == indent {
        pendingNewline := true;
      }
      pendingDedents := (pendingDedents - 1) % 256;
    }

    /** Closes the levels deeper than `indent`, queueing one DEDENT for each. */
    method PopLevels(indent: int)
      requires Bounded() && stackSize >= 1 && pendingDedents == 0
      modifies this`stackSize, this`pendingDedents
      ensures var kept := Popped(old(indentStack[..stackSize]), indent);
              && stackSize == |kept| && indentStack[..stackSize] == kept
              && pendingDedents == old(stackSize) - |kept|
    {
      ghost var stack := indentStack[..stackSize];
      assert stack[..stackSize] == stack;
      while stackSize > 1 && indentStack[stackSize - 1] > indent
        invariant 1 <= stackSize <= |stack| && pendingDedents == |stack| - stackSize
        invariant Popped(stack[..stackSize], indent) == Popped(stack, indent)
      {
        assert stack[..stackSize][..stackSize - 1] == stack[..stackSize - 1];
        stackSize := stackSize - 1;
        pendingDedents := (pendingDedents + 1) % 256;
      }
      assert indentStack[..stackSize] == stack[..stackSize];
    }

    /** Writes one level behind the first `at` bytes. */
    static method PutLevel(buffer: array<Byte>, at: nat, level: int)
      requires at + 2 <= buffer.Length
      modifies buffer
      ensures buffer[..at + 2] == old(buffer[..at]) + [LowByte(level), HighByte(level)]
    {
      buffer[at] := LowByte(level);
      buffer[at + 1] := HighByte(level);
    }

    /** Writes the encoding and returns its size; at most 131 of the parser's 1024 bytes. */
    method Serialize(buffer: array<Byte>) returns (size: nat)
      requires Valid() && buffer.Length >= 1024
      modifies buffer
      ensures size <= 131 && buffer[..size] == Encoded(Live())
    {
      hide EncodedByte, LowByte, HighByte, Levels, Encoded;
      ghost var s := Live();
      EncodedHeader(s);
      buffer[0], buffer[1] := stackSize, pendingDedents;
      buffer[2] := if pendingNewline then 1 else 0;
      size := 3;
      var i := 0;
      while i < stackSize
        invariant 0 <= i <= stackSize == |s.stack| && size == 3 + 2 * i
        invariant unchanged(this, indentStack)
        invariant |Encoded(s)| == 3 + 2 * |s.stack| && buffer[..size] == Encoded(s)[..size]
        decreases stackSize - i
      {
        EncodedLevel(s, i);
        PutLevel(buffer, size, indentStack[i]);
        size := size + 2;
        i := i + 1;
      }
    }

    /** Overwrites the fields from a buffer, whatever they held before. */
    method Deserialize(buffer: array<Byte>, length: nat)
      requires Bounded() && Readable(buffer[..], length)
      modifies this, indentStack
      ensures indentStack == old(indentStack) && Bounded()
      ensures Contents() == Restored(old(Contents()), buffer[..], length)
    {
      ghost var target := Restored(Contents(), buffer[..], length);
      if length == 0 {
        indentStack[0] := 0;
        stackSize, pendingDedents, pendingNewline := 1, 0, false;
        return;
      }
      stackSize := buffer[0];
      if stackSize > MAX_INDENT_LEVELS {
        stackSize := MAX_INDENT_LEVELS;
      }
      pendingDedents := buffer[1];
      var pos := 2;
      if pos < length {
        pendingNewline := buffer[pos] != 0;
        pos := pos + 1;
      }
      ReadLevels(buffer, length, pos);
      assert indentStack[..] == target.slots;
    }

    /** Overwrites the levels below `stackSize` for which the buffer holds both bytes. */
    method ReadLevels(buffer: array<Byte>, length: nat, start: nat)
      requires Bounded() && length <= buffer.Length
      modifies indentStack
      ensures forall k :: 0 <= k < MAX_INDENT_LEVELS ==>
                indentStack[k] == if k < stackSize && start + 2 * k + 1 < length
                                  then LevelFrom(buffer[start + 2 * k], buffer[start + 2 * k + 1])
                                  else old(indentStack[k])
    {
      var i, pos := 0, start;
      while i < stackSize && pos + 1 < length
        invariant 0 <= i <= stackSize && pos == start + 2 * i
        invariant forall k :: 0 <= k < i ==>
                    && start + 2 * k + 1 < length
                    && indentStack[k] == LevelFrom(buffer[start + 2 * k], buffer[start + 2 * k + 1])
        invariant forall k :: i <= k < MAX_INDENT_LEVELS ==> indentStack[k] == old(indentStack[k])
        decreases stackSize - i
      {
        indentStack[i] := LevelFrom(buffer[pos], buffer[pos + 1]);
        pos := pos + 2;
        i := i + 1;
      }
    }
  }
}
