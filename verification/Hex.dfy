/** The `~hex` squiggle's decoder: hexadecimal text to bytes. */
module Hex {
  import opened Common

  datatype HexError = InvalidCharacter(ch: char) | OddNibbleCount

  predicate IsAsciiWhitespace(c: char) {
    c == ' ' || c == '\t' || c == '\n' || c == '\r' || c == '\U{000C}'
  }

  predicate IsHexDigit(c: char) {
    '0' <= c <= '9' || 'a' <= c <= 'f' || 'A' <= c <= 'F'
  }

  function NibbleOf(c: char): (n: int)
    requires IsHexDigit(c)
    ensures 0 <= n < 16
  {
    if c <= '9' then c as int - '0' as int
    else if 'a' <= c then c as int - 'a' as int + 10
    else c as int - 'A' as int + 10
  }

  /** The characters that carry meaning, in order. */
  function Significant(s: string): string {
    if s == [] then []
    else if IsAsciiWhitespace(s[0]) then Significant(s[1..])
    else [s[0]] + Significant(s[1..])
  }

  predicate AllHex(s: string) { forall c <- s :: IsHexDigit(c) }

  function FirstBad(s: string): (c: char)
    requires !AllHex(s)
    ensures c in s && !IsHexDigit(c)
  {
    if !IsHexDigit(s[0]) then s[0] else FirstBad(s[1..])
  }

  function PairUp(digits: string): seq<Byte>
    requires AllHex(digits) && |digits| % 2 == 0
  {
    seq(|digits| / 2, k requires 0 <= k < |digits| / 2 =>
      NibbleOf(digits[2 * k]) * 16 + NibbleOf(digits[2 * k + 1]))
  }

  /** What decoding means: an error for the first character that is not a digit,
      then for an odd count, and otherwise the paired digits. */
  function Decode(s: string): Result<seq<Byte>, HexError> {
    var digits := Significant(s);
    if !AllHex(digits) then Err(InvalidCharacter(FirstBad(digits)))
    else if |digits| % 2 != 0 then Err(OddNibbleCount)
    else Ok(PairUp(digits))
  }

  lemma {:induction false} SignificantConcat(s: string, t: string)
    ensures Significant(s + t) == Significant(s) + Significant(t)
  {
    if s == [] {
      assert s + t == t;
    } else {
      assert (s + t)[1..] == s[1..] + t;
      SignificantConcat(s[1..], t);
    }
  }

  lemma {:induction false} FirstBadAfterGood(good: string, rest: string)
    requires AllHex(good) && !AllHex(rest)
    ensures !AllHex(good + rest) && FirstBad(good + rest) == FirstBad(rest)
  {
    var bad := FirstBad(rest);
    assert bad in good + rest;
    if good == [] {
      assert good + rest == rest;
    } else {
      assert (good + rest)[1..] == good[1..] + rest;
      FirstBadAfterGood(good[1..], rest);
    }
  }

  /** What the loop holds after the digits `seen`: the paired bytes and a lone high nibble, if any. */
  ghost predicate Holds(seen: string, bytes: seq<Byte>, high: Option<int>) {
    && AllHex(seen)
    && (high.Some? <==> |seen| % 2 == 1)
    && (high.Some? ==> high.value == NibbleOf(seen[|seen| - 1]))
    && bytes == PairUp(seen[..|seen| / 2 * 2])
  }

  lemma DigitTaken(seen: string, bytes: seq<Byte>, high: Option<int>, c: char)
    requires Holds(seen, bytes, high) && IsHexDigit(c)
    ensures high.None? ==> Holds(seen + [c], bytes, Some(NibbleOf(c)))
    ensures high.Some? ==> Holds(seen + [c], bytes + [high.value * 16 + NibbleOf(c)], None)
  {
    var more := seen + [c];
    if high.None? {
      assert more[..|more| / 2 * 2] == seen[..|seen| / 2 * 2];
    } else {
      assert more[..|more| / 2 * 2] == more;
      assert seen[..|seen| / 2 * 2] == more[..|more| - 2];
    }
  }

  lemma DigitsDone(seen: string, bytes: seq<Byte>)
    requires Holds(seen, bytes, None)
    ensures |seen| % 2 == 0 && AllHex(seen) && bytes == PairUp(seen)
  {
    assert seen[..|seen| / 2 * 2] == seen;
  }

  lemma BadCharacterDecides(s: string, i: nat)
    requires i < |s| && AllHex(Significant(s[..i])) && !IsHexDigit(s[i]) && !IsAsciiWhitespace(s[i])
    ensures Decode(s) == Err(InvalidCharacter(s[i]))
  {
    assert s == s[..i] + s[i..];
    SignificantConcat(s[..i], s[i..]);
    assert s[i] == Significant(s[i..])[0];
    FirstBadAfterGood(Significant(s[..i]), Significant(s[i..]));
  }

  lemma OneCharacterMore(s: string, i: nat)
    requires i < |s|
    ensures Significant(s[..i + 1]) ==
              if IsAsciiWhitespace(s[i]) then Significant(s[..i]) else Significant(s[..i]) + [s[i]]
  {
    assert s[..i + 1] == s[..i] + [s[i]];
    SignificantConcat(s[..i], [s[i]]);
  }

  /** The loop of the source: one pending high nibble, bytes pushed in order. */
  method DecodeHex(s: string) returns (r: Result<seq<Byte>, HexError>)
    ensures r == Decode(s)
  {
    hide Significant, PairUp, FirstBad;
    var bytes: seq<Byte> := [];
    var high: Option<int> := None;
    NothingSeen(s);
    for i := 0 to |s|
      invariant Holds(Significant(s[..i]), bytes, high)
    {
      OneCharacterMore(s, i);
      if IsAsciiWhitespace(s[i]) { continue; }
      if !IsHexDigit(s[i]) {
        BadCharacterDecides(s, i);
        return Err(InvalidCharacter(s[i]));
      }
      DigitTaken(Significant(s[..i]), bytes, high, s[i]);
      match high {
        case None => high := Some(NibbleOf(s[i]));
        case Some(hi) =>
          high := None;
          bytes := bytes + [hi * 16 + NibbleOf(s[i])];
      }
    }
    assert s[..|s|] == s;
    if high.Some? {
      return Err(OddNibbleCount);
    }
    DigitsDone(Significant(s), bytes);
    return Ok(bytes);
  }

  lemma NothingSeen(s: string)
    ensures Holds(Significant(s[..0]), [], None)
  {
    assert s[..0] == [];
  }

  // ── Round trip with base16 (section 8 of RFC 4648) ──────────────────────────

  function DigitOf(n: int): (c: char)
    requires 0 <= n < 16
    ensures IsHexDigit(c) && NibbleOf(c) == n
  {
    if n < 10 then '0' + n as char else 'A' + (n - 10) as char
  }

  /** Two digits a byte, the high nibble first. */
  function Base16(bytes: seq<Byte>): string {
    seq(2 * |bytes|, i requires 0 <= i < 2 * |bytes| =>
      DigitOf(if i % 2 == 0 then bytes[i / 2] / 16 else bytes[i / 2] % 16))
  }

  function ToUpper(c: char): char {
    if 'a' <= c <= 'f' then c - 'a' + 'A' else c
  }

  predicate SameUpToCase(s: string, t: string) {
    |s| == |t| && forall i :: 0 <= i < |s| ==> ToUpper(s[i]) == ToUpper(t[i])
  }

  lemma CaseKeepsNibble(c: char, d: char)
    requires IsHexDigit(d) && ToUpper(c) == ToUpper(d)
    ensures IsHexDigit(c) && NibbleOf(c) == NibbleOf(d)
  {
  }

  lemma DigitMatchesCode(bytes: seq<Byte>, digits: string, k: nat)
    requires SameUpToCase(digits, Base16(bytes)) && k < |bytes|
    ensures IsHexDigit(digits[2 * k]) && NibbleOf(digits[2 * k]) == bytes[k] / 16
    ensures IsHexDigit(digits[2 * k + 1]) && NibbleOf(digits[2 * k + 1]) == bytes[k] % 16
  {
    CaseKeepsNibble(digits[2 * k], DigitOf(bytes[k] / 16));
    CaseKeepsNibble(digits[2 * k + 1], DigitOf(bytes[k] % 16));
  }

  lemma PairedDigits(bytes: seq<Byte>, digits: string)
    requires SameUpToCase(digits, Base16(bytes))
    ensures AllHex(digits) && |digits| == 2 * |bytes| && PairUp(digits) == bytes
  {
    forall i | 0 <= i < |digits|
      ensures IsHexDigit(digits[i])
    {
      DigitMatchesCode(bytes, digits, i / 2);
    }
    forall k | 0 <= k < |bytes|
      ensures PairUp(digits)[k] == bytes[k]
    {
      DigitMatchesCode(bytes, digits, k);
    }
  }

  /** Decoding inverts base16 whatever the letter case and wherever whitespace is inserted. */
  lemma DecodeInvertsBase16(bytes: seq<Byte>, s: string)
    requires SameUpToCase(Significant(s), Base16(bytes))
    ensures Decode(s) == Ok(bytes)
  {
    PairedDigits(bytes, Significant(s));
  }

  /** Success is exactly: only hex digits besides whitespace, and an even number of them. */
  lemma DecodeSucceedsIff(s: string)
    ensures Decode(s).Ok? <==>
              (forall c <- s :: IsAsciiWhitespace(c) || IsHexDigit(c)) && |Significant(s)| % 2 == 0
  {
    SignificantMembers(s);
  }

  lemma {:induction false} SignificantMembers(s: string)
    ensures forall c :: c in Significant(s) <==> c in s && !IsAsciiWhitespace(c)
  {
    if s != [] {
      SignificantMembers(s[1..]);
      assert s == [s[0]] + s[1..];
    }
  }

  /** Text that decodes on its own can be cut off: the rest decides success and any error. */
  lemma DecodeDistributes(s: string, t: string)
    requires Decode(s).Ok?
    ensures Decode(s + t) ==
              match Decode(t)
              case Ok(bytes) => Ok(Decode(s).value + bytes)
              case Err(e) => Err(e)
  {
    hide Significant;
    SignificantConcat(s, t);
    var a, b := Significant(s), Significant(t);
    if AllHex(b) {
      assert AllHex(a + b);
      if |b| % 2 == 0 {
        PairUpConcat(a, b);
      }
    } else {
      hide PairUp;
      FirstBadAfterGood(a, b);
    }
  }

  lemma PairUpConcat(a: string, b: string)
    requires AllHex(a) && AllHex(b) && |a| % 2 == 0 && |b| % 2 == 0
    ensures AllHex(a + b) && PairUp(a + b) == PairUp(a) + PairUp(b)
  {
  }
}
