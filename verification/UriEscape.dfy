// URI escaping: the generated tables, the two run-copying loops, and the
// per-byte meaning they are proved equal to.
module UriEscapes {
  import opened Base

  const PERCENT: byte := 0x25
  const PLUS: byte := 0x2B
  const SLASH: byte := 0x2F
  const SPACE: byte := 0x20
  const NOT_HEX := 16

  datatype EscapeMode = All | Query | Path

  /** The enumerator's value: the largest table entry that passes through. */
  function Level(mode: EscapeMode): nat {
    match mode
    case All => 0
    case Query => 1
    case Path => 2
  }

  /** kUriEscapeTable: the generator's ranges stop short of '9', 'Z' and 'z'. */
  function EscapeTable(b: byte): nat {
    if 0x30 <= b < 0x39 || 0x41 <= b < 0x5A || 0x61 <= b < 0x7A
       || b == 0x2D || b == 0x5F || b == 0x2E || b == 0x7E then 0
    else if b == SLASH then 2
    else if b == SPACE then 3
    else 4
  }

  /** kHexTable */
  function HexTable(b: byte): (h: nat)
    ensures h <= NOT_HEX
  {
    if 0x30 <= b <= 0x39 then b - 0x30
    else if 0x61 <= b <= 0x66 then b - 0x61 + 10
    else if 0x41 <= b <= 0x46 then b - 0x41 + 10
    else NOT_HEX
  }

  /** kHexValues */
  function HexDigit(n: nat): byte
    requires n < 16
  {
    if n < 10 then 0x30 + n else 0x41 + (n - 10)
  }

  predicate UpperHex(b: byte) {
    0x30 <= b <= 0x39 || 0x41 <= b <= 0x46
  }

  predicate PassesThrough(b: byte, mode: EscapeMode) {
    EscapeTable(b) <= Level(mode)
  }

  // ----- Meaning, one byte at a time -----

  function EscapeByte(b: byte, mode: EscapeMode): seq<byte> {
    if PassesThrough(b, mode) then [b]
    else if mode == Query && b == SPACE then [PLUS]
    else [PERCENT, HexDigit(b / 16), HexDigit(b % 16)]
  }

  function Escape(s: seq<byte>, mode: EscapeMode): seq<byte> {
    if s == [] then [] else EscapeByte(s[0], mode) + Escape(s[1..], mode)
  }

  datatype Malformed = IncompleteSequence | InvalidSequence

  /** The decoded text, up to the first malformed sequence if there is one. */
  datatype Unescaped = Unescaped(text: seq<byte>, error: Option<Malformed>) {
    function Prepend(before: seq<byte>): Unescaped {
      Unescaped(before + text, error)
    }
  }

  function Unescape(s: seq<byte>, mode: EscapeMode): Unescaped {
    if s == [] then Unescaped([], None)
    else if s[0] == PERCENT then
      if |s| < 3 then Unescaped([], Some(IncompleteSequence))
      else if HexTable(s[1]) == NOT_HEX || HexTable(s[2]) == NOT_HEX then
        Unescaped([], Some(InvalidSequence))
      else
        Unescape(s[3..], mode).Prepend([HexTable(s[1]) * 16 + HexTable(s[2])])
    else if s[0] == PLUS && mode == Query then Unescape(s[1..], mode).Prepend([SPACE])
    else Unescape(s[1..], mode).Prepend([s[0]])
  }

  /** How much decoded text has been copied out when decoding stops: all up to the last
      byte that was not copied as it is. */
  function Flushed(s: seq<byte>, mode: EscapeMode): (n: nat)
    ensures n <= |Unescape(s, mode).text|
  {
    if s == [] then 0
    else if s[0] == PERCENT then
      if |s| < 3 || HexTable(s[1]) == NOT_HEX || HexTable(s[2]) == NOT_HEX then 0
      else 1 + Flushed(s[3..], mode)
    else if s[0] == PLUS && mode == Query then 1 + Flushed(s[1..], mode)
    else if Flushed(s[1..], mode) == 0 then 0
    else 1 + Flushed(s[1..], mode)
  }

  // ----- The loops -----

  /** UriEscape: `last` trails the run of pass-through bytes not yet copied. */
  method UriEscape(input: seq<byte>, output: seq<byte>, mode: EscapeMode)
    returns (result: seq<byte>)
    ensures result == output + Escape(input, mode)
  {
    assert Escape([], mode) == [] && input[0..] == input;
    hide Escape;
    result := output;
    var p, last := 0, 0;
    while p != |input|
      invariant 0 <= last <= p <= |input|
      invariant result + input[last..p] + Escape(input[p..], mode) == output + Escape(input, mode)
    {
      var v := input[p];
      var discriminator := EscapeTable(v);
      EscapeStep(input, p, mode);
      ghost var rest := Escape(input[p + 1..], mode);
      if discriminator <= Level(mode) {
        RunGrows(result, input, last, p, rest);
        p := p + 1;
      } else if mode == Query && discriminator == 3 {
        RunFlushed(result, input[last..p], [PLUS], rest);
        result := result + input[last..p] + [PLUS];
        p := p + 1;
        last := p;
        assert input[last..p] == [];
      } else {
        var esc := [PERCENT, HexDigit(v / 16), HexDigit(v % 16)];
        RunFlushed(result, input[last..p], esc, rest);
        result := result + input[last..p] + esc;
        p := p + 1;
        last := p;
        assert input[last..p] == [];
      }
    }
    assert input[p..] == [];
    result := result + input[last..p];
  }

  /** UriUnescape: None, or the exception thrown with the text flushed so far. */
  method UriUnescape(input: seq<byte>, output: seq<byte>, mode: EscapeMode)
    returns (result: seq<byte>, error: Option<Malformed>)
    ensures error == Unescape(input, mode).error
    ensures error.None? ==> result == output + Unescape(input, mode).text
    ensures error.Some? ==> result == output + Unescape(input, mode).text[..Flushed(input, mode)]
  {
    hide Decoded, Flushed, HexTable, Unescape;
    result, error := output, None;
    var p, last := 0, 0;
    DecodedAtStart(input, output, mode);
    while p != |input|
      invariant 0 <= last <= p <= |input|
      invariant Decoded(input, output, mode, result, last, p)
      decreases |input| - p
    {
      var c := input[p];
      UnescapeStep(input, p, mode);
      if c == PERCENT {
        if |input| - p < 3 {
          error := Some(IncompleteSequence);
          DecodedAtError(input, output, mode, result, last, p);
          return;
        }
        var h1, h2 := HexTable(input[p + 1]), HexTable(input[p + 2]);
        if h1 == NOT_HEX || h2 == NOT_HEX {
          error := Some(InvalidSequence);
          DecodedAtError(input, output, mode, result, last, p);
          return;
        }
        DecodedByFlush(input, output, mode, result, last, p, h1 * 16 + h2, 3);
        result := result + input[last..p] + [h1 * 16 + h2];
        p := p + 3;
        last := p;
      } else if c == PLUS && mode == Query {
        DecodedByFlush(input, output, mode, result, last, p, SPACE, 1);
        result := result + input[last..p] + [SPACE];
        p := p + 1;
        last := p;
      } else {
        DecodedByRun(input, output, mode, result, last, p);
        p := p + 1;
      }
    }
    DecodedAtEnd(input, output, mode, result, last);
    result := result + input[last..p];
  }

  /** What the loop of UriUnescape has done by position p, with the run from last on not
      yet copied. */
  ghost predicate Decoded(input: seq<byte>, output: seq<byte>, mode: EscapeMode,
                          result: seq<byte>, last: nat, p: nat) {
    && last <= p <= |input|
    && Unescape(input[p..], mode).Prepend(result + input[last..p]) == Unescape(input, mode).Prepend(output)
    && |result| + Unflushed(p - last, input[p..], mode) == |output| + Flushed(input, mode)
  }

  lemma DecodedAtStart(input: seq<byte>, output: seq<byte>, mode: EscapeMode)
    ensures Decoded(input, output, mode, output, 0, 0)
  {
    assert input[0..] == input && output + input[0..0] == output;
  }

  lemma DecodedByRun(input: seq<byte>, output: seq<byte>, mode: EscapeMode, result: seq<byte>, last: nat, p: nat)
    requires Decoded(input, output, mode, result, last, p) && p < |input|
    requires input[p] != PERCENT && !(input[p] == PLUS && mode == Query)
    ensures Decoded(input, output, mode, result, last, p + 1)
  {
    UnescapeStep(input, p, mode);
    hide Unescape, Flushed;
    PrependTwice(Unescape(input[p + 1..], mode), result + input[last..p], [input[p]]);
    RunGrows(result, input, last, p, []);
  }

  lemma DecodedByFlush(input: seq<byte>, output: seq<byte>, mode: EscapeMode, result: seq<byte>, last: nat, p: nat,
                       item: byte, width: nat)
    requires Decoded(input, output, mode, result, last, p) && p + width <= |input|
    requires Unescape(input[p..], mode) == Unescape(input[p + width..], mode).Prepend([item])
    requires Flushed(input[p..], mode) == 1 + Flushed(input[p + width..], mode)
    ensures Decoded(input, output, mode, result + input[last..p] + [item], p + width, p + width)
  {
    hide Unescape, Flushed;
    PrependTwice(Unescape(input[p + width..], mode), result + input[last..p], [item]);
    assert result + input[last..p] + [item] + input[p + width..p + width] == result + input[last..p] + [item];
  }

  lemma DecodedAtError(input: seq<byte>, output: seq<byte>, mode: EscapeMode, result: seq<byte>, last: nat, p: nat)
    requires Decoded(input, output, mode, result, last, p)
    requires Unescape(input[p..], mode).text == [] && Flushed(input[p..], mode) == 0
    ensures Unescape(input, mode).error == Unescape(input[p..], mode).error
    ensures result == output + Unescape(input, mode).text[..Flushed(input, mode)]
  {
    hide Unescape, Flushed;
    var run, text, n := input[last..p], Unescape(input, mode).text, Flushed(input, mode);
    assert result + run + [] == output + text;
    assert result == (result + run + [])[..|result|];
    assert (output + text)[..|output| + n] == output + text[..n];
  }

  lemma DecodedAtEnd(input: seq<byte>, output: seq<byte>, mode: EscapeMode, result: seq<byte>, last: nat)
    requires Decoded(input, output, mode, result, last, |input|)
    ensures Unescape(input, mode).error == None
    ensures result + input[last..|input|] == output + Unescape(input, mode).text
  {
    assert input[|input|..] == [];
    assert result + input[last..|input|] + [] == result + input[last..|input|];
  }

  /** What is copied out later, of a run of some length and what follows it. */
  function Unflushed(run: nat, s: seq<byte>, mode: EscapeMode): nat {
    if Flushed(s, mode) == 0 then 0 else run + Flushed(s, mode)
  }

  lemma EscapeStep(input: seq<byte>, p: nat, mode: EscapeMode)
    requires p < |input|
    ensures Escape(input[p..], mode) == EscapeByte(input[p], mode) + Escape(input[p + 1..], mode)
  {
    assert input[p..][1..] == input[p + 1..];
  }

  lemma RunGrows(done: seq<byte>, input: seq<byte>, last: nat, p: nat, rest: seq<byte>)
    requires last <= p < |input|
    ensures done + input[last..p] + ([input[p]] + rest) == done + input[last..p + 1] + rest
    ensures done + input[last..p] + [input[p]] == done + input[last..p + 1]
  {
    assert input[last..p + 1] == input[last..p] + [input[p]];
  }

  lemma RunFlushed(done: seq<byte>, run: seq<byte>, item: seq<byte>, rest: seq<byte>)
    ensures done + run + (item + rest) == (done + run + item) + [] + rest
  {
  }

  lemma UnescapeStep(input: seq<byte>, p: nat, mode: EscapeMode)
    requires p < |input|
    ensures
      var u, left := Unescape(input[p..], mode), |input| - p;
      if input[p] == PERCENT then
        if left < 3 then u == Unescaped([], Some(IncompleteSequence))
        else
          var h1, h2 := HexTable(input[p + 1]), HexTable(input[p + 2]);
          if h1 == NOT_HEX || h2 == NOT_HEX then u == Unescaped([], Some(InvalidSequence))
          else u == Unescape(input[p + 3..], mode).Prepend([h1 * 16 + h2])
      else
        u == Unescape(input[p + 1..], mode).Prepend(
          [if input[p] == PLUS && mode == Query then SPACE else input[p]])
    ensures
      var left := |input| - p;
      if input[p] == PERCENT then
        if left < 3 || HexTable(input[p + 1]) == NOT_HEX || HexTable(input[p + 2]) == NOT_HEX then
          Flushed(input[p..], mode) == 0
        else Flushed(input[p..], mode) == 1 + Flushed(input[p + 3..], mode)
      else if input[p] == PLUS && mode == Query then
        Flushed(input[p..], mode) == 1 + Flushed(input[p + 1..], mode)
      else Flushed(input[p..], mode) == Unflushed(1, input[p + 1..], mode)
  {
    hide HexTable;
    assert input[p..][1..] == input[p + 1..];
    assert |input| - p >= 3 ==> input[p..][3..] == input[p + 3..];
  }

  lemma PrependTwice(u: Unescaped, a: seq<byte>, b: seq<byte>)
    ensures u.Prepend(b).Prepend(a) == u.Prepend(a + b)
  {
    assert a + (b + u.text) == (a + b) + u.text;
  }

  // ----- Round trip -----

  /** One escaped byte is one decoding step, whatever follows it. */
  lemma EscapedByteDecodes(b: byte, written: EscapeMode, rest: seq<byte>, read: EscapeMode)
    ensures
      var decoded := if b == SPACE && written == Query && read != Query then PLUS else b;
      Unescape(EscapeByte(b, written) + rest, read) == Unescape(rest, read).Prepend([decoded])
  {
    var s := EscapeByte(b, written) + rest;
    assert s[|EscapeByte(b, written)|..] == rest;
    assert b / 16 * 16 + b % 16 == b;
  }

  /**
   * What one mode writes another reads back, except that a space written in
   * QUERY mode is read as '+' by the other two.
   */
  lemma {:induction false} RoundTripAcrossModes(s: seq<byte>, written: EscapeMode, read: EscapeMode)
    ensures Unescape(Escape(s, written), read).error == None
    ensures Unescape(Escape(s, written), read).text == s
            <==> (written == Query && read != Query ==> SPACE !in s)
  {
    assert Unescape([], read) == Unescaped([], None);
    hide EscapeByte, Unescape;
    if s != [] {
      EscapedByteDecodes(s[0], written, Escape(s[1..], written), read);
      RoundTripAcrossModes(s[1..], written, read);
      assert s == [s[0]] + s[1..];
      var t := Unescape(Escape(s, written), read).text;
      assert t[1..] == Unescape(Escape(s[1..], written), read).text;
    }
  }

  /** Unescaping what was escaped in the same mode gives it back and never throws. */
  lemma RoundTrip(s: seq<byte>, mode: EscapeMode)
    ensures Unescape(Escape(s, mode), mode) == Unescaped(s, None)
  {
    RoundTripAcrossModes(s, mode, mode);
  }

  // ----- What escaping can produce -----

  /**
   * A pass-through byte, '+' for a space in QUERY mode, or '%' and two
   * upper-case hex digits for a byte that had to be encoded; nothing else.
   */
  predicate Canonical(t: seq<byte>, mode: EscapeMode) {
    t == []
    || (PassesThrough(t[0], mode) && Canonical(t[1..], mode))
    || (mode == Query && t[0] == PLUS && Canonical(t[1..], mode))
    || (|t| >= 3 && t[0] == PERCENT && UpperHex(t[1]) && UpperHex(t[2])
        && (var b: byte := HexTable(t[1]) * 16 + HexTable(t[2]);
            !PassesThrough(b, mode) && !(mode == Query && b == SPACE))
        && Canonical(t[3..], mode))
  }

  lemma {:induction false} EscapeIsCanonical(s: seq<byte>, mode: EscapeMode)
    ensures Canonical(Escape(s, mode), mode)
  {
    if s != [] {
      EscapeIsCanonical(s[1..], mode);
      var head := EscapeByte(s[0], mode);
      var t := Escape(s, mode);
      assert t[|head|..] == Escape(s[1..], mode);
      assert s[0] / 16 * 16 + s[0] % 16 == s[0];
    }
  }

  lemma HexPair(h1: byte, h2: byte)
    requires UpperHex(h1) && UpperHex(h2)
    ensures HexTable(h1) < 16 && HexTable(h2) < 16
    ensures var b := HexTable(h1) * 16 + HexTable(h2);
      HexDigit(b / 16) == h1 && HexDigit(b % 16) == h2
  {
  }

  /** A canonical string starts with the escape of the byte it starts by decoding. */
  lemma CanonicalStep(t: seq<byte>, mode: EscapeMode) returns (b: byte, head: nat)
    requires Canonical(t, mode) && t != []
    ensures 0 < head <= |t| && t[..head] == EscapeByte(b, mode)
    ensures Canonical(t[head..], mode)
    ensures Unescape(t, mode) == Unescape(t[head..], mode).Prepend([b])
  {
    if t[0] == PERCENT {
      HexPair(t[1], t[2]);
      hide HexTable, HexDigit;
      b, head := HexTable(t[1]) * 16 + HexTable(t[2]), 3;
    } else {
      b, head := if mode == Query && t[0] == PLUS then SPACE else t[0], 1;
    }
  }

  lemma {:induction false} CanonicalIsEscaped(t: seq<byte>, mode: EscapeMode)
    requires Canonical(t, mode)
    ensures Unescape(t, mode).error == None
    ensures Escape(Unescape(t, mode).text, mode) == t
  {
    if t != [] {
      var b, head := CanonicalStep(t, mode);
      hide Unescape, Canonical;
      CanonicalIsEscaped(t[head..], mode);
      assert Unescape(t, mode).text[1..] == Unescape(t[head..], mode).text;
      assert t == t[..head] + t[head..];
    }
  }

  /** The strings escaping produces are exactly the canonical ones. */
  lemma EscapedExactlyWhenCanonical(t: seq<byte>, mode: EscapeMode)
    ensures Canonical(t, mode) <==> exists s :: Escape(s, mode) == t
  {
    if Canonical(t, mode) {
      CanonicalIsEscaped(t, mode);
    }
    forall s | Escape(s, mode) == t
      ensures Canonical(t, mode)
    {
      EscapeIsCanonical(s, mode);
    }
  }

  /** ALPHA / DIGIT / "-" / "." / "_" / "~", section 2.3 of RFC 3986. */
  predicate Unreserved(b: byte) {
    0x30 <= b <= 0x39 || 0x41 <= b <= 0x5A || 0x61 <= b <= 0x7A
    || b == 0x2D || b == 0x2E || b == 0x5F || b == 0x7E
  }

  /** The unreserved bytes that the table leaves out. */
  predicate LeftOut(b: byte) {
    b == 0x39 || b == 0x5A || b == 0x7A
  }

  /**
   * The header promises that unreserved characters, and '/' in PATH mode, are
   * left unchanged. A string is left unchanged exactly when it is made of
   * those and has no '9', 'Z' or 'z'.
   */
  lemma {:induction false} UnchangedExactlyWhen(s: seq<byte>, mode: EscapeMode)
    ensures |Escape(s, mode)| >= |s|
    ensures Escape(s, mode) == s
            <==> forall b | b in s :: (Unreserved(b) && !LeftOut(b)) || (mode == Path && b == SLASH)
  {
    if s != [] {
      UnchangedExactlyWhen(s[1..], mode);
      var b := s[0];
      assert s == [b] + s[1..];
      assert PassesThrough(b, mode)
        <==> (Unreserved(b) && !LeftOut(b)) || (mode == Path && b == SLASH);
      var head := EscapeByte(b, mode);
      assert Escape(s, mode) == head + Escape(s[1..], mode);
      if PassesThrough(b, mode) {
        assert (head + Escape(s[1..], mode))[1..] == Escape(s[1..], mode);
      } else if mode == Query && b == SPACE {
        assert (head + Escape(s[1..], mode))[0] == PLUS;
      }
    }
  }

  // ----- The digits, and what is malformed -----

  /** Digits are read in either case and written in upper case. */
  lemma DigitsAreHexadecimal(n: nat, c: byte)
    requires n < 16
    ensures HexDigit(n) as char == "0123456789ABCDEF"[n]
    ensures HexTable(c) == n <==> c as char == "0123456789ABCDEF"[n] || c as char == "0123456789abcdef"[n]
  {
  }

  /** Section 2.1 of RFC 3986: a byte that is not left unchanged is '%' and its two digits,
      but for a space in QUERY mode. */
  lemma EscapedByteIsPercentEncoded(b: byte, mode: EscapeMode)
    requires !((Unreserved(b) && !LeftOut(b)) || (mode == Path && b as char == '/'))
    ensures var e, digits := EscapeByte(b, mode), "0123456789ABCDEF";
      if mode == Query && b as char == ' ' then |e| == 1 && e[0] as char == '+'
      else
        && |e| == 3 && e[0] as char == '%'
        && e[1] as char == digits[b / 16] && e[2] as char == digits[b % 16]
  {
  }

  /** Not a '%', or one with two digits behind it. */
  predicate WellEscapedAt(s: seq<byte>, i: nat)
    requires i < |s|
  {
    s[i] as char == '%' ==> i + 2 < |s| && HexTable(s[i + 1]) < 16 && HexTable(s[i + 2]) < 16
  }

  /** How many bytes are read at once. */
  function ItemLength(s: seq<byte>): nat
    requires s != []
  {
    if s[0] as char == '%' then 3 else 1
  }

  lemma DigitIsNoPercent(b: byte)
    ensures HexTable(b) < 16 ==> b as char != '%'
  {
  }

  /** Behind the first item the string is well escaped where it was. */
  lemma WellEscapedBehind(s: seq<byte>, i: nat)
    requires s != [] && WellEscapedAt(s, 0) && i < |s|
    ensures ItemLength(s) <= |s|
    ensures i >= ItemLength(s) ==> (WellEscapedAt(s[ItemLength(s)..], i - ItemLength(s)) <==> WellEscapedAt(s, i))
    ensures i < ItemLength(s) ==> WellEscapedAt(s, i)
  {
    if s[0] as char == '%' {
      DigitIsNoPercent(s[1]);
      DigitIsNoPercent(s[2]);
    }
  }

  /** Of the text decoded up to i the last k bytes were copied as they are, and nothing
      before them, so they are not in the output yet. */
  ghost predicate RunBefore(s: seq<byte>, mode: EscapeMode, i: nat, k: nat) {
    && k <= i <= |s| && |Unescape(s, mode).text| == Flushed(s, mode) + k
    && Unescape(s, mode).text[Flushed(s, mode)..] == s[i - k..i]
    && (Flushed(s, mode) == 0 <==> k == i)
    && LongestPlainRun(s, mode, i, k)
  }

  /** Of the k bytes before i none is decoded, and the one before them is, or is part of a
      sequence that is. */
  predicate LongestPlainRun(s: seq<byte>, mode: EscapeMode, i: nat, k: nat)
    requires k <= i <= |s|
  {
    && (forall j :: i - k <= j < i ==> s[j] as char != '%' && !(mode == Query && s[j] as char == '+'))
    && (k == i || (mode == Query && s[i - k - 1] as char == '+') || (i - k >= 3 && s[i - k - 3] as char == '%'))
  }

  lemma PlainRunBehind(s: seq<byte>, mode: EscapeMode, m: nat, i: nat, k: nat)
    requires 0 < m && k + m <= i <= |s| && LongestPlainRun(s[m..], mode, i - m, k)
    requires k == i - m ==> (mode == Query && m == 1 && s[0] as char == '+') || (m == 3 && s[0] as char == '%')
    ensures LongestPlainRun(s, mode, i, k)
  {
    forall j | i - k <= j < i
      ensures s[j] as char != '%' && !(mode == Query && s[j] as char == '+')
    {
      assert s[j] == s[m..][j - m];
    }
    if k < i - m {
      assert s[m..][i - m - k - 1] == s[i - k - 1];
      assert i - m - k >= 3 ==> s[m..][i - m - k - 3] == s[i - k - 3];
    }
  }

  /** Decoding fails at the first '%' without two digits, as incomplete if the string ends
      there; what is before it has been decoded, and of that the run of bytes copied as they
      are, since the last one that was decoded, is not in the output. */
  lemma {:induction false} MalformedAt(s: seq<byte>, mode: EscapeMode, i: nat) returns (k: nat)
    requires i < |s| && !WellEscapedAt(s, i) && forall j :: 0 <= j < i ==> WellEscapedAt(s, j)
    ensures Unescape(s, mode).error == Some(if |s| - i < 3 then IncompleteSequence else InvalidSequence)
    ensures RunBefore(s, mode, i, k)
    decreases |s|
  {
    if i == 0 {
      k := 0;
    } else {
      var n := ItemLength(s);
      assert WellEscapedAt(s, 0);
      WellEscapedBehind(s, i);
      forall j: nat | j < i - n
        ensures WellEscapedAt(s[n..], j)
      {
        WellEscapedBehind(s, j + n);
      }
      var l := MalformedAt(s[n..], mode, i - n);
      hide WellEscapedAt, Unescape, RunBefore;
      k := MalformedBehind(s, mode, i, l);
    }
  }

  /** One decoding step before the malformed sequence. */
  lemma MalformedBehind(s: seq<byte>, mode: EscapeMode, i: nat, l: nat) returns (k: nat)
    requires s != [] && WellEscapedAt(s, 0) && ItemLength(s) <= i <= |s|
    requires RunBefore(s[ItemLength(s)..], mode, i - ItemLength(s), l)
    ensures RunBefore(s, mode, i, k)
    ensures Unescape(s, mode).error == Unescape(s[ItemLength(s)..], mode).error
  {
    var b := FirstItem(s, mode);
    hide Unescape, WellEscapedAt, RunBefore;
    if Flushed(s, mode) == 0 {
      k := i;
      RunFromStart(s, mode, i, l, b);
    } else {
      k := l;
      RunBehind(s, mode, i, l, b);
    }
  }

  lemma RunFromStart(s: seq<byte>, mode: EscapeMode, i: nat, l: nat, b: byte)
    requires s != [] && 1 <= i <= |s| && s[0] as char != '%' && !(mode == Query && s[0] as char == '+')
    requires Flushed(s, mode) == Flushed(s[1..], mode) == 0
    requires Unescape(s, mode) == Unescape(s[1..], mode).Prepend([s[0]]) && RunBefore(s[1..], mode, i - 1, l)
    ensures RunBefore(s, mode, i, i)
  {
    var text, more := Unescape(s, mode).text, Unescape(s[1..], mode).text;
    hide Unescape, Flushed;
    assert more == more[0..] == s[1..][..i - 1];
    assert s[..i] == [s[0]] + s[1..][..i - 1];
    assert text[0..] == text && s[i - i..i] == s[..i];
    forall j | 0 <= j < i
      ensures s[j] as char != '%' && !(mode == Query && s[j] as char == '+')
    {
      assert j > 0 ==> s[j] == s[1..][j - 1];
    }
  }

  lemma RunBehind(s: seq<byte>, mode: EscapeMode, i: nat, k: nat, b: byte)
    requires s != [] && ItemLength(s) <= i <= |s|
    requires var rest := s[ItemLength(s)..];
      && Unescape(s, mode) == Unescape(rest, mode).Prepend([b]) && Flushed(s, mode) == 1 + Flushed(rest, mode)
      && (Flushed(rest, mode) == 0 ==> s[0] as char == '%' || (mode == Query && s[0] as char == '+'))
      && RunBefore(rest, mode, i - ItemLength(s), k)
    ensures RunBefore(s, mode, i, k)
  {
    var m := ItemLength(s);
    var rest, n := s[m..], i - m;
    var text, more := Unescape(s, mode).text, Unescape(rest, mode).text;
    PlainRunBehind(s, mode, m, i, k);
    hide Unescape, Flushed, LongestPlainRun, ItemLength;
    TailBehind([b], more, Flushed(rest, mode));
    StretchBehind(s, m, n - k, n);
    assert text[Flushed(s, mode)..] == s[i - k..i];
  }

  lemma TailBehind(a: seq<byte>, b: seq<byte>, n: nat)
    requires n <= |b|
    ensures (a + b)[|a| + n..] == b[n..]
  {
  }

  lemma StretchBehind(s: seq<byte>, m: nat, i: nat, j: nat)
    requires i <= j && j + m <= |s|
    ensures s[m..][i..j] == s[m + i..m + j]
  {
  }

  lemma FirstItem(s: seq<byte>, mode: EscapeMode) returns (b: byte)
    requires s != [] && WellEscapedAt(s, 0)
    ensures ItemLength(s) <= |s|
    ensures var rest, plain := s[ItemLength(s)..], s[0] as char != '%' && !(mode == Query && s[0] as char == '+');
      && (plain ==> b == s[0]) && Unescape(s, mode) == Unescape(rest, mode).Prepend([b])
      && Flushed(s, mode) == if plain && Flushed(rest, mode) == 0 then 0 else 1 + Flushed(rest, mode)
  {
    b := if s[0] as char == '%' then HexTable(s[1]) * 16 + HexTable(s[2])
         else if mode == Query && s[0] as char == '+' then SPACE
         else s[0];
  }

  /** Decoding succeeds exactly when every '%' has two digits behind it. */
  lemma DecodesExactlyWhen(s: seq<byte>, mode: EscapeMode)
    ensures Unescape(s, mode).error.None?
            <==> forall i | 0 <= i < |s| && s[i] as char == '%' ::
                   i + 2 < |s| && HexTable(s[i + 1]) < 16 && HexTable(s[i + 2]) < 16
  {
    assert forall i :: 0 <= i < |s| && s[i] as char == '%' && WellEscapedAt(s, i) ==>
      i + 2 < |s| && HexTable(s[i + 1]) < 16 && HexTable(s[i + 2]) < 16;
    hide Unescape, HexTable, RunBefore;
    if i: nat :| i < |s| && !WellEscapedAt(s, i) {
      var first := FirstMalformed(s, i);
      var k := MalformedAt(s, mode, first);
    } else {
      AllWellEscaped(s, mode);
    }
  }

  lemma FirstMalformed(s: seq<byte>, i: nat) returns (first: nat)
    requires i < |s| && !WellEscapedAt(s, i)
    ensures first <= i && !WellEscapedAt(s, first) && forall j :: 0 <= j < first ==> WellEscapedAt(s, j)
  {
    first := 0;
    while WellEscapedAt(s, first)
      invariant first <= i && forall j :: 0 <= j < first ==> WellEscapedAt(s, j)
      decreases i - first
    {
      first := first + 1;
    }
  }

  lemma {:induction false} AllWellEscaped(s: seq<byte>, mode: EscapeMode)
    requires forall i :: 0 <= i < |s| ==> WellEscapedAt(s, i)
    ensures Unescape(s, mode).error.None?
    decreases |s|
  {
    if s != [] {
      var n := ItemLength(s);
      assert WellEscapedAt(s, 0);
      forall j: nat | j < |s| - n
        ensures WellEscapedAt(s[n..], j)
      {
        WellEscapedBehind(s, j + n);
      }
      AllWellEscaped(s[n..], mode);
    }
  }
}
