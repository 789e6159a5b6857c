/** Which texts are read as the size of a chunk, and as which number. */
module ChunkClaims {
  import opened Prelude
  import opened WireCodec
  import opened ChunkedBody

  /** b is the digit d of base 16, in either case. */
  predicate IsDigit(b: byte, d: nat) {
    d < 16 && (b as int == "0123456789abcdef"[d] as int || b as int == "0123456789ABCDEF"[d] as int)
  }

  lemma DigitIs(b: byte, d: nat)
    ensures HexDigit(b) == Some(d) <==> IsDigit(b, d)
  {
    if d < 10 {
      assert "0123456789abcdef"[d] as int == 48 + d && "0123456789ABCDEF"[d] as int == 48 + d;
    } else if d < 16 {
      assert "0123456789abcdef"[d] as int == 87 + d && "0123456789ABCDEF"[d] as int == 55 + d;
    }
  }

  /** Space, tab, line feed, vertical tab, form feed and carriage return. */
  predicate Spaces(s: Bytes) { forall i | 0 <= i < |s| :: s[i] == 32 || 9 <= s[i] as int <= 13 }

  ghost predicate Digit(b: byte) { exists d: nat :: IsDigit(b, d) }

  /** Digits, with an underscore between two of them at most. */
  ghost predicate Grouped(s: Bytes) {
    && s != [] && s[0] != 95 && s[|s| - 1] != 95
    && (forall i | 0 <= i < |s| :: s[i] == 95 || Digit(s[i]))
    && forall i | 0 <= i < |s| - 1 :: s[i] != 95 || s[i + 1] != 95
  }

  /** The number they stand for. */
  ghost predicate Number(s: Bytes, n: nat)
    decreases |s|
  {
    if s == [] then n == 0
    else if s[|s| - 1] == 95 then Number(s[..|s| - 1], n)
    else exists d: nat :: EndsWith(s, d) && n >= d && (n - d) % 16 == 0 && Number(s[..|s| - 1], (n - d) / 16)
  }

  predicate EndsWith(s: Bytes, d: nat) { s != [] && IsDigit(s[|s| - 1], d) }

  lemma NumberMore(s: Bytes, d: nat, k: nat)
    requires EndsWith(s, d) && s[|s| - 1] != 95 && Number(s[..|s| - 1], k)
    ensures Number(s, 16 * k + d)
  {
    assert (16 * k + d - d) / 16 == k && (16 * k + d - d) % 16 == 0;
    hide IsDigit;
  }

  lemma DigitKnown(b: byte)
    ensures Digit(b) <==> HexDigit(b).Some?
    ensures HexDigit(b).Some? ==> IsDigit(b, HexDigit(b).value)
    ensures forall d: nat | IsDigit(b, d) :: HexDigit(b) == Some(d)
  {
    forall d: nat ensures HexDigit(b) == Some(d) <==> IsDigit(b, d) { DigitIs(b, d); }
    hide IsDigit;
  }

  function Before(s: Bytes): Bytes
    requires |s| > 1
  {
    if s[|s| - 2] == UNDERSCORE then s[..|s| - 2] else s[..|s| - 1]
  }

  lemma GroupedFront(s: Bytes)
    requires |s| > 1 && HexDigit(s[|s| - 1]).Some?
    ensures Grouped(s) <==> Grouped(Before(s))
  {
    hide HexDigit, IsDigit;
    var n := |s|;
    DigitKnown(s[n - 1]);
    hide Digit;
    var front := Before(s);
    assert s[n - 1] != 95 by { Underscore(); }
    if Grouped(front) {
      forall i | 0 <= i < n ensures s[i] == 95 || Digit(s[i]) {
        if i < |front| { assert front[i] == s[i]; }
      }
      forall i | 0 <= i < n - 1 ensures s[i] != 95 || s[i + 1] != 95 {
        if i < |front| - 1 { assert front[i] == s[i] && front[i + 1] == s[i + 1]; }
      }
    }
  }

  lemma Underscore()
    ensures HexDigit(95) == None
  {
  }

  /** What the digits before the last one stand for, with the underscore in between or not. */
  lemma NumberFront(s: Bytes, k: nat)
    requires |s| > 1 && Number(Before(s), k)
    ensures Number(s[..|s| - 1], k)
  {
    var n := |s|;
    assert s[..n - 1][..n - 2] == s[..n - 2];
    assert s[..n - 1][n - 2] == s[n - 2];
  }

  lemma DigitRunMore(s: Bytes)
    requires s != []
    ensures DigitRun(s).Some? ==> HexDigit(s[|s| - 1]).Some?
    ensures HexDigit(s[|s| - 1]).Some? && |s| == 1 ==> DigitRun(s) == HexDigit(s[0])
    ensures HexDigit(s[|s| - 1]).Some? && |s| > 1 ==>
      && (DigitRun(s).Some? <==> DigitRun(Before(s)).Some?)
      && (DigitRun(s).Some? ==> DigitRun(s).value == 16 * DigitRun(Before(s)).value + HexDigit(s[|s| - 1]).value)
  {
    hide HexDigit;
  }

  lemma LastDigit(s: Bytes)
    requires s != [] && HexDigit(s[|s| - 1]).Some?
    ensures EndsWith(s, HexDigit(s[|s| - 1]).value) && s[|s| - 1] != 95
  {
    DigitKnown(s[|s| - 1]);
    Underscore();
    hide HexDigit, IsDigit;
  }

  lemma OneDigit(s: Bytes)
    requires |s| == 1 && HexDigit(s[0]).Some?
    ensures Grouped(s) && Number(s, HexDigit(s[0]).value)
  {
    LastDigit(s);
    DigitKnown(s[0]);
    assert s[..0] == [];
    NumberMore(s, HexDigit(s[0]).value, 0);
    hide HexDigit, IsDigit, EndsWith, Number;
  }

  lemma NumberStep(s: Bytes, k: nat)
    requires |s| > 1 && HexDigit(s[|s| - 1]).Some? && Number(Before(s), k)
    ensures Number(s, 16 * k + HexDigit(s[|s| - 1]).value)
  {
    hide HexDigit, EndsWith, Number, Before;
    LastDigit(s);
    NumberFront(s, k);
    NumberMore(s, HexDigit(s[|s| - 1]).value, k);
  }

  lemma GroupedEnds(s: Bytes)
    requires Grouped(s)
    ensures s != [] && HexDigit(s[|s| - 1]).Some?
  {
    DigitKnown(s[|s| - 1]);
    hide HexDigit, IsDigit, Digit;
  }

  lemma NoRun(s: Bytes)
    ensures s == [] || HexDigit(s[|s| - 1]) == None ==> DigitRun(s) == None && !Grouped(s)
  {
    if Grouped(s) { GroupedEnds(s); }
    hide HexDigit, Digit;
  }

  lemma {:induction false} DigitRunIs(s: Bytes)
    ensures DigitRun(s).Some? <==> Grouped(s)
    ensures DigitRun(s).Some? ==> Number(s, DigitRun(s).value)
    decreases |s|
  {
    hide HexDigit, Grouped, Number, DigitRun, Before;
    NoRun(s);
    if s != [] && HexDigit(s[|s| - 1]).Some? {
      DigitRunMore(s);
      if |s| == 1 {
        OneDigit(s);
      } else {
        GroupedFront(s);
        assert |Before(s)| < |s| by { BeforeIsShorter(s); }
        DigitRunIs(Before(s));
        if DigitRun(Before(s)).Some? { NumberStep(s, DigitRun(Before(s)).value); }
      }
    }
  }

  lemma BeforeIsShorter(s: Bytes)
    requires |s| > 1
    ensures |Before(s)| < |s|
  {
  }

  /** A digit run stands for one number. */
  lemma {:induction false} OneNumber(s: Bytes, m: nat, n: nat)
    requires Number(s, m) && Number(s, n)
    ensures m == n
    decreases |s|
  {
    if s != [] {
      var front, last := s[..|s| - 1], s[|s| - 1];
      if last == 95 {
        OneNumber(front, m, n);
      } else {
        var d: nat :| EndsWith(s, d) && m >= d && (m - d) % 16 == 0 && Number(front, (m - d) / 16);
        var e: nat :| EndsWith(s, e) && n >= e && (n - e) % 16 == 0 && Number(front, (n - e) / 16);
        DigitKnown(last);
        OneNumber(front, (m - d) / 16, (n - e) / 16);
      }
    }
  }

  // ----- sign and prefix -----

  /** Nothing, or "0x" or "0X", which one underscore may follow. */
  predicate IsPrefix(prefix: Bytes) {
    || prefix == [] || prefix == [48, 120] || prefix == [48, 88] || prefix == [48, 120, 95] || prefix == [48, 88, 95]
  }

  lemma PrefixGoes(prefix: Bytes, digits: Bytes)
    requires IsPrefix(prefix) && Grouped(digits)
    ensures AfterPrefix(prefix + digits) == digits
    ensures prefix + digits != [] && (prefix + digits)[0] != 43 && (prefix + digits)[0] != 45
  {
    DigitKnown(digits[0]);
    if |digits| > 1 { DigitKnown(digits[1]); }
    hide IsDigit, Digit;
    var s := prefix + digits;
    if prefix == [] {
      assert s == digits;
    } else {
      assert s[0] == 48 && s[|prefix|..] == digits && s[|prefix|] == digits[0];
      assert prefix[1] == s[1];
      assert |prefix| == 3 ==> s[2] == 95;
    }
  }

  lemma PrefixOf(s: Bytes) returns (prefix: Bytes)
    ensures IsPrefix(prefix) && s == prefix + AfterPrefix(s)
  {
    var n := |s| - |AfterPrefix(s)|;
    prefix := s[..n];
    assert n == 0 || prefix == [s[0], s[1]] || prefix == [s[0], s[1], s[2]];
  }

  /** Unsigned text. */
  lemma UnsignedIs(s: Bytes, m: nat)
    ensures DigitRun(AfterPrefix(s)) == Some(m) <==> Unsigned(s, m)
  {
    if DigitRun(AfterPrefix(s)) == Some(m) {
      var prefix := PrefixOf(s);
      DigitRunIs(AfterPrefix(s));
      hide IsPrefix, AfterPrefix, DigitRun, Grouped, Number;
      assert s == prefix + AfterPrefix(s);
    }
    if prefix, digits :| s == prefix + digits && IsPrefix(prefix) && Grouped(digits) && Number(digits, m) {
      PrefixGoes(prefix, digits);
      DigitRunIs(digits);
      hide IsPrefix, AfterPrefix, DigitRun, Grouped;
      OneNumber(digits, m, DigitRun(digits).value);
    }
  }

  /** A natural number, perhaps behind a prefix. */
  ghost predicate Unsigned(s: Bytes, m: nat) {
    exists prefix, digits :: s == prefix + digits && IsPrefix(prefix) && Grouped(digits) && Number(digits, m)
  }

  /** An integer as Python's int(text, 16) reads it, without the space around it. */
  ghost predicate Integer(s: Bytes, n: int) {
    || (n >= 0 && Unsigned(s, n))
    || (s != [] && s[0] == 43 && n >= 0 && Unsigned(s[1..], n))
    || (s != [] && s[0] == 45 && n <= 0 && Unsigned(s[1..], -n))
  }

  lemma SignIsNot(s: Bytes, m: nat)
    requires Unsigned(s, m)
    ensures s != [] && s[0] != 43 && s[0] != 45
  {
    var prefix, digits :| s == prefix + digits && IsPrefix(prefix) && Grouped(digits) && Number(digits, m);
    PrefixGoes(prefix, digits);
  }

  lemma PlusIs(s: Bytes, n: int)
    requires s != [] && s[0] != 45
    ensures PythonHex(s) == Some(n) <==> n >= 0 && Unsigned(if s[0] == 43 then s[1..] else s, n)
  {
    hide AfterPrefix, DigitRun, Unsigned;
    var t := if s[0] == 43 then s[1..] else s;
    var read := DigitRun(AfterPrefix(t));
    assert PythonHex(s) == if read == None then None else Some(read.value);
    if n >= 0 { UnsignedIs(t, n); }
  }

  lemma MinusIs(s: Bytes, n: int)
    requires s != [] && s[0] == 45
    ensures PythonHex(s) == Some(n) <==> n <= 0 && Unsigned(s[1..], -n)
  {
    hide AfterPrefix, DigitRun, Unsigned;
    var read := DigitRun(AfterPrefix(s[1..]));
    assert PythonHex(s).Some? <==> read.Some?;
    assert read.Some? ==> PythonHex(s).value + read.value == 0;
    if n <= 0 { UnsignedIs(s[1..], -n); }
  }

  lemma IntegerIs(s: Bytes, n: int)
    ensures PythonHex(s) == Some(n) <==> Integer(s, n)
  {
    if n >= 0 && Unsigned(s, n) { SignIsNot(s, n); }
    if s != [] {
      if s[0] == 45 { MinusIs(s, n); } else { PlusIs(s, n); }
    }
    hide Unsigned, PythonHex;
  }

  // ----- the whole line -----

  /** The line up to a semicolon, without the space around it, is this integer. */
  ghost predicate SizeLine(line: Bytes, n: int) {
    exists before, text, blank, rest ::
      && line == before + text + blank + rest && Spaces(before) && Spaces(blank)
      && Integer(text, n) && (rest == [] || rest[0] == 59)
  }

  lemma SpaceIs(s: Bytes)
    ensures Spaces(s) <==> forall i | 0 <= i < |s| :: IsSpace(s[i])
  {
  }

  predicate Plain(b: byte) { b != 59 && b != 32 && !(9 <= b as int <= 13) }

  lemma DigitsArePlain(digits: Bytes)
    requires Grouped(digits)
    ensures forall i | 0 <= i < |digits| :: Plain(digits[i])
  {
    forall i | 0 <= i < |digits| ensures Plain(digits[i]) { DigitKnown(digits[i]); }
  }

  lemma UnsignedIsPlain(s: Bytes, m: nat)
    requires Unsigned(s, m)
    ensures s != [] && forall i | 0 <= i < |s| :: Plain(s[i])
  {
    var prefix, digits :| s == prefix + digits && IsPrefix(prefix) && Grouped(digits) && Number(digits, m);
    DigitsArePlain(digits);
  }

  /** Signs, prefixes and digits are neither space nor semicolon. */
  lemma IntegerIsPlain(s: Bytes, n: int)
    requires Integer(s, n)
    ensures s != [] && forall i | 0 <= i < |s| :: Plain(s[i])
  {
    hide Plain, Unsigned;
    assert Plain(43) && Plain(45) by { SignsArePlain(); }
    if n >= 0 && Unsigned(s, n) {
      UnsignedIsPlain(s, n);
    } else {
      UnsignedIsPlain(s[1..], if s[0] == 45 then -n else n);
      forall i | 0 <= i < |s| ensures Plain(s[i]) { if i > 0 { assert s[1..][i - 1] == s[i]; } }
    }
  }

  lemma SignsArePlain()
    ensures Plain(43) && Plain(45)
  {
  }

  lemma {:induction false} LeftOf(before: Bytes, s: Bytes)
    requires Spaces(before) && (s == [] || !IsSpace(s[0]))
    ensures StripLeft(before + s) == s
  {
    if before == [] {
      assert before + s == s;
    } else {
      assert (before + s)[1..] == before[1..] + s;
      LeftOf(before[1..], s);
    }
  }

  lemma {:induction false} LeftIs(s: Bytes) returns (before: Bytes)
    ensures s == before + StripLeft(s) && Spaces(before)
  {
    before := [];
    if s != [] && IsSpace(s[0]) {
      before := LeftIs(s[1..]);
      before := [s[0]] + before;
    }
  }

  lemma {:induction false} RightIs(s: Bytes) returns (blank: Bytes)
    ensures s == StripRight(s) + blank && Spaces(blank)
  {
    blank := [];
    if s != [] && IsSpace(s[|s| - 1]) {
      blank := RightIs(s[..|s| - 1]);
      blank := blank + [s[|s| - 1]];
    }
  }

  lemma {:induction false} FrontIs(line: Bytes) returns (rest: Bytes)
    ensures line == BeforeSemicolon(line) + rest && (rest == [] || rest[0] == 59)
  {
    rest := line;
    if line != [] && line[0] != SEMICOLON { rest := FrontIs(line[1..]); }
  }

  lemma SizeOfParts(before: Bytes, text: Bytes, blank: Bytes, rest: Bytes)
    requires Spaces(before) && Spaces(blank) && (rest == [] || rest[0] == 59)
    requires text != [] && forall i | 0 <= i < |text| :: Plain(text[i])
    ensures SizeOfLine(before + text + blank + rest) == PythonHex(text)
  {
    var front := before + text + blank;
    forall i | 0 <= i < |front| ensures front[i] != SEMICOLON {
      assert i < |before| ==> front[i] == before[i];
      assert |before| <= i < |before| + |text| ==> front[i] == text[i - |before|];
      assert i >= |before| + |text| ==> front[i] == blank[i - |before| - |text|];
    }
    BeforeSemicolonOf(front, rest);
    SpaceIs(blank);
    assert Plain(text[0]) && Plain(text[|text| - 1]);
    hide PythonHex, BeforeSemicolon;
    assert front == before + (text + blank);
    LeftOf(before, text + blank);
    StripRightOf(text, blank);
  }

  lemma SizeParts(line: Bytes, n: int)
    requires SizeOfLine(line) == Some(n)
    ensures SizeLine(line, n)
  {
    hide PythonHex, Integer, Spaces;
    var rest := FrontIs(line);
    var front := BeforeSemicolon(line);
    var before := LeftIs(front);
    var blank := RightIs(StripLeft(front));
    var text := StripRight(StripLeft(front));
    IntegerIs(text, n);
    hide BeforeSemicolon, StripLeft, StripRight;
    assert line == before + text + blank + rest;
  }

  /** A chunk-size line is read as this number exactly when it says so. */
  lemma SizeIff(line: Bytes, n: int)
    ensures SizeOfLine(line) == Some(n) <==> SizeLine(line, n)
  {
    if SizeOfLine(line) == Some(n) { SizeParts(line, n); }
    if SizeLine(line, n) {
      var before, text, blank, rest :|
        && line == before + text + blank + rest && Spaces(before) && Spaces(blank)
        && Integer(text, n) && (rest == [] || rest[0] == 59);
      hide Spaces, Plain, SizeOfLine, PythonHex, Integer;
      IntegerIsPlain(text, n);
      SizeOfParts(before, text, blank, rest);
      IntegerIs(text, n);
    }
  }
}
