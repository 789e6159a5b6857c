/** The JSON text of the guard journal.  Strings stand for byte strings: json.dumps
    writes ASCII only, so every character of the text is one byte.  Objects keep
    their fields in the order they are written; the journal writes them sorted. */
module CanonicalJson {
  import opened Prelude

  datatype Json =
    | JString(text: string)
    | JInt(value: int)
    | JBool(flag: bool)
    | JObject(fields: seq<Field>)

  datatype Field = Field(key: string, value: Json)

  predicate Ascii(s: string) {
    forall i | 0 <= i < |s| :: s[i] < '\U{80}'
  }

  predicate AsciiJson(v: Json) {
    match v
    case JString(s) => Ascii(s)
    case JInt(_) => true
    case JBool(_) => true
    case JObject(fs) => forall i | 0 <= i < |fs| :: Ascii(fs[i].key) && AsciiJson(fs[i].value)
  }

  // ----- printing -----

  function HexDigit(n: nat): char
    requires n < 16
  {
    "0123456789abcdef"[n]
  }

  function HexValue(c: char): (r: Option<nat>)
    ensures r.Some? ==> r.value < 16
  {
    if '0' <= c <= '9' then Some(c as int - '0' as int)
    else if 'a' <= c <= 'f' then Some(c as int - 'a' as int + 10)
    else if 'A' <= c <= 'F' then Some(c as int - 'A' as int + 10)
    else None
  }

  function EscapeChar(c: char): string {
    if c == '"' then "\\\""
    else if c == '\\' then "\\\\"
    else if ' ' <= c <= '~' then [c]
    else if c == '\n' then "\\n"
    else if c == '\r' then "\\r"
    else if c == '\t' then "\\t"
    else if c == '\U{8}' then "\\b"
    else if c == '\U{C}' then "\\f"
    else "\\u00" + [HexDigit(c as int / 16 % 16), HexDigit(c as int % 16)]
  }

  function Escape(s: string): string {
    if s == "" then "" else EscapeChar(s[0]) + Escape(s[1..])
  }

  function PrintString(s: string): string { "\"" + Escape(s) + "\"" }

  predicate Digit(c: char) { '0' <= c <= '9' }

  function PrintNat(n: nat): (s: string)
    ensures |s| > 0 && forall i | 0 <= i < |s| :: Digit(s[i])
  {
    if n < 10 then [HexDigit(n)] else PrintNat(n / 10) + [HexDigit(n % 10)]
  }

  function PrintInt(n: int): string {
    if n < 0 then "-" + PrintNat(-n) else PrintNat(n)
  }

  function Print(v: Json): string
    decreases v, 0
  {
    match v
    case JString(s) => PrintString(s)
    case JInt(n) => PrintInt(n)
    case JBool(b) => if b then "true" else "false"
    case JObject(fs) => "{" + (if fs == [] then "}" else PrintMembers(fs))
  }

  /** The members of a non-empty object and its closing brace. */
  function PrintMembers(fs: seq<Field>): string
    requires fs != []
    decreases fs, 1
  {
    PrintString(fs[0].key) + ":" + Print(fs[0].value) +
    if |fs| == 1 then "}" else "," + PrintMembers(fs[1..])
  }

  // ----- parsing -----

  function SkipSpace(t: string): (r: string)
    ensures |r| <= |t|
  {
    if t != "" && t[0] in " \t\n\r" then SkipSpace(t[1..]) else t
  }

  /** One character of a string literal and the number of characters that spell it. */
  function ParseChar(t: string): (r: Option<(char, nat)>)
    requires t != ""
    ensures r.Some? ==> 0 < r.value.1 <= |t|
  {
    if t[0] == '\\' then
      if |t| < 2 then None
      else if t[1] == 'u' then ParseUnicodeEscape(t)
      else match ShortEscape(t[1])
        case None => None
        case Some(c) => Some((c, 2))
    else if t[0] < ' ' || t[0] >= '\U{80}' then None
    else Some((t[0], 1))
  }

  /** A four-digit escape; the model keeps to ASCII. */
  function ParseUnicodeEscape(t: string): (r: Option<(char, nat)>)
    ensures r.Some? ==> r.value.1 == 6 <= |t|
  {
    if |t| < 6 || t[2] != '0' || t[3] != '0' then None
    else match (HexValue(t[4]), HexValue(t[5]))
      case (Some(high), Some(low)) => if high < 8 then Some(((high * 16 + low) as char, 6)) else None
      case _ => None
  }

  /** The characters up to the closing quote. */
  function ParseChars(t: string): (r: Option<(string, string)>)
    ensures r.Some? ==> |r.value.1| < |t|
  {
    if t == "" then None
    else if t[0] == '"' then Some(("", t[1..]))
    else match ParseChar(t)
      case None => None
      case Some((c, n)) =>
        match ParseChars(t[n..])
        case None => None
        case Some((s, rest)) => Some(([c] + s, rest))
  }

  function ShortEscape(c: char): Option<char> {
    if c == '"' || c == '\\' || c == '/' then Some(c)
    else if c == 'n' then Some('\n')
    else if c == 'r' then Some('\r')
    else if c == 't' then Some('\t')
    else if c == 'b' then Some('\U{8}')
    else if c == 'f' then Some('\U{C}')
    else None
  }

  function DigitPrefix(t: string): (n: nat)
    ensures n <= |t| && forall i | 0 <= i < n :: Digit(t[i])
  {
    if t != "" && Digit(t[0]) then 1 + DigitPrefix(t[1..]) else 0
  }

  function DigitValue(c: char): nat
    requires Digit(c)
  {
    c as int - '0' as int
  }

  function DigitsValue(s: string): nat
    requires forall i | 0 <= i < |s| :: Digit(s[i])
  {
    if s == "" then 0 else DigitsValue(s[..|s| - 1]) * 10 + DigitValue(s[|s| - 1])
  }

  /** A JSON integer; a leading zero, a fraction or an exponent is refused. */
  function ParseNat(t: string): (r: Option<(nat, string)>)
    ensures r.Some? ==> |r.value.1| < |t|
  {
    var n := DigitPrefix(t);
    if n == 0 || (n > 1 && t[0] == '0') || (n < |t| && t[n] in ".eE") then None
    else Some((DigitsValue(t[..n]), t[n..]))
  }

  function Parse(text: string): (r: Option<(Json, string)>)
    ensures r.Some? ==> |r.value.1| < |text|
    decreases |text|, 2
  {
    var t := SkipSpace(text);
    if t != "" && t[0] == '{' then ParseObject(t[1..]) else ParseScalar(t)
  }

  /** A string, a number, true or false; null and arrays never occur in a journal record. */
  function ParseScalar(t: string): (r: Option<(Json, string)>)
    ensures r.Some? ==> |r.value.1| < |t|
  {
    if t == "" then None
    else if t[0] == '"' then
      match ParseChars(t[1..])
      case None => None
      case Some((s, rest)) => Some((JString(s), rest))
    else if t[0] == '-' then
      match ParseNat(t[1..])
      case None => None
      case Some((n, rest)) => Some((JInt(0 - n), rest))
    else if t[0] == 't' then
      if "true" <= t then Some((JBool(true), t[4..])) else None
    else if t[0] == 'f' then
      if "false" <= t then Some((JBool(false), t[5..])) else None
    else match ParseNat(t)
      case None => None
      case Some((n, rest)) => Some((JInt(n), rest))
  }

  /** What follows an opening brace. */
  function ParseObject(t: string): (r: Option<(Json, string)>)
    ensures r.Some? ==> |r.value.1| < |t|
    decreases |t|, 1
  {
    var body := SkipSpace(t);
    if body != "" && body[0] == '}' then Some((JObject([]), body[1..]))
    else match ParseMembers(body)
      case None => None
      case Some((fs, rest)) => Some((JObject(fs), rest))
  }

  /** A key and its colon. */
  function ParseKey(t: string): (r: Option<(string, string)>)
    ensures r.Some? ==> |r.value.1| < |t|
  {
    if t == "" || t[0] != '"' then None
    else match ParseChars(t[1..])
      case None => None
      case Some((key, afterKey)) =>
        var colon := SkipSpace(afterKey);
        if colon == "" || colon[0] != ':' then None else Some((key, colon[1..]))
  }

  function ParseMembers(text: string): (r: Option<(seq<Field>, string)>)
    ensures r.Some? ==> |r.value.1| < |text|
    decreases |text|, 0
  {
    match ParseKey(SkipSpace(text))
    case None => None
    case Some((key, afterColon)) =>
      match Parse(afterColon)
      case None => None
      case Some((value, afterValue)) =>
        var next := SkipSpace(afterValue);
        if next == "" then None
        else if next[0] == '}' then Some(([Field(key, value)], next[1..]))
        else if next[0] != ',' then None
        else match ParseMembers(next[1..])
          case None => None
          case Some((fs, rest)) => Some(([Field(key, value)] + fs, rest))
  }

  /** json.loads of one whole line. */
  function Loads(line: string): Option<Json> {
    match Parse(line)
    case None => None
    case Some((v, rest)) => if SkipSpace(rest) == "" then Some(v) else None
  }

  // ----- parsing undoes printing -----

  lemma ParseEscapedChar(c: char, tail: string)
    requires c < '\U{80}'
    ensures ParseChar(EscapeChar(c) + tail) == Some((c, |EscapeChar(c)|))
  {
    var e := EscapeChar(c);
    var t := e + tail;
    assert t[..|e|] == e;
    if |e| == 6 {
      ParseHexEscape(c, tail);
    } else if |e| == 2 {
      assert t[0] == e[0] && t[1] == e[1];
    } else {
      assert t[0] == e[0];
    }
  }

  lemma ParseHexEscape(c: char, tail: string)
    requires c < '\U{80}' && |EscapeChar(c)| == 6
    ensures ParseUnicodeEscape(EscapeChar(c) + tail) == Some((c, 6))
    ensures EscapeChar(c)[0] == '\\' && EscapeChar(c)[1] == 'u'
  {
    var n := c as int;
    var high, low := n / 16 % 16, n % 16;
    Nibbles(n);
    HexForm(c);
    hide EscapeChar, HexDigit, HexValue, ParseUnicodeEscape;
    HexRoundTrip(high);
    HexRoundTrip(low);
    ParseTwoDigits(HexDigit(high), HexDigit(low), high, low, tail);
  }

  lemma Nibbles(n: nat)
    requires n < 128
    ensures n / 16 % 16 < 8 && n / 16 % 16 * 16 + n % 16 == n
  {
  }

  lemma HexForm(c: char)
    requires c < '\U{80}' && |EscapeChar(c)| == 6
    ensures EscapeChar(c) == "\\u00" + [HexDigit(c as int / 16 % 16), HexDigit(c as int % 16)]
  {
    hide HexDigit;
  }

  lemma ParseTwoDigits(a: char, b: char, high: nat, low: nat, tail: string)
    requires HexValue(a) == Some(high) && HexValue(b) == Some(low) && high < 8
    ensures ParseUnicodeEscape("\\u00" + [a, b] + tail) == Some(((high * 16 + low) as char, 6))
  {
    hide HexValue;
    var t := "\\u00" + [a, b] + tail;
    assert t[2] == '0' && t[3] == '0' && t[4] == a && t[5] == b;
  }

  lemma EscapeStarts(c: char)
    ensures EscapeChar(c) != "" && EscapeChar(c)[0] != '"'
  {
    hide HexDigit;
  }

  lemma {:induction false} ParseEscaped(s: string, rest: string)
    requires Ascii(s)
    ensures ParseChars(Escape(s) + "\"" + rest) == Some((s, rest))
  {
    var t := Escape(s) + "\"" + rest;
    if s == "" {
      assert t[1..] == rest;
    } else {
      var e, tail := EscapeChar(s[0]), Escape(s[1..]) + "\"" + rest;
      assert t == e + tail;
      hide EscapeChar, Escape, ParseChar;
      ParseEscaped(s[1..], rest);
      ParseEscapedChar(s[0], tail);
      EscapeStarts(s[0]);
      assert t[|e|..] == tail;
      assert t[0] == e[0];
      assert [s[0]] + s[1..] == s;
    }
  }

  lemma HexRoundTrip(n: nat)
    requires n < 16
    ensures HexValue(HexDigit(n)) == Some(n)
  {
    if n < 10 {
      assert HexDigit(n) as int == '0' as int + n;
    }
  }

  lemma DigitsValueMore(s: string, n: nat)
    requires n < 10 && forall i | 0 <= i < |s| :: Digit(s[i])
    ensures Digit(HexDigit(n)) && DigitsValue(s + [HexDigit(n)]) == DigitsValue(s) * 10 + n
  {
    DecimalDigit(n);
    hide HexDigit;
    assert (s + [HexDigit(n)])[..|s|] == s;
  }

  lemma DecimalDigit(n: nat)
    requires n < 10
    ensures Digit(HexDigit(n)) && DigitValue(HexDigit(n)) == n
  {
  }

  lemma {:induction false} PrintNatValue(n: nat)
    ensures DigitsValue(PrintNat(n)) == n
    ensures n > 0 ==> PrintNat(n)[0] != '0'
    ensures n == 0 ==> PrintNat(n) == "0"
  {
    if n < 10 {
      DigitsValueMore("", n);
      DecimalDigit(n);
      hide HexDigit;
      assert "" + [HexDigit(n)] == [HexDigit(n)];
    } else {
      PrintNatValue(n / 10);
      DigitsValueMore(PrintNat(n / 10), n % 10);
      hide DigitsValue, HexDigit;
      assert PrintNat(n)[0] == PrintNat(n / 10)[0];
    }
  }

  lemma {:induction false} DigitPrefixOf(s: string, rest: string)
    requires forall i | 0 <= i < |s| :: Digit(s[i])
    requires rest == "" || !Digit(rest[0])
    ensures DigitPrefix(s + rest) == |s|
  {
    if s == "" {
      assert s + rest == rest;
    } else {
      DigitPrefixOf(s[1..], rest);
      assert (s + rest)[1..] == s[1..] + rest;
    }
  }

  lemma ParsePrintedNat(n: nat, rest: string)
    requires Stops(rest)
    ensures ParseNat(PrintNat(n) + rest) == Some((n, rest))
  {
    var s := PrintNat(n);
    PrintNatValue(n);
    DigitPrefixOf(s, rest);
    assert (s + rest)[..|s|] == s && (s + rest)[|s|..] == rest;
    if |s| > 1 {
      assert n != 0;
      assert (s + rest)[0] == s[0];
    }
  }

  /** What follows a printed value never continues a number. */
  predicate Stops(rest: string) {
    rest == "" || rest[0] in ",}"
  }

  lemma SkipNothing(t: string)
    requires t == "" || t[0] !in " \t\n\r"
    ensures SkipSpace(t) == t
  {
  }

  lemma {:induction false} ParsePrintedInt(n: int, rest: string)
    requires Stops(rest)
    ensures ParseScalar(PrintInt(n) + rest) == Some((JInt(n), rest))
  {
    hide PrintNat, ParseNat;
    if n < 0 {
      var digits := PrintNat(-n);
      ParsePrintedNat(-n, rest);
      var t := "-" + digits + rest;
      assert t[0] == '-' && t[1..] == digits + rest;
    } else {
      var digits := PrintNat(n);
      ParsePrintedNat(n, rest);
      assert Digit(digits[0]) && (digits + rest)[0] == digits[0];
    }
  }

  lemma ParsePrintedScalar(v: Json, rest: string)
    requires !v.JObject? && AsciiJson(v) && Stops(rest)
    ensures ParseScalar(Print(v) + rest) == Some((v, rest))
    ensures Print(v) != "" && Print(v)[0] !in " \t\n\r{"
  {
    match v
    case JString(s) => ParsePrintedString(s, rest);
    case JInt(n) =>
      hide ParseScalar;
      ParsePrintedInt(n, rest);
      assert Digit(Print(v)[0]) || Print(v)[0] == '-';
    case JBool(b) => ParsePrintedBool(b, rest);
  }

  lemma ParsePrintedString(s: string, rest: string)
    requires Ascii(s)
    ensures ParseScalar(PrintString(s) + rest) == Some((JString(s), rest))
    ensures PrintString(s) != "" && PrintString(s)[0] !in " \t\n\r{"
  {
    hide Escape, ParseChars;
    var t := PrintString(s) + rest;
    assert t[1..] == Escape(s) + "\"" + rest;
    ParseEscaped(s, rest);
  }

  lemma ParsePrintedBool(b: bool, rest: string)
    ensures ParseScalar(Print(JBool(b)) + rest) == Some((JBool(b), rest))
    ensures Print(JBool(b)) != "" && Print(JBool(b))[0] !in " \t\n\r{"
  {
    var word := if b then "true" else "false";
    var t := word + rest;
    assert t[0] == word[0];
    assert t[|word|..] == rest;
  }

  lemma {:induction false} ParsePrinted(v: Json, rest: string)
    requires AsciiJson(v) && Stops(rest)
    ensures Parse(Print(v) + rest) == Some((v, rest))
    decreases v, 0
  {
    hide ParseScalar, PrintMembers, PrintString, PrintInt, Escape;
    var t := Print(v) + rest;
    if v.JObject? {
      SkipNothing(t);
      ParsePrintedObject(v.fields, rest);
      hide ParseObject;
      assert t[1..] == Print(v)[1..] + rest;
    } else {
      ParsePrintedScalar(v, rest);
      assert t[0] == Print(v)[0];
      SkipNothing(t);
    }
  }

  lemma {:induction false} ParsePrintedObject(fs: seq<Field>, rest: string)
    requires AsciiJson(JObject(fs)) && Stops(rest)
    ensures ParseObject(Print(JObject(fs))[1..] + rest) == Some((JObject(fs), rest))
    decreases fs, 2
  {
    var t := Print(JObject(fs))[1..] + rest;
    if fs == [] {
      assert t == "}" + rest;
      assert t[1..] == rest;
    } else {
      assert t == PrintMembers(fs) + rest;
      ParsePrintedMembers(fs, rest);
      assert t[0] == '"';
      SkipNothing(t);
    }
  }

  /** What follows the first member of an object. */
  function AfterMember(fs: seq<Field>, rest: string): string
    requires fs != []
  {
    (if |fs| == 1 then "}" else "," + PrintMembers(fs[1..])) + rest
  }

  lemma {:induction false} ParsePrintedMembers(fs: seq<Field>, rest: string)
    requires fs != [] && AsciiJson(JObject(fs)) && Stops(rest)
    ensures ParseMembers(PrintMembers(fs) + rest) == Some((fs, rest))
    decreases fs, 1
  {
    var Field(key, value) := fs[0];
    var more := AfterMember(fs, rest);
    ParsePrinted(value, more);
    if |fs| > 1 {
      ParsePrintedMembers(fs[1..], rest);
    }
    ParseFirstMember(fs, rest);
  }

  lemma ParsePrintedKey(key: string, tail: string)
    requires Ascii(key)
    ensures ParseKey(PrintString(key) + ":" + tail) == Some((key, tail))
  {
    var t := PrintString(key) + ":" + tail;
    assert t[1..] == Escape(key) + "\"" + (":" + tail);
    ParseEscaped(key, ":" + tail);
    SkipNothing(":" + tail);
    assert (":" + tail)[1..] == tail;
  }

  lemma {:induction false} PrintMembersUnfold(fs: seq<Field>, rest: string)
    requires fs != []
    ensures PrintMembers(fs) + rest == PrintString(fs[0].key) + ":" + (Print(fs[0].value) + AfterMember(fs, rest))
    ensures (PrintMembers(fs) + rest)[0] == '"'
  {
    hide Print, Escape;
    var head, value := PrintString(fs[0].key) + ":", Print(fs[0].value);
    var tail := if |fs| == 1 then "}" else "," + PrintMembers(fs[1..]);
    assert PrintMembers(fs) == head + value + tail;
    assert head + value + tail + rest == head + (value + (tail + rest));
  }

  lemma ParseFirstMember(fs: seq<Field>, rest: string)
    requires fs != [] && Ascii(fs[0].key)
    requires Parse(Print(fs[0].value) + AfterMember(fs, rest)) == Some((fs[0].value, AfterMember(fs, rest)))
    requires |fs| > 1 ==> ParseMembers(PrintMembers(fs[1..]) + rest) == Some((fs[1..], rest))
    ensures ParseMembers(PrintMembers(fs) + rest) == Some((fs, rest))
  {
    hide Parse, Print, ParseKey, PrintString, Ascii;
    var more := AfterMember(fs, rest);
    PrintMembersUnfold(fs, rest);
    SkipNothing(PrintMembers(fs) + rest);
    ParsePrintedKey(fs[0].key, Print(fs[0].value) + more);
    AfterMemberHead(fs, rest);
    SkipNothing(more);
    MembersStep(PrintMembers(fs) + rest, Print(fs[0].value) + more, fs[0], more);
    if |fs| == 1 {
      assert fs == [fs[0]];
    } else {
      assert fs == [fs[0]] + fs[1..];
    }
  }

  lemma AfterMemberHead(fs: seq<Field>, rest: string)
    requires fs != []
    ensures AfterMember(fs, rest) != ""
    ensures |fs| == 1 ==> AfterMember(fs, rest)[0] == '}' && AfterMember(fs, rest)[1..] == rest
    ensures |fs| > 1 ==> AfterMember(fs, rest)[0] == ',' && AfterMember(fs, rest)[1..] == PrintMembers(fs[1..]) + rest
  {
    hide PrintMembers;
    if |fs| == 1 {
      HeadAndTail("}", rest);
    } else {
      HeadAndTail(",", PrintMembers(fs[1..]) + rest);
      assert AfterMember(fs, rest) == "," + (PrintMembers(fs[1..]) + rest);
    }
  }

  lemma HeadAndTail(one: string, rest: string)
    requires |one| == 1
    ensures one + rest != "" && (one + rest)[0] == one[0] && (one + rest)[1..] == rest
  {
  }

  lemma MembersStep(text: string, afterColon: string, first: Field, next: string)
    requires SkipSpace(text) == text && ParseKey(text) == Some((first.key, afterColon))
    requires Parse(afterColon) == Some((first.value, next)) && SkipSpace(next) == next && next != ""
    ensures next[0] == '}' ==> ParseMembers(text) == Some(([first], next[1..]))
    ensures next[0] == ',' && ParseMembers(next[1..]).Some? ==>
      ParseMembers(text) == Some(([first] + ParseMembers(next[1..]).value.0, ParseMembers(next[1..]).value.1))
  {
  }

  /** Reading a printed line gives back the value that was printed. */
  lemma LoadsUndoesPrint(v: Json)
    requires AsciiJson(v)
    ensures Loads(Print(v)) == Some(v)
  {
    ParsePrinted(v, "");
    assert Print(v) + "" == Print(v);
  }

  // ----- a printed value is one line -----

  predicate OneLine(s: string) {
    forall i | 0 <= i < |s| :: s[i] != '\n' && s[i] != '\r'
  }

  lemma OneLineConcat(a: string, b: string)
    requires OneLine(a) && OneLine(b)
    ensures OneLine(a + b)
  {
  }

  lemma EscapeCharOneLine(c: char)
    ensures OneLine(EscapeChar(c))
  {
    if |EscapeChar(c)| == 6 {
      HexDigitOneLine(c as int / 16 % 16);
      HexDigitOneLine(c as int % 16);
      hide HexDigit;
    }
  }

  lemma HexDigitOneLine(n: nat)
    requires n < 16
    ensures HexDigit(n) != '\n' && HexDigit(n) != '\r'
  {
  }

  lemma {:induction false} EscapeOneLine(s: string)
    ensures OneLine(Escape(s))
  {
    if s != "" {
      EscapeCharOneLine(s[0]);
      EscapeOneLine(s[1..]);
      hide EscapeChar;
    }
  }

  lemma {:induction false} PrintOneLine(v: Json)
    ensures OneLine(Print(v)) && Print(v) != ""
    decreases v, 0
  {
    match v
    case JString(s) => EscapeOneLine(s);
    case JInt(n) =>
    case JBool(b) =>
    case JObject(fs) => if fs != [] { PrintMembersOneLine(fs); }
  }

  lemma {:induction false} PrintMembersOneLine(fs: seq<Field>)
    requires fs != []
    ensures OneLine(PrintMembers(fs))
    decreases fs, 1
  {
    hide Print, Escape;
    EscapeOneLine(fs[0].key);
    PrintOneLine(fs[0].value);
    var front := PrintString(fs[0].key) + ":" + Print(fs[0].value);
    var rest := if |fs| == 1 then "}" else "," + PrintMembers(fs[1..]);
    if |fs| > 1 {
      PrintMembersOneLine(fs[1..]);
    }
    assert PrintMembers(fs) == front + rest;
    hide PrintMembers;
    OneLineConcat(front, rest);
  }
}
