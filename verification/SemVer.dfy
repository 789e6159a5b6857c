/** Version texts and their order (_semver_key and version_at_least of
    scripts/security/final_audit_reachability.py), against Semantic Versioning 2.0.0. */
module SemVer {
  import opened Prelude
  import Json = CanonicalJson

  datatype Identifier = Numeric(n: nat) | Alpha(text: string)

  /** What the key keeps of a version; build metadata is matched and dropped. */
  datatype Version = Version(major: nat, minor: nat, patch: nat, pre: Option<seq<Identifier>>)

  // ----- reading -----

  predicate Letter(c: char) { 'a' <= c <= 'z' || 'A' <= c <= 'Z' }

  predicate WordChar(c: char) { Json.Digit(c) || Letter(c) || c == '-' }

  /** The class [0-9A-Za-z.-] of the pattern. */
  predicate TailChar(c: char) { WordChar(c) || c == '.' }

  predicate AllDigits(s: string) { forall i | 0 <= i < |s| :: Json.Digit(s[i]) }

  predicate AllTail(s: string) { forall i | 0 <= i < |s| :: TailChar(s[i]) }

  predicate NoLeadingZero(s: string) { |s| > 1 ==> s[0] != '0' }

  /** 0 or a number without leading zero, and what follows it. */
  function ReadNumber(t: string): (r: Option<(nat, string)>)
    ensures r.Some? ==> |r.value.1| < |t|
  {
    var n := Json.DigitPrefix(t);
    if n == 0 || !NoLeadingZero(t[..n]) then None else Some((Json.DigitsValue(t[..n]), t[n..]))
  }

  function TailPrefix(t: string): (n: nat)
    ensures n <= |t| && AllTail(t[..n])
  {
    if t != "" && TailChar(t[0]) then 1 + TailPrefix(t[1..]) else 0
  }

  /** str.split(".") */
  function Split(s: string): (parts: seq<string>)
    ensures |parts| > 0
  {
    if s == "" then [""]
    else if s[0] == '.' then [""] + Split(s[1..])
    else
      var rest := Split(s[1..]);
      [[s[0]] + rest[0]] + rest[1..]
  }

  function ReadIdentifier(part: string): Option<Identifier> {
    if part == "" then None
    else if AllDigits(part) then if NoLeadingZero(part) then Some(Numeric(Json.DigitsValue(part))) else None
    else Some(Alpha(part))
  }

  function ReadIdentifiers(parts: seq<string>): Option<seq<Identifier>> {
    if parts == [] then Some([])
    else match ReadIdentifier(parts[0])
      case None => None
      case Some(id) =>
        match ReadIdentifiers(parts[1..])
        case None => None
        case Some(ids) => Some([id] + ids)
  }

  predicate BuildOk(t: string) { t == "" || (t[0] == '+' && |t| > 1 && AllTail(t[1..])) }

  /** The optional pre-release and build parts after the patch number. */
  function ReadTail(t: string): Option<Option<seq<Identifier>>> {
    if t != "" && t[0] == '-' then
      var n := TailPrefix(t[1..]);
      if n == 0 || !BuildOk(t[1 + n..]) then None
      else match ReadIdentifiers(Split(t[1..][..n]))
        case None => None
        case Some(ids) => Some(Some(ids))
    else if BuildOk(t) then Some(None)
    else None
  }

  function ReadDotted(t: string): Option<(nat, string)> {
    match ReadNumber(t)
    case None => None
    case Some((n, rest)) => if rest != "" && rest[0] == '.' then Some((n, rest[1..])) else None
  }

  function ReadPlain(t: string): Option<Version> {
    match ReadDotted(t)
    case None => None
    case Some((major, r1)) =>
      match ReadDotted(r1)
      case None => None
      case Some((minor, r2)) =>
        match ReadNumber(r2)
        case None => None
        case Some((patch, r3)) =>
          match ReadTail(r3)
          case None => None
          case Some(pre) => Some(Version(major, minor, patch, pre))
  }

  /** _semver_key: None where the source raises EvidenceError. */
  function Parse(text: string): Option<Version> {
    if text != "" && text[0] == 'v' then ReadPlain(text[1..]) else ReadPlain(text)
  }

  // ----- the texts of sections 2 and 9 of Semantic Versioning 2.0.0 -----

  predicate ValidIdentifier(id: Identifier) {
    id.Alpha? ==> id.text != "" && (forall i | 0 <= i < |id.text| :: WordChar(id.text[i])) && !AllDigits(id.text)
  }

  predicate ValidIdentifiers(ids: seq<Identifier>) {
    ids != [] && forall i | 0 <= i < |ids| :: ValidIdentifier(ids[i])
  }

  predicate Valid(v: Version) { v.pre.Some? ==> ValidIdentifiers(v.pre.value) }

  function IdentifierText(id: Identifier): string {
    match id
    case Numeric(n) => Json.PrintNat(n)
    case Alpha(text) => text
  }

  function Joined(ids: seq<Identifier>): string
    requires ids != []
  {
    if |ids| == 1 then IdentifierText(ids[0]) else IdentifierText(ids[0]) + "." + Joined(ids[1..])
  }

  function PreText(pre: Option<seq<Identifier>>): string
    requires pre.Some? ==> pre.value != []
  {
    match pre case None => "" case Some(ids) => "-" + Joined(ids)
  }

  function Text(v: Version): string
    requires Valid(v)
  {
    Json.PrintNat(v.major) + "." + Json.PrintNat(v.minor) + "." + Json.PrintNat(v.patch) + PreText(v.pre)
  }

  // ----- every valid text is read back -----

  lemma NumberRead(n: nat, rest: string)
    requires rest == "" || !Json.Digit(rest[0])
    ensures ReadNumber(Json.PrintNat(n) + rest) == Some((n, rest))
  {
    var s := Json.PrintNat(n);
    Json.PrintNatValue(n);
    Json.DigitPrefixOf(s, rest);
    assert (s + rest)[..|s|] == s && (s + rest)[|s|..] == rest;
  }

  lemma DottedRead(n: nat, rest: string)
    ensures ReadDotted(Json.PrintNat(n) + "." + rest) == Some((n, rest))
  {
    NumberRead(n, "." + rest);
    assert Json.PrintNat(n) + "." + rest == Json.PrintNat(n) + ("." + rest);
  }

  lemma {:induction false} SplitPart(part: string, rest: string)
    requires '.' !in part
    ensures Split(part) == [part]
    ensures Split(part + "." + rest) == [part] + Split(rest)
  {
    if part == "" {
      assert part + "." + rest == "." + rest;
    } else {
      SplitPart(part[1..], rest);
      assert (part + "." + rest)[1..] == part[1..] + "." + rest;
      assert [part[0]] + part[1..] == part;
    }
  }

  lemma IdentifierRead(id: Identifier)
    requires ValidIdentifier(id)
    ensures ReadIdentifier(IdentifierText(id)) == Some(id)
    ensures '.' !in IdentifierText(id) && AllTail(IdentifierText(id)) && IdentifierText(id) != ""
  {
    if id.Numeric? {
      Json.PrintNatValue(id.n);
      var s := Json.PrintNat(id.n);
      forall i | 0 <= i < |s| ensures s[i] != '.' && TailChar(s[i]) {
        assert Json.Digit(s[i]);
      }
    }
  }

  lemma {:induction false} IdentifiersRead(ids: seq<Identifier>)
    requires ValidIdentifiers(ids)
    ensures ReadIdentifiers(Split(Joined(ids))) == Some(ids)
    ensures AllTail(Joined(ids)) && Joined(ids) != ""
  {
    hide ReadIdentifier, IdentifierText, Split, ValidIdentifier, TailChar;
    IdentifierRead(ids[0]);
    var part := IdentifierText(ids[0]);
    if |ids| == 1 {
      SplitPart(part, "");
      assert ReadIdentifiers([part][1..]) == Some([]);
      assert [ids[0]] + [] == ids;
    } else {
      var more := Joined(ids[1..]);
      IdentifiersRead(ids[1..]);
      SplitPart(part, more);
      assert ([part] + Split(more))[1..] == Split(more);
      assert [ids[0]] + ids[1..] == ids;
      assert TailChar('.') by { DotIsTail(); }
      AllTailConcat(part, ".", more);
    }
  }

  lemma DotIsTail()
    ensures TailChar('.')
  {
  }

  lemma AllTailConcat(a: string, b: string, c: string)
    requires AllTail(a) && AllTail(b) && AllTail(c)
    ensures AllTail(a + b + c)
  {
    hide TailChar;
  }

  lemma {:induction false} TailPrefixOf(s: string, rest: string)
    requires AllTail(s) && (rest == "" || !TailChar(rest[0]))
    ensures TailPrefix(s + rest) == |s|
  {
    if s == "" {
      assert s + rest == rest;
    } else {
      assert TailChar(s[0]);
      TailPrefixOf(s[1..], rest);
      assert (s + rest)[1..] == s[1..] + rest;
    }
  }

  lemma TailRead(pre: Option<seq<Identifier>>, build: string)
    requires (pre.Some? ==> ValidIdentifiers(pre.value)) && BuildOk(build)
    ensures ReadTail(PreText(pre) + build) == Some(pre)
  {
    match pre
    case None => assert PreText(pre) + build == build;
    case Some(ids) => PreTailRead(ids, build);
  }

  lemma PreTailRead(ids: seq<Identifier>, build: string)
    requires ids != [] && ValidIdentifiers(ids) && BuildOk(build)
    ensures ReadTail("-" + Joined(ids) + build) == Some(Some(ids))
  {
    hide ValidIdentifiers, Joined, ReadIdentifiers, Split, TailPrefix;
    IdentifiersRead(ids);
    var s := Joined(ids);
    var t := "-" + s + build;
    TailPrefixOf(s, build);
    hide BuildOk;
    assert t[1..] == s + build;
    assert t[1..][..|s|] == s && t[1 + |s|..] == build;
  }

  lemma PlainRead(v: Version, build: string)
    requires Valid(v) && BuildOk(build)
    ensures ReadPlain(Text(v) + build) == Some(v)
    ensures Text(v) + build != "" && Json.Digit((Text(v) + build)[0])
  {
    hide ReadTail, PreText, ReadNumber, ReadDotted, Json.PrintNat, BuildOk;
    var tail := PreText(v.pre) + build;
    var r2 := Json.PrintNat(v.patch) + tail;
    var r1 := Json.PrintNat(v.minor) + "." + r2;
    TailStops(v.pre, build);
    TailRead(v.pre, build);
    NumberRead(v.patch, tail);
    DottedRead(v.minor, r2);
    DottedRead(v.major, r1);
    assert Text(v) + build == Json.PrintNat(v.major) + "." + r1;
  }

  /** Every version of Semantic Versioning 2.0.0, with or without a leading v and with any build
      metadata the pattern admits, is read with exactly its parts. */
  lemma ParseUndoesText(v: Version, lead: string, build: string)
    requires Valid(v) && (lead == "" || lead == "v") && BuildOk(build)
    ensures Parse(lead + Text(v) + build) == Some(v)
  {
    hide ReadPlain, Text, Valid, BuildOk;
    var plain := Text(v) + build;
    PlainRead(v, build);
    assert lead + Text(v) + build == lead + plain;
    if lead == "v" {
      assert ("v" + plain)[1..] == plain;
    } else {
      assert "" + plain == plain;
    }
  }

  lemma TailStops(pre: Option<seq<Identifier>>, build: string)
    requires (pre.Some? ==> pre.value != []) && BuildOk(build)
    ensures var tail := PreText(pre) + build; tail == "" || !Json.Digit(tail[0])
  {
  }

  // ----- and nothing else is read -----

  lemma PrintStep(n: nat, d: nat)
    requires n > 0 && d < 10
    ensures Json.PrintNat(n * 10 + d) == Json.PrintNat(n) + [Json.HexDigit(d)]
  {
    assert (n * 10 + d) / 10 == n && (n * 10 + d) % 10 == d;
  }

  lemma {:induction false} PrintUndoesDigits(s: string)
    requires s != "" && AllDigits(s) && NoLeadingZero(s)
    ensures Json.PrintNat(Json.DigitsValue(s)) == s
    ensures s[0] != '0' ==> Json.DigitsValue(s) > 0
  {
    var front, d := s[..|s| - 1], Json.DigitValue(s[|s| - 1]);
    DigitOf(s[|s| - 1]);
    if |s| == 1 {
      assert front == "" && Json.DigitsValue("") == 0;
    } else {
      PrintUndoesDigits(front);
      PrintStep(Json.DigitsValue(front), d);
      hide Json.PrintNat;
    }
  }

  lemma DigitOf(c: char)
    requires Json.Digit(c)
    ensures Json.DigitValue(c) < 10 && Json.HexDigit(Json.DigitValue(c)) == c
  {
  }

  lemma NumberText(t: string)
    requires ReadNumber(t).Some?
    ensures var (n, rest) := ReadNumber(t).value; t == Json.PrintNat(n) + rest
  {
    var n := Json.DigitPrefix(t);
    PrintUndoesDigits(t[..n]);
  }

  lemma DottedText(t: string)
    requires ReadDotted(t).Some?
    ensures var (n, rest) := ReadDotted(t).value; t == Json.PrintNat(n) + "." + rest
  {
    NumberText(t);
    var rest := ReadNumber(t).value.1;
    assert rest == "." + rest[1..];
  }

  function Rejoined(parts: seq<string>): string
    requires parts != []
  {
    if |parts| == 1 then parts[0] else parts[0] + "." + Rejoined(parts[1..])
  }

  lemma {:induction false} RejoinUndoesSplit(s: string)
    requires AllTail(s)
    ensures Rejoined(Split(s)) == s
    ensures forall i | 0 <= i < |Split(s)| :: forall k | 0 <= k < |Split(s)[i]| :: WordChar(Split(s)[i][k])
  {
    if s != "" {
      RejoinUndoesSplit(s[1..]);
      assert TailChar(s[0]);
      var rest := Split(s[1..]);
      if s[0] == '.' {
        assert ([""] + rest)[1..] == rest;
      } else {
        assert ([[s[0]] + rest[0]] + rest[1..])[1..] == rest[1..];
      }
    }
  }

  lemma IdentifierTextOf(part: string)
    requires ReadIdentifier(part).Some? && forall k | 0 <= k < |part| :: WordChar(part[k])
    ensures IdentifierText(ReadIdentifier(part).value) == part && ValidIdentifier(ReadIdentifier(part).value)
  {
    if AllDigits(part) {
      PrintUndoesDigits(part);
    }
  }

  lemma {:induction false} IdentifiersText(parts: seq<string>)
    requires parts != [] && ReadIdentifiers(parts).Some?
    requires forall i | 0 <= i < |parts| :: forall k | 0 <= k < |parts[i]| :: WordChar(parts[i][k])
    ensures ValidIdentifiers(ReadIdentifiers(parts).value)
    ensures Joined(ReadIdentifiers(parts).value) == Rejoined(parts)
  {
    IdentifierTextOf(parts[0]);
    hide ReadIdentifier, IdentifierText, ValidIdentifier, WordChar;
    var ids := ReadIdentifiers(parts).value;
    if |parts| > 1 {
      IdentifiersText(parts[1..]);
      assert ids[1..] == ReadIdentifiers(parts[1..]).value;
    } else {
      assert ReadIdentifiers(parts[1..]) == Some([]);
    }
  }

  lemma PreOf(s: string)
    requires AllTail(s) && ReadIdentifiers(Split(s)).Some?
    ensures ValidIdentifiers(ReadIdentifiers(Split(s)).value) && Joined(ReadIdentifiers(Split(s)).value) == s
  {
    RejoinUndoesSplit(s);
    hide Split, ReadIdentifiers, Joined, ValidIdentifiers, AllTail, WordChar;
    IdentifiersText(Split(s));
  }

  lemma TailText(t: string) returns (build: string)
    requires ReadTail(t).Some?
    ensures var pre := ReadTail(t).value; pre.Some? ==> ValidIdentifiers(pre.value)
    ensures BuildOk(build) && t == PreText(ReadTail(t).value) + build
  {
    hide Split, Joined, ReadIdentifiers, ValidIdentifiers, BuildOk, AllTail;
    build := t;
    if ReadTail(t).value.Some? {
      var n := TailPrefix(t[1..]);
      hide TailPrefix;
      var s := t[1..][..n];
      PreOf(s);
      build := t[1 + n..];
      assert t == "-" + s + build;
    }
  }

  lemma PlainText(t: string) returns (build: string)
    requires ReadPlain(t).Some?
    ensures var v := ReadPlain(t).value; Valid(v) && BuildOk(build) && t == Text(v) + build
  {
    hide ReadDotted, ReadNumber, ReadTail, PreText, Json.PrintNat, BuildOk;
    var (major, r1) := ReadDotted(t).value;
    var (minor, r2) := ReadDotted(r1).value;
    var (patch, r3) := ReadNumber(r2).value;
    DottedText(t);
    DottedText(r1);
    NumberText(r2);
    build := TailText(r3);
  }

  /** Whatever is read is such a text, with such build metadata. */
  lemma TextUndoesParse(text: string) returns (lead: string, build: string)
    requires Parse(text).Some?
    ensures var v := Parse(text).value;
      Valid(v) && (lead == "" || lead == "v") && BuildOk(build) && text == lead + Text(v) + build
  {
    hide ReadPlain, Text, BuildOk, Valid;
    if text != "" && text[0] == 'v' {
      lead := "v";
      build := PlainText(text[1..]);
      assert text == "v" + text[1..];
    } else {
      lead := "";
      build := PlainText(text);
    }
  }

  // ----- section 10 of Semantic Versioning 2.0.0 -----

  /** An identifier of build metadata. */
  predicate BuildIdentifier(part: string) { part != "" && forall i | 0 <= i < |part| :: WordChar(part[i]) }

  /** The characters of sections 9 and 10, by their codes: the digits, the letters and the hyphen. */
  predicate Coded(c: char) {
    var n := c as int;
    48 <= n <= 57 || 65 <= n <= 90 || 97 <= n <= 122 || n == 45
  }

  predicate CodedText(s: string) { s != "" && forall i | 0 <= i < |s| :: Coded(s[i]) }

  /** Identifiers are texts of these characters; a numeric one holds nothing but digits. */
  lemma IdentifiersAre(part: string)
    ensures BuildIdentifier(part) <==> CodedText(part)
    ensures ValidIdentifier(Alpha(part)) <==>
      CodedText(part) && exists i | 0 <= i < |part| :: !(48 <= part[i] as int <= 57)
  {
  }

  /** No build metadata, or a plus sign and identifiers separated by dots. */
  predicate ValidBuild(build: string) {
    build == "" ||
    (build[0] == '+' && forall i | 0 <= i < |Split(build[1..])| :: BuildIdentifier(Split(build[1..])[i]))
  }

  /** A text of Semantic Versioning 2.0.0, or one after the customary "v". */
  ghost predicate Standard(text: string) {
    exists lead, v, build :: IsText(text, lead, v, build) && ValidBuild(build)
  }

  predicate IsText(text: string, lead: string, v: Version, build: string) {
    Valid(v) && (lead == "" || lead == "v") && text == lead + Text(v) + build
  }

  /** Where the first plus sign is, or the length when there is none. */
  function PlusAt(s: string): (n: nat)
    ensures n <= |s|
  {
    if s == "" || s[0] == '+' then 0 else 1 + PlusAt(s[1..])
  }

  /** The build part of a text names no empty identifier. */
  predicate NoEmptyBuild(text: string) {
    var build := text[PlusAt(text)..];
    build == "" || forall i | 0 <= i < |Split(build[1..])| :: Split(build[1..])[i] != ""
  }

  lemma {:induction false} PlusAfter(front: string, build: string)
    requires '+' !in front && (build == "" || build[0] == '+')
    ensures PlusAt(front + build) == |front|
  {
    if front == "" {
      assert front + build == build;
    } else {
      assert (front + build)[1..] == front[1..] + build;
      PlusAfter(front[1..], build);
    }
  }

  lemma NumberIsTail(n: nat)
    ensures AllTail(Json.PrintNat(n))
  {
    var s := Json.PrintNat(n);
    forall i | 0 <= i < |s| ensures TailChar(s[i]) { assert Json.Digit(s[i]); }
  }

  lemma TextIsTail(v: Version)
    requires Valid(v)
    ensures AllTail(Text(v))
  {
    NumberIsTail(v.major);
    NumberIsTail(v.minor);
    NumberIsTail(v.patch);
    DotIsTail();
    if v.pre.Some? { IdentifiersRead(v.pre.value); }
    assert TailChar('-');
    hide Json.PrintNat, Joined, TailChar, ValidIdentifiers;
    var a, b, c := Json.PrintNat(v.major), Json.PrintNat(v.minor), Json.PrintNat(v.patch);
    AllTailConcat(a, ".", b);
    AllTailConcat(a + "." + b, ".", c);
    if v.pre.Some? {
      AllTailConcat(a + "." + b + "." + c, "-", Joined(v.pre.value));
      assert Text(v) == a + "." + b + "." + c + "-" + Joined(v.pre.value);
    }
  }

  /** The build part of a text is what follows its version. */
  lemma BuildPartOf(text: string, lead: string, v: Version, build: string)
    requires IsText(text, lead, v, build) && (build == "" || build[0] == '+')
    ensures text[PlusAt(text)..] == build
  {
    TextIsTail(v);
    hide Text, Valid;
    var front := lead + Text(v);
    assert '+' !in front by {
      assert !TailChar('+');
    }
    PlusAfter(front, build);
  }

  /** A text is a version of Semantic Versioning 2.0.0 if and only if it is read and its build part
      has no empty identifier. */
  lemma StandardIff(text: string)
    ensures Standard(text) <==> Parse(text).Some? && NoEmptyBuild(text)
  {
    if Standard(text) {
      var lead, v, build :| IsText(text, lead, v, build) && ValidBuild(build);
      BuildPartOf(text, lead, v, build);
      ValidBuildIsRead(build);
      ParseUndoesText(v, lead, build);
      hide Parse, Text, Valid, Split;
    } else if Parse(text).Some? {
      var lead, build := TextUndoesParse(text);
      hide Parse, Text, Valid, Split;
      var v := Parse(text).value;
      BuildPartOf(text, lead, v, build);
      assert !ValidBuild(build);
      ReadBuild(build);
    }
  }

  lemma ValidBuildIsRead(build: string)
    requires ValidBuild(build)
    ensures BuildOk(build)
  {
    if build != "" {
      assert BuildIdentifier(Split(build[1..])[0]);
      PartsAreTail(build[1..]);
    }
  }

  lemma {:induction false} PartsAreTail(s: string)
    requires forall i | 0 <= i < |Split(s)| :: forall k | 0 <= k < |Split(s)[i]| :: WordChar(Split(s)[i][k])
    ensures AllTail(s) && (s == "" ==> Split(s) == [""])
  {
    if s != "" {
      var rest := Split(s[1..]);
      forall i | 0 <= i < |rest| ensures forall k | 0 <= k < |rest[i]| :: WordChar(rest[i][k]) {
        if s[0] == '.' {
          assert Split(s)[i + 1] == rest[i];
        } else if i > 0 {
          assert Split(s)[i] == rest[i];
        } else {
          assert Split(s)[0] == [s[0]] + rest[0];
          forall k | 0 <= k < |rest[0]| ensures WordChar(rest[0][k]) { assert Split(s)[0][k + 1] == rest[0][k]; }
        }
      }
      PartsAreTail(s[1..]);
      if s[0] != '.' { assert Split(s)[0][0] == s[0]; }
    }
  }

  lemma ReadBuild(build: string)
    requires BuildOk(build) && !ValidBuild(build)
    ensures build != "" && exists i | 0 <= i < |Split(build[1..])| :: Split(build[1..])[i] == ""
  {
    RejoinUndoesSplit(build[1..]);
    hide Split, WordChar;
    var i :| 0 <= i < |Split(build[1..])| && !BuildIdentifier(Split(build[1..])[i]);
  }

  /** Behind every version the build metadata "+." is read, which section 10 forbids. */
  lemma EmptyBuildIsRead(v: Version)
    requires Valid(v)
    ensures Parse(Text(v) + "+.") == Some(v) && !Standard(Text(v) + "+.")
  {
    hide Parse, Text, Valid, Standard;
    EmptyParts("+.");
    ParseUndoesText(v, "", "+.");
    assert "" + Text(v) + "+." == Text(v) + "+.";
    BuildPartOf(Text(v) + "+.", "", v, "+.");
    hide Split;
    StandardIff(Text(v) + "+.");
  }

  lemma EmptyParts(build: string)
    requires build == "+."
    ensures BuildOk(build) && Split(build[1..])[0] == ""
  {
    assert build[1..] == ".";
  }

  // ----- the order -----

  function Sign(a: int, b: int): int { if a < b then -1 else if a > b then 1 else 0 }

  /** Python's comparison of str by code point. */
  function CompareText(a: string, b: string): int {
    if a == "" || b == "" then Sign(|a|, |b|)
    else if a[0] != b[0] then Sign(a[0] as int, b[0] as int)
    else CompareText(a[1..], b[1..])
  }

  /** The pairs (0, number) and (1, text). */
  function ComparePart(a: Identifier, b: Identifier): int {
    match (a, b)
    case (Numeric(m), Numeric(n)) => Sign(m, n)
    case (Numeric(_), Alpha(_)) => -1
    case (Alpha(_), Numeric(_)) => 1
    case (Alpha(s), Alpha(t)) => CompareText(s, t)
  }

  function CompareParts(a: seq<Identifier>, b: seq<Identifier>): int {
    if a == [] || b == [] then Sign(|a|, |b|)
    else
      var c := ComparePart(a[0], b[0]);
      if c != 0 then c else CompareParts(a[1..], b[1..])
  }

  function Parts(pre: Option<seq<Identifier>>): seq<Identifier> {
    match pre case None => [] case Some(ids) => ids
  }

  function StableRank(pre: Option<seq<Identifier>>): int { if pre.None? then 1 else 0 }

  function Chain(c: int, next: int): int { if c != 0 then c else next }

  /** The five components of the key, compared as a Python tuple. */
  function Compare(a: Version, b: Version): int {
    Chain(Sign(a.major, b.major), Chain(Sign(a.minor, b.minor), Chain(Sign(a.patch, b.patch),
      Chain(Sign(StableRank(a.pre), StableRank(b.pre)), CompareParts(Parts(a.pre), Parts(b.pre))))))
  }

  /** version_at_least; None where either text is refused. */
  function AtLeast(observed: string, minimum: string): Option<bool> {
    match (Parse(observed), Parse(minimum))
    case (Some(a), Some(b)) => Some(Compare(a, b) >= 0)
    case (_, _) => None
  }

  // ----- section 11 of Semantic Versioning 2.0.0 -----

  /** Lexical order: at the first place where they differ, a ends or has the lower character. */
  ghost predicate LowerText(a: string, b: string) {
    exists k | 0 <= k <= |a| && k <= |b| :: a[..k] == b[..k] && TextStep(a, b, k)
  }

  predicate TextStep(a: string, b: string, k: nat)
    requires k <= |a| && k <= |b|
  {
    k < |b| && (k == |a| || a[k] < b[k])
  }

  /** 11.4.1 to 11.4.3: numbers by value, other identifiers by ASCII order, numbers first. */
  ghost predicate LowerIdentifier(a: Identifier, b: Identifier) {
    match (a, b)
    case (Numeric(m), Numeric(n)) => m < n
    case (Numeric(_), Alpha(_)) => true
    case (Alpha(_), Numeric(_)) => false
    case (Alpha(s), Alpha(t)) => LowerText(s, t)
  }

  ghost predicate PartsStep(a: seq<Identifier>, b: seq<Identifier>, k: nat)
    requires k <= |a| && k <= |b|
  {
    k < |b| && (k == |a| || LowerIdentifier(a[k], b[k]))
  }

  /** 11.4: the first difference decides, and 11.4.4: the shorter list when there is none. */
  ghost predicate LowerParts(a: seq<Identifier>, b: seq<Identifier>) {
    exists k | 0 <= k <= |a| && k <= |b| :: a[..k] == b[..k] && PartsStep(a, b, k)
  }

  /** 11.3: a pre-release is lower than the version itself. */
  ghost predicate LowerTail(a: Option<seq<Identifier>>, b: Option<seq<Identifier>>) {
    a.Some? && (b.Some? ==> LowerParts(a.value, b.value))
  }

  /** 11.2 to 11.4. */
  ghost predicate Precedes(a: Version, b: Version) {
    || a.major < b.major
    || (a.major == b.major && a.minor < b.minor)
    || (a.major == b.major && a.minor == b.minor && a.patch < b.patch)
    || (a.major == b.major && a.minor == b.minor && a.patch == b.patch && LowerTail(a.pre, b.pre))
  }

  lemma {:induction false} TextOrder(a: string, b: string)
    ensures CompareText(a, b) == 0 <==> a == b
    ensures CompareText(b, a) == -CompareText(a, b)
    ensures CompareText(a, b) < 0 <==> LowerText(a, b)
  {
    if a == "" || b == "" {
      if a == "" && b != "" { assert a[..0] == b[..0] && TextStep(a, b, 0); }
    } else if a[0] != b[0] {
      if a[0] < b[0] { assert a[..0] == b[..0] && TextStep(a, b, 0); }
      forall k | 0 < k <= |a| && k <= |b| ensures a[..k] != b[..k] {
        assert a[..k][0] != b[..k][0];
      }
    } else {
      TextOrder(a[1..], b[1..]);
      LowerTextShift(a, b);
      assert a == [a[0]] + a[1..] && b == [b[0]] + b[1..];
    }
  }

  lemma LowerTextShift(a: string, b: string)
    requires a != "" && b != "" && a[0] == b[0]
    ensures LowerText(a, b) <==> LowerText(a[1..], b[1..])
  {
    if LowerText(a, b) {
      var k :| 0 <= k <= |a| && k <= |b| && a[..k] == b[..k] && TextStep(a, b, k);
      assert a[1..][..k - 1] == a[..k][1..] && b[1..][..k - 1] == b[..k][1..];
      assert TextStep(a[1..], b[1..], k - 1);
    }
    if LowerText(a[1..], b[1..]) {
      var k :| 0 <= k <= |a[1..]| && k <= |b[1..]| && a[1..][..k] == b[1..][..k] && TextStep(a[1..], b[1..], k);
      assert a[..k + 1] == [a[0]] + a[1..][..k] && b[..k + 1] == [b[0]] + b[1..][..k];
      assert TextStep(a, b, k + 1);
    }
  }

  lemma IdentifierOrder(a: Identifier, b: Identifier)
    ensures ComparePart(a, b) == 0 <==> a == b
    ensures ComparePart(b, a) == -ComparePart(a, b)
    ensures ComparePart(a, b) < 0 <==> LowerIdentifier(a, b)
  {
    if a.Alpha? && b.Alpha? { TextOrder(a.text, b.text); }
  }

  lemma {:induction false} PartsOrder(a: seq<Identifier>, b: seq<Identifier>)
    ensures CompareParts(a, b) == 0 <==> a == b
    ensures CompareParts(b, a) == -CompareParts(a, b)
    ensures CompareParts(a, b) < 0 <==> LowerParts(a, b)
  {
    hide ComparePart, LowerIdentifier;
    if a == [] || b == [] {
      if a == [] && b != [] { assert a[..0] == b[..0] && PartsStep(a, b, 0); }
    } else {
      IdentifierOrder(a[0], b[0]);
      if a[0] != b[0] {
        if LowerIdentifier(a[0], b[0]) { assert a[..0] == b[..0] && PartsStep(a, b, 0); }
        forall k | 0 < k <= |a| && k <= |b| ensures a[..k] != b[..k] {
          assert a[..k][0] != b[..k][0];
        }
      } else {
        PartsOrder(a[1..], b[1..]);
        LowerPartsShift(a, b);
        assert a == [a[0]] + a[1..] && b == [b[0]] + b[1..];
      }
    }
  }

  lemma LowerPartsShift(a: seq<Identifier>, b: seq<Identifier>)
    requires a != [] && b != [] && a[0] == b[0]
    ensures LowerParts(a, b) <==> LowerParts(a[1..], b[1..])
  {
    hide LowerIdentifier;
    NotLowerItself(a[0]);
    if LowerParts(a, b) {
      var k :| 0 <= k <= |a| && k <= |b| && a[..k] == b[..k] && PartsStep(a, b, k);
      assert a[1..][..k - 1] == a[..k][1..] && b[1..][..k - 1] == b[..k][1..];
      assert PartsStep(a[1..], b[1..], k - 1);
    }
    if LowerParts(a[1..], b[1..]) {
      var k :| 0 <= k <= |a[1..]| && k <= |b[1..]| && a[1..][..k] == b[1..][..k] && PartsStep(a[1..], b[1..], k);
      assert a[..k + 1] == [a[0]] + a[1..][..k] && b[..k + 1] == [b[0]] + b[1..][..k];
      assert PartsStep(a, b, k + 1);
    }
  }

  lemma NotLowerItself(a: Identifier)
    ensures !LowerIdentifier(a, a)
  {
    IdentifierOrder(a, a);
  }

  /** The key's order is the precedence of section 11, and a total one. */
  lemma CompareIsPrecedence(a: Version, b: Version)
    ensures Compare(a, b) < 0 <==> Precedes(a, b)
    ensures Compare(a, b) > 0 <==> Precedes(b, a)
    ensures Valid(a) && Valid(b) ==> (Compare(a, b) == 0 <==> a == b)
  {
    hide CompareParts, LowerParts;
    PartsOrder(Parts(a.pre), Parts(b.pre));
    PartsOrder(Parts(b.pre), Parts(a.pre));
  }

  lemma {:induction false} TextTransitive(a: string, b: string, c: string)
    requires CompareText(a, b) <= 0 && CompareText(b, c) <= 0
    ensures CompareText(a, c) <= 0
    ensures CompareText(a, b) < 0 || CompareText(b, c) < 0 ==> CompareText(a, c) < 0
  {
    if a != "" && b != "" && c != "" && a[0] == b[0] == c[0] {
      TextTransitive(a[1..], b[1..], c[1..]);
    }
  }

  lemma PartTransitive(a: Identifier, b: Identifier, c: Identifier)
    requires ComparePart(a, b) <= 0 && ComparePart(b, c) <= 0
    ensures ComparePart(a, c) <= 0
    ensures ComparePart(a, b) < 0 || ComparePart(b, c) < 0 ==> ComparePart(a, c) < 0
  {
    if a.Alpha? && b.Alpha? && c.Alpha? { TextTransitive(a.text, b.text, c.text); }
  }

  lemma {:induction false} PartsTransitive(a: seq<Identifier>, b: seq<Identifier>, c: seq<Identifier>)
    requires CompareParts(a, b) <= 0 && CompareParts(b, c) <= 0
    ensures CompareParts(a, c) <= 0
    ensures CompareParts(a, b) < 0 || CompareParts(b, c) < 0 ==> CompareParts(a, c) < 0
  {
    if a != [] && b != [] && c != [] {
      PartTransitive(a[0], b[0], c[0]);
      hide ComparePart;
      if ComparePart(a[0], b[0]) == 0 && ComparePart(b[0], c[0]) == 0 {
        PartsTransitive(a[1..], b[1..], c[1..]);
      }
    }
  }

  lemma Transitive(a: Version, b: Version, c: Version)
    requires Compare(a, b) <= 0 && Compare(b, c) <= 0
    ensures Compare(a, c) <= 0
  {
    hide CompareParts;
    var p, q, r := Parts(a.pre), Parts(b.pre), Parts(c.pre);
    if CompareParts(p, q) <= 0 && CompareParts(q, r) <= 0 { PartsTransitive(p, q, r); }
  }

  /** What meets a floor meets every lower floor. */
  lemma FloorsChain(observed: string, floor: string, lower: string)
    requires AtLeast(observed, floor) == Some(true) && AtLeast(floor, lower) == Some(true)
    ensures AtLeast(observed, lower) == Some(true)
  {
    hide Parse, Compare;
    var a, b, c := Parse(lower).value, Parse(floor).value, Parse(observed).value;
    Antisymmetric(b, a);
    Antisymmetric(c, b);
    Transitive(a, b, c);
    Antisymmetric(c, a);
  }

  lemma Antisymmetric(a: Version, b: Version)
    ensures Compare(a, b) == -Compare(b, a)
  {
    hide CompareParts;
    PartsOrder(Parts(a.pre), Parts(b.pre));
  }

  /** On texts: at least is exactly "does not precede". */
  lemma AtLeastIsPrecedence(observed: string, minimum: string)
    requires Parse(observed).Some? && Parse(minimum).Some?
    ensures AtLeast(observed, minimum) == Some(!Precedes(Parse(observed).value, Parse(minimum).value))
  {
    CompareIsPrecedence(Parse(observed).value, Parse(minimum).value);
  }
}
