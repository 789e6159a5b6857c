/** What the guard demands of a context, a record and a call, said field by field: over every run
    no effect is invoked, and in no accepted journal a record stands, without it. */
module GuardClaims {
  import opened Prelude
  import opened GuardJournal
  import opened GuardJournalFacts
  import opened GuardRuns

  predicate UuidText(s: string) {
    && |s| == 36 && s[8] == s[13] == s[18] == s[23] == '-'
    && LowerHex(s[..8] + s[9..13] + s[14..18] + s[19..23] + s[24..], 32)
  }

  /** The source is the exact local main, clean, under closed maintenance, and of a late enough
      generation; only a fast-forward to its remote main goes with a sync context. */
  predicate InOrder(call: Call) {
    var c := call.expected;
    && LowerHex(call.target, 40) && LowerHex(c.sourceCommit, 40)
    && c.sourceCommit == (match c case Binding(_, main, _, _, _, _, _) => main
                          case SyncBinding(_, local, _, _, _, _, _, _) => local)
    && c.sourceClean && c.maintenanceStatus == "closed" && c.generation >= 8
    && UuidText(c.bootId) && UuidText(c.operationId)
    && (c.SyncBinding? ==> LowerHex(c.mainCommit, 40) && call.action == SourceSync && call.target == c.mainCommit)
  }

  lemma LowerHexIs(s: string, size: nat)
    ensures IsHex(s, size) <==> LowerHex(s, size)
  {
    forall i | 0 <= i < |s| ensures HexChar(s[i]) <==> s[i] in "0123456789abcdef" { HexDigitIs(s[i]); }
  }

  /** Where the hexadecimal digits of a UUID stand. */
  function DigitPlace(k: nat): nat {
    if k < 8 then k else if k < 12 then k + 1 else if k < 16 then k + 2 else if k < 20 then k + 3 else k + 4
  }

  lemma UuidTextIs(s: string)
    ensures IsUuid(s) <==> UuidText(s)
  {
    if |s| == 36 {
      var digits := s[..8] + s[9..13] + s[14..18] + s[19..23] + s[24..];
      assert forall k | 0 <= k < 32 :: digits[k] == s[DigitPlace(k)];
      LowerHexIs(digits, 32);
      hide LowerHex, HexChar;
      if UuidText(s) {
        assert IsHex(digits, 32);
        forall i | 0 <= i < 36 && i !in {8, 13, 18, 23} ensures HexChar(s[i]) {
          var k := if i < 8 then i else if i < 13 then i - 1 else if i < 18 then i - 2
            else if i < 23 then i - 3 else i - 4;
          assert DigitPlace(k) == i && HexChar(digits[k]);
        }
      }
      if IsUuid(s) {
        forall k | 0 <= k < 32 ensures HexChar(digits[k]) { assert HexChar(s[DigitPlace(k)]); }
        assert IsHex(digits, 32);
      }
    }
  }

  /** perform accepts exactly the calls that are in order. */
  lemma ValidMeansInOrder(call: Call)
    ensures ValidCall(call) <==> InOrder(call)
  {
    hide IsHex, IsUuid, LowerHex, UuidText;
    LowerHexIs(call.target, 40);
    LowerHexIs(call.expected.sourceCommit, 40);
    LowerHexIs(call.expected.mainCommit, 40);
    UuidTextIs(call.expected.bootId);
    UuidTextIs(call.expected.operationId);
  }

  /** The name of a run: 1 to 120 letters, digits, underscores and hyphens. */
  predicate RunName(s: string) {
    && 1 <= |s| <= 120
    && forall k | 0 <= k < |s| ::
      'a' <= s[k] <= 'z' || 'A' <= s[k] <= 'Z' || '0' <= s[k] <= '9' || s[k] == '_' || s[k] == '-'
  }

  // ----- times -----

  /** The decimal number in s from i up to j. */
  function NumberAt(s: string, i: nat, j: nat): int
    requires i <= j <= |s|
  {
    if i == j then 0 else 10 * NumberAt(s, i, j - 1) + s[j - 1] as int - '0' as int
  }

  function LastDay(year: int, month: int): int
    requires 1 <= month <= 12
  {
    if month == 2 && ((year % 4 == 0 && year % 100 != 0) || year % 400 == 0) then 29
    else [31, 28, 31, 30, 31, 30, 31, 31, 30, 31, 30, 31][month - 1]
  }

  predicate IsDate(year: int, month: int, day: int) {
    1 <= year && 1 <= month <= 12 && 1 <= day <= LastDay(year, month)
  }

  /** A day that exists and a time of it, in UTC, with or without microseconds. */
  predicate TimeText(s: string) {
    && (|s| == 25 || |s| == 32) && s[|s| - 6..] == "+00:00"
    && s[4] == s[7] == '-' && s[10] == 'T' && s[13] == s[16] == ':' && (|s| == 32 ==> s[19] == '.')
    && (forall i | 0 <= i < |s| - 6 && i !in {4, 7, 10, 13, 16, 19} :: '0' <= s[i] <= '9')
    && IsDate(NumberAt(s, 0, 4), NumberAt(s, 5, 7), NumberAt(s, 8, 10))
    && NumberAt(s, 11, 13) < 24 && NumberAt(s, 14, 16) < 60 && NumberAt(s, 17, 19) < 60
  }

  lemma PairIs(s: string, i: nat)
    requires i + 2 <= |s|
    ensures NumberAt(s, i, i + 2) == TwoDigits(s, i)
  {
    assert NumberAt(s, i, i + 1) == s[i] as int - '0' as int;
  }

  lemma YearIs(s: string)
    requires 4 <= |s|
    ensures NumberAt(s, 0, 4) == TwoDigits(s, 0) * 100 + TwoDigits(s, 2)
  {
    assert NumberAt(s, 0, 1) == s[0] as int - '0' as int;
    assert NumberAt(s, 0, 2) == TwoDigits(s, 0);
    assert NumberAt(s, 0, 3) == 10 * TwoDigits(s, 0) + s[2] as int - '0' as int;
  }

  lemma DateIs(year: int, month: int, day: int)
    ensures IsDate(year, month, day) <==> 1 <= year && 1 <= month <= 12 && 1 <= day <= DaysIn(year, month)
  {
    if 1 <= month <= 12 { LastDayIs(year, month); }
    hide LastDay, DaysIn;
  }

  lemma LastDayIs(year: int, month: int)
    requires 1 <= month <= 12
    ensures LastDay(year, month) == DaysIn(year, month)
  {
  }

  lemma CalendarIs(s: string)
    requires 19 <= |s|
    ensures OnCalendar(s) <==>
      && IsDate(NumberAt(s, 0, 4), NumberAt(s, 5, 7), NumberAt(s, 8, 10))
      && NumberAt(s, 11, 13) < 24 && NumberAt(s, 14, 16) < 60 && NumberAt(s, 17, 19) < 60
  {
    YearIs(s);
    PairIs(s, 5);
    PairIs(s, 8);
    PairIs(s, 11);
    PairIs(s, 14);
    PairIs(s, 17);
    hide NumberAt, TwoDigits, IsDate, DaysIn, LeapYear;
    DateIs(NumberAt(s, 0, 4), NumberAt(s, 5, 7), NumberAt(s, 8, 10));
  }

  lemma ShortForm(s: string)
    requires |s| == 25
    ensures Matches(s, "0000-00-00T00:00:00+00:00") <==>
      && s[19..] == "+00:00" && s[4] == s[7] == '-' && s[10] == 'T' && s[13] == s[16] == ':'
      && forall i | 0 <= i < 19 && i !in {4, 7, 10, 13, 16, 19} :: '0' <= s[i] <= '9'
  {
    var pattern := "0000-00-00T00:00:00+00:00";
    assert pattern[19..] == "+00:00";
    assert pattern[4] == pattern[7] == '-' && pattern[10] == 'T' && pattern[13] == pattern[16] == ':';
    assert forall i | 0 <= i < 19 && i !in {4, 7, 10, 13, 16, 19} :: pattern[i] == '0';
  }

  lemma LongForm(s: string)
    requires |s| == 32
    ensures Matches(s, "0000-00-00T00:00:00.000000+00:00") <==>
      && s[26..] == "+00:00" && s[4] == s[7] == '-' && s[10] == 'T' && s[13] == s[16] == ':' && s[19] == '.'
      && forall i | 0 <= i < 26 && i !in {4, 7, 10, 13, 16, 19} :: '0' <= s[i] <= '9'
  {
    var pattern := "0000-00-00T00:00:00.000000+00:00";
    assert pattern[26..] == "+00:00" && pattern[19] == '.';
    assert pattern[4] == pattern[7] == '-' && pattern[10] == 'T' && pattern[13] == pattern[16] == ':';
    assert forall i | 0 <= i < 26 && i !in {4, 7, 10, 13, 16, 19} :: pattern[i] == '0';
  }

  lemma TimeIs(s: string)
    ensures IsUtcTime(s) <==> TimeText(s)
  {
    if |s| == 25 || |s| == 32 {
      CalendarIs(s);
      if |s| == 25 { ShortForm(s); } else { LongForm(s); }
      hide OnCalendar, NumberAt, Matches, IsDate;
    }
  }

  /** Record i of a journal is numbered, chained and digested, is a run's own and in UTC, and is an
      intent with a new identity, after no open one, of a call that is in order, or the result of
      the intent right before it. */
  predicate RecordInOrder(digest: Body -> string, items: seq<Item>, i: nat)
    requires i < |items|
  {
    var body := items[i].body;
    && body.sequence == i + 1
    && body.previous == (if i == 0 then seq(64, _ => '0') else items[i - 1].sha256)
    && items[i].sha256 == digest(body)
    && RunName(body.runId) && TimeText(body.at)
    && match body.payload
       case Intent(id, action, target, binding) =>
         && UuidText(id) && InOrder(Call(action, target, binding)) && NewIdentity(items, i, id)
         && (i > 0 ==> items[i - 1].body.payload.Completion?)
       case Completion(intent, _, evidence) =>
         && i > 0 && items[i - 1].body.payload.Intent? && intent == items[i - 1].sha256
         && body.runId == items[i - 1].body.runId && body.invocation == items[i - 1].body.invocation
         && LowerHex(evidence, 64)
  }

  predicate NewIdentity(items: seq<Item>, i: nat, id: string)
    requires i <= |items|
  {
    forall j | 0 <= j < i && items[j].body.payload.Intent? :: items[j].body.payload.requestId != id
  }

  lemma {:induction false} UsedAreEarlier(items: seq<Item>, id: string)
    ensures id !in LedgerOf(items).used <==> NewIdentity(items, |items|, id)
  {
    if items != [] {
      UsedAreEarlier(Front(items), id);
      assert forall j | 0 <= j < |items| - 1 :: Front(items)[j] == items[j];
    }
  }

  /** The reader accepts the next record exactly when it is in order. */
  lemma FitsIff(digest: Body -> string, items: seq<Item>, i: nat)
    requires i < |items|
    ensures Fits(digest, LedgerOf(items[..i]), items[i]) <==> RecordInOrder(digest, items, i)
  {
    OpenIntent(items[..i]);
    var led, p := LedgerOf(items[..i]), items[i].body.payload;
    hide LedgerOf, RecordInOrder, Fits, NewIdentity;
    if p.Intent? {
      UsedAreEarlier(items[..i], p.requestId);
      NewInFront(items, i, p.requestId);
      IntentFitsIff(digest, led, items, i);
    } else {
      ResultFitsIff(digest, led, items, i);
    }
  }

  lemma IntentFitsIff(digest: Body -> string, led: Ledger, items: seq<Item>, i: nat)
    requires i < |items| && items[i].body.payload.Intent?
    requires led.items == items[..i] && led.pending == OpenAfter(items[..i])
    requires items[i].body.payload.requestId !in led.used <==> NewIdentity(items, i, items[i].body.payload.requestId)
    ensures Fits(digest, led, items[i]) <==> RecordInOrder(digest, items, i)
  {
    hide IsHex, IsUuid, UuidText, ValidContext, InOrder, IsUtcTime, NewIdentity, ActionAdmits;
    var p := items[i].body.payload;
    UuidTextIs(p.requestId);
    ValidMeansInOrder(Call(p.action, p.targetCommit, p.binding));
    RunNameIs(items[i].body.runId);
    TimeIs(items[i].body.at);
    hide IsRunId, RunName, TimeText;
  }

  lemma RunNameIs(s: string)
    ensures IsRunId(s) <==> RunName(s)
  {
  }

  lemma ResultFitsIff(digest: Body -> string, led: Ledger, items: seq<Item>, i: nat)
    requires i < |items| && items[i].body.payload.Completion?
    requires led.items == items[..i] && led.pending == OpenAfter(items[..i])
    ensures Fits(digest, led, items[i]) <==> RecordInOrder(digest, items, i)
  {
    hide IsHex, LowerHex, InOrder, IsUtcTime;
    LowerHexIs(items[i].body.payload.evidenceSha256, 64);
    RunNameIs(items[i].body.runId);
    TimeIs(items[i].body.at);
    hide IsRunId, RunName, TimeText;
  }

  lemma NewInFront(items: seq<Item>, i: nat, id: string)
    requires i <= |items|
    ensures NewIdentity(items[..i], i, id) <==> NewIdentity(items, i, id)
  {
    assert forall j | 0 <= j < i :: items[..i][j] == items[j];
  }

  ghost predicate AllInOrder(digest: Body -> string, items: seq<Item>) {
    forall i | 0 <= i < |items| :: RecordInOrder(digest, items, i)
  }

  /** A list of records is a journal exactly when every record of it is in order. */
  lemma {:induction false} JournalIff(digest: Body -> string, items: seq<Item>)
    ensures Journal(digest, items) <==> AllInOrder(digest, items)
  {
    hide AllInOrder;
    if items == [] {
      NothingOutOfOrder(digest);
    } else {
      JournalIff(digest, Front(items));
      FitsIff(digest, items, |items| - 1);
      InOrderSnoc(digest, items);
      hide Fits, LedgerOf, RecordInOrder;
      assert Front(items) == items[..|items| - 1];
    }
  }

  lemma NothingOutOfOrder(digest: Body -> string)
    ensures AllInOrder(digest, [])
  {
  }

  lemma InOrderSnoc(digest: Body -> string, items: seq<Item>)
    requires items != []
    ensures AllInOrder(digest, items) <==>
      AllInOrder(digest, Front(items)) && RecordInOrder(digest, items, |items| - 1)
  {
    hide RecordInOrder;
    var n := |items| - 1;
    assert Front(items) == items[..n];
    forall i | 0 <= i < n ensures RecordInOrder(digest, Front(items), i) <==> RecordInOrder(digest, items, i) {
      OrderInFront(digest, items, n, i);
    }
  }

  lemma OrderInFront(digest: Body -> string, items: seq<Item>, n: nat, i: nat)
    requires i < n <= |items|
    ensures RecordInOrder(digest, items[..n], i) <==> RecordInOrder(digest, items, i)
  {
    hide InOrder, UuidText, LowerHex, RunName, TimeText, NewIdentity;
    if items[i].body.payload.Intent? {
      var id := items[i].body.payload.requestId;
      NewInFront(items[..n], i, id);
      NewInFront(items, i, id);
      assert items[..n][..i] == items[..i];
    }
  }

  function Printed(items: seq<Item>): string {
    if items == [] then "" else Printed(Front(items)) + Line(Last(items))
  }

  /** The text of records in order, within the bounds, is read as exactly these records. */
  lemma {:induction false} PrintedIsRead(digest: Body -> string, items: seq<Item>)
    requires HexDigests(digest) && |Printed(items)| <= 2097152
    requires AllInOrder(digest, items) && forall i | 0 <= i < |items| :: |Line(items[i])| <= 8192
    ensures ReadLedger(digest, Printed(items)) == Some(LedgerOf(items))
  {
    hide RecordInOrder, Line, Fits;
    if items == [] {
      NoLines();
    } else {
      var n, front := |items| - 1, Front(items);
      assert front == items[..n];
      InOrderSnoc(digest, items);
      hide ReadLedger, AllInOrder;
      PrintedIsRead(digest, front);
      FitsIff(digest, items, n);
      WholeAppend(digest, Printed(front), items[n]);
    }
  }

  /** Every record of every accepted journal is in order, and the journal keeps to its bound. */
  lemma RecordsAreInOrder(digest: Body -> string, text: string, i: nat)
    requires ReadLedger(digest, text).Some? && i < |ReadLedger(digest, text).value.items|
    ensures RecordInOrder(digest, ReadLedger(digest, text).value.items, i)
    ensures |text| <= 2097152 && text != "" && text[|text| - 1] == '\n'
  {
    ReadIsJournal(digest, text);
    NoLines();
    hide Scan, Journal, LedgerOf, RecordInOrder, SplitLines;
    JournalIff(digest, ReadLedger(digest, text).value.items);
  }

  /** No effect is invoked on a dirty or moved source tree, under open maintenance, for an early
      generation, or with a sync context for anything but its own fast-forward. */
  lemma InvokedIsInOrder(w: World, steps: seq<Step>, s: State, i: nat)
    requires ValidWorld(w) && Reaches(w, START, steps, s)
    requires i < |s.trace| && s.trace[i].Invoked?
    ensures var call := s.trace[i].call; var c := call.expected;
      && c.sourceClean && c.maintenanceStatus == "closed" && c.generation >= 8
      && (c.Binding? ==> c.sourceCommit == c.mainCommit)
      && (c.SyncBinding? ==>
          c.sourceCommit == c.localMainCommit && call.action == SourceSync && call.target == c.mainCommit)
      && InOrder(call)
  {
    hide Reaches, ValidWorld;
    InvocationIsPrepared(w, steps, s, i);
    hide ReadLedger, RecordInOrder, InOrder;
    var e := s.trace[i];
    var items := ReadLedger(w.digest, e.journal).value.items;
    RecordsAreInOrder(w.digest, e.journal, |items| - 1);
    AnnouncedIsInOrder(w, e, items);
  }

  lemma AnnouncedIsInOrder(w: World, e: Event, items: seq<Item>)
    requires e.Invoked? && items != [] && Last(items) == e.intent && e.intent.body.payload.Intent?
    requires var p := e.intent.body.payload;
      p.action == e.call.action && p.targetCommit == e.call.target && p.binding == e.call.expected
    requires RecordInOrder(w.digest, items, |items| - 1)
    ensures InOrder(e.call)
  {
    hide InOrder;
    var p := e.intent.body.payload;
    assert Call(p.action, p.targetCommit, p.binding) == e.call;
  }
}
