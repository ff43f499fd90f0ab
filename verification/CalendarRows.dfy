/** `event_calendar.to_iso_date` and `normalise_rows`: which rows of the upstream payload become
    events, and with which dates. */
module CalendarRows {
  import opened PyStrings
  import opened Json

  /** Library conversions that are not spelled out: `int(text)`, None where it raises, and
      `str.upper`. */
  datatype Library = Library(parseInt: string -> Option<int>, upper: string -> string)

  /** `int` reads a run of ASCII digits as the number it spells. */
  ghost predicate ReadsDigits(lib: Library) {
    forall s :: s != "" && AllDigits(s) ==> lib.parseInt(s) == Some(NatValue(s))
  }

  // ── Dates ────────────────────────────────────────────────────────────────

  predicate IsLeap(year: int) { year % 4 == 0 && (year % 100 != 0 || year % 400 == 0) }

  function DaysIn(year: int, month: int): int {
    if month == 2 then (if IsLeap(year) then 29 else 28)
    else if month == 4 || month == 6 || month == 9 || month == 11 then 30 else 31
  }

  /** A calendar date of the accepted years. */
  predicate IsDate(year: int, month: int, day: int) {
    1970 <= year <= 2999 && 1 <= month <= 12 && 1 <= day <= DaysIn(year, month)
  }

  function Pad2(n: nat): (s: string)
    requires n < 100
    ensures |s| == 2 && AllDigits(s)
  {
    [DigitChar(n / 10), DigitChar(n % 10)]
  }

  function Pad4(n: nat): (s: string)
    requires n < 10000
    ensures |s| == 4 && AllDigits(s)
  {
    Pad2(n / 100) + Pad2(n % 100)
  }

  /** `YYYY-MM-DD` */
  function DateText(year: int, month: int, day: int): (s: string)
    requires IsDate(year, month, day)
    ensures |s| == 10
  {
    Pad4(year) + ['-'] + Pad2(month) + ['-'] + Pad2(day)
  }

  /** `_iso_or_none` */
  function IsoOrNone(year: int, month: int, day: int): Option<string> {
    if IsDate(year, month, day) then Some(DateText(year, month, day)) else None
  }

  function MonthName(month: int): (s: string)
    requires 1 <= month <= 12
    ensures |s| == 3 && '-' !in s && Trimmed(s, IsSpace)
  {
    match month
    case 1 => "jan" case 2 => "feb" case 3 => "mar" case 4 => "apr" case 5 => "may" case 6 => "jun"
    case 7 => "jul" case 8 => "aug" case 9 => "sep" case 10 => "oct" case 11 => "nov" case _ => "dec"
  }

  /** The month table: the first three letters, lower-cased. */
  function MonthOf(text: string): Option<int> {
    var t := Lower(Strip(text));
    var name := if |t| > 3 then t[..3] else t;
    MonthNamed(name, 12)
  }

  function MonthNamed(name: string, upTo: nat): (m: Option<int>)
    requires upTo <= 12
    ensures m.Some? ==> 1 <= m.value <= upTo && MonthName(m.value) == name
  {
    if upTo == 0 then None else if MonthName(upTo) == name then Some(upTo) else MonthNamed(name, upTo - 1)
  }

  /** Day, month and year parsed, or nothing if one of them is not a number. */
  function FromParts(lib: Library, year: string, month: Option<int>, day: string): Option<string> {
    var y, d := lib.parseInt(year), lib.parseInt(day);
    if y.None? || month.None? || d.None? then None else IsoOrNone(y.value, month.value, d.value)
  }

  /** `to_iso_date` */
  function ToIso(lib: Library, v: Option<Json>): Option<string> {
    if v.None? || !v.value.JStr? || Strip(v.value.s) == "" then None
    else
      var t := Strip(v.value.s);
      if |t| >= 10 && t[4] == '-' && t[7] == '-' then FromParts(lib, t[..4], lib.parseInt(t[5..7]), t[8..10])
      else
        var parts := Split(t, '-');
        if |parts| != 3 then None
        else FromParts(lib, Strip(parts[2]), MonthOf(parts[1]), Strip(parts[0]))
  }

  // ── Rows ─────────────────────────────────────────────────────────────────

  datatype Row = Row(symbol: string, date: string, purpose: string, company: string)

  predicate OccursAt(text: string, part: string, i: nat) {
    i + |part| <= |text| && text[i..i + |part|] == part
  }

  predicate Contains(text: string, part: string) {
    exists i: nat :: i <= |text| && OccursAt(text, part, i)
  }

  /** `purpose_matches` */
  predicate PurposeMatches(purpose: Option<Json>, purposes: seq<string>) {
    purposes == [] ||
    (purpose.Some? && purpose.value.JStr? &&
     exists i :: 0 <= i < |purposes| && Contains(Lower(purpose.value.s), purposes[i]))
  }

  function TextOr(v: Option<Json>): string {
    if v.Some? && v.value.JStr? then v.value.s else ""
  }

  /** The event of one payload row, if it is one. */
  function EventOf(lib: Library, raw: Json, purposes: seq<string>): Option<Row> {
    if !raw.JObj? then None
    else
      var symbol, purpose := Get(raw.fields, "symbol"), Get(raw.fields, "purpose");
      var iso := ToIso(lib, Get(raw.fields, "date"));
      if symbol.None? || !symbol.value.JStr? || Strip(symbol.value.s) == "" then None
      else if iso.None? || !PurposeMatches(purpose, purposes) then None
      else
        var company := TextOr(Get(raw.fields, "company"));
        Some(Row(lib.upper(Strip(symbol.value.s)), iso.value, Strip(TextOr(purpose)), company))
  }

  function EventsOf(lib: Library, raws: seq<Json>, purposes: seq<string>): seq<Row> {
    if raws == [] then []
    else
      var e := EventOf(lib, raws[|raws| - 1], purposes);
      EventsOf(lib, raws[..|raws| - 1], purposes) + if e.Some? then [e.value] else []
  }

  /** `normalise_rows` as a function of the payload. */
  function Normalised(lib: Library, raw: Json, purposes: seq<string>): seq<Row> {
    if raw.JArr? then EventsOf(lib, raw.items, purposes) else []
  }

  /** `normalise_rows` */
  method NormaliseRows(lib: Library, raw: Json, purposes: seq<string>) returns (out: seq<Row>)
    ensures out == Normalised(lib, raw, purposes)
  {
    hide ToIso, PurposeMatches, Get, Strip;
    out := [];
    if !raw.JArr? {
      return;
    }
    for i := 0 to |raw.items|
      invariant out == EventsOf(lib, raw.items[..i], purposes)
    {
      assert raw.items[..i + 1][..i] == raw.items[..i];
      var row := raw.items[i];
      if !row.JObj? {
        continue;
      }
      var symbol := Get(row.fields, "symbol");
      if symbol.None? || !symbol.value.JStr? || Strip(symbol.value.s) == "" {
        continue;
      }
      var iso := ToIso(lib, Get(row.fields, "date"));
      if iso.None? {
        continue;
      }
      var purpose := Get(row.fields, "purpose");
      if !PurposeMatches(purpose, purposes) {
        continue;
      }
      var company := TextOr(Get(row.fields, "company"));
      out := out + [Row(lib.upper(Strip(symbol.value.s)), iso.value, Strip(TextOr(purpose)), company)];
    }
    assert raw.items[..|raw.items|] == raw.items;
  }

  // ── Laws ─────────────────────────────────────────────────────────────────

  /** The text of a calendar date. */
  ghost predicate IsDateText(s: string) {
    exists y, m, d :: IsDate(y, m, d) && s == DateText(y, m, d)
  }

  lemma ToIsoIsDate(lib: Library, v: Option<Json>)
    ensures ToIso(lib, v).Some? ==> IsDateText(ToIso(lib, v).value)
  {
    hide Strip, Split, MonthOf, DateText;
  }

  lemma Digits2(n: nat)
    requires n < 100
    ensures NatValue(Pad2(n)) == n
  {
    var s := Pad2(n);
    assert s[..1] == [DigitChar(n / 10)] && s[..1][..0] == [];
    assert NatValue(s[..1]) == n / 10;
  }

  lemma Digits4(n: nat)
    requires n < 10000
    ensures NatValue(Pad4(n)) == n
  {
    var a, b := Pad2(n / 100), Pad2(n % 100);
    Digits2(n / 100);
    Digits2(n % 100);
    ValueJoin(a, b);
  }

  lemma ValueJoin(a: string, b: string)
    requires AllDigits(a) && AllDigits(b) && |b| == 2
    ensures AllDigits(a + b) && NatValue(a + b) == 100 * NatValue(a) + NatValue(b)
  {
    var s := a + b;
    assert s[..|s| - 1] == a + [b[0]] && (a + [b[0]])[..|a|] == a;
    assert b[..1] == [b[0]] && [b[0]][..0] == [];
    assert NatValue(b[..1]) == b[0] as int - '0' as int;
  }

  /** Four digits, two and two, with dashes between. */
  function IsoText(year: nat, month: nat, day: nat): (s: string)
    requires year < 10000 && month < 100 && day < 100
    ensures |s| == 10
  {
    Pad4(year) + ['-'] + Pad2(month) + ['-'] + Pad2(day)
  }

  lemma NoSpaceDigits(s: string)
    requires AllDigits(s) && s != ""
    ensures Trimmed(s, IsSpace)
  {
    assert IsDigit(s[0]) && IsDigit(s[|s| - 1]);
  }

  /** Stripping keeps a beginning with no blank at either end. */
  lemma HeadKept(head: string, tail: string)
    requires head != "" && Trimmed(head, IsSpace)
    ensures head <= Strip(head + tail)
  {
    var s := head + tail;
    assert LStrip(s, IsSpace) == s;
    RStripSplits(s, IsSpace);
    var n := |RStrip(s, IsSpace)|;
    assert s[|head| - 1] == head[|head| - 1];
    assert n >= |head|;
    assert s[..n][..|head|] == head;
  }

  /** A date in the output's format is read as exactly that date if it exists, whatever follows it, and dropped
      if not. */
  lemma IsoReads(lib: Library, year: nat, month: nat, day: nat, tail: string)
    requires ReadsDigits(lib) && year < 10000 && month < 100 && day < 100
    ensures ToIso(lib, Some(JStr(IsoText(year, month, day) + tail))) == IsoOrNone(year, month, day)
  {
    hide MonthOf, Split, LStrip, RStrip;
    var y, m, d := Pad4(year), Pad2(month), Pad2(day);
    var head := IsoText(year, month, day);
    assert Trimmed(head, IsSpace) by {
      NoSpaceDigits(y);
      NoSpaceDigits(d);
    }
    HeadKept(head, tail);
    hide Strip, Pad2, Pad4, NatValue, IsoText;
    var t := Strip(head + tail);
    assert head == y + ['-'] + m + ['-'] + d;
    assert t[..10] == head;
    assert t[..4] == head[..4] == y && t[5..7] == head[5..7] == m && t[8..10] == head[8..10] == d;
    assert t[4] == head[4] == '-' && t[7] == head[7] == '-';
    Digits4(year);
    Digits2(month);
    Digits2(day);
  }

  /** A date that is already in the output form is passed through. */
  lemma IsoReadsBack(lib: Library, year: int, month: int, day: int)
    requires ReadsDigits(lib) && IsDate(year, month, day)
    ensures ToIso(lib, Some(JStr(DateText(year, month, day)))) == Some(DateText(year, month, day))
  {
    hide ToIso, Pad2, Pad4;
    IsoReads(lib, year, month, day, "");
    assert IsoText(year, month, day) + "" == DateText(year, month, day);
  }

  /** So converting twice is converting once. */
  lemma ToIsoIdempotent(lib: Library, v: Option<Json>)
    requires ReadsDigits(lib) && ToIso(lib, v).Some?
    ensures ToIso(lib, Some(JStr(ToIso(lib, v).value))) == ToIso(lib, v)
  {
    hide ToIso, DateText;
    ToIsoIsDate(lib, v);
    var y, m, d :| IsDate(y, m, d) && ToIso(lib, v).value == DateText(y, m, d);
    IsoReadsBack(lib, y, m, d);
  }

  lemma EventDate(lib: Library, raw: Json, purposes: seq<string>)
    ensures var e := EventOf(lib, raw, purposes); e.Some? ==> IsDateText(e.value.date)
  {
    hide ToIso, IsDateText, Get, PurposeMatches, Strip;
    if raw.JObj? {
      ToIsoIsDate(lib, Get(raw.fields, "date"));
    }
  }

  /** Every event's date is a calendar date. */
  lemma {:induction false} EventDates(lib: Library, raws: seq<Json>, purposes: seq<string>)
    ensures forall i :: 0 <= i < |EventsOf(lib, raws, purposes)| ==> IsDateText(EventsOf(lib, raws, purposes)[i].date)
  {
    hide EventOf, IsDateText;
    if raws != [] {
      EventDates(lib, raws[..|raws| - 1], purposes);
      EventDate(lib, raws[|raws| - 1], purposes);
    }
  }

  /** The payload of one row is an event. */
  predicate IsEvent(lib: Library, raw: Json, purposes: seq<string>) { EventOf(lib, raw, purposes).Some? }

  lemma {:induction false} NoEvents(lib: Library, raws: seq<Json>, purposes: seq<string>)
    ensures EventsOf(lib, raws, purposes) == [] <==> forall i :: 0 <= i < |raws| ==> !IsEvent(lib, raws[i], purposes)
  {
    hide EventOf;
    if raws != [] {
      var init, last := raws[..|raws| - 1], raws[|raws| - 1];
      NoEvents(lib, init, purposes);
      assert raws == init + [last];
    }
  }

  /** A payload comes to an empty calendar exactly when it is no list, or a list without an event. */
  lemma EmptyIff(lib: Library, raw: Json, purposes: seq<string>)
    ensures Normalised(lib, raw, purposes) == [] <==>
            !raw.JArr? || forall i :: 0 <= i < |raw.items| ==> !IsEvent(lib, raw.items[i], purposes)
  {
    hide EventsOf, EventOf;
    if raw.JArr? {
      NoEvents(lib, raw.items, purposes);
    }
  }

  // ── The upstream's own format ────────────────────────────────────────────

  const MONTHS := ["jan", "feb", "mar", "apr", "may", "jun", "jul", "aug", "sep", "oct", "nov", "dec"]

  /** The text names the month: its first three letters, in any capitals. */
  predicate NamesMonth(text: string, month: int) {
    && |text| >= 3 && 1 <= month <= 12 && Lower(text)[..3] == MONTHS[month - 1]
    && '-' !in text && Trimmed(text, IsSpace)
  }

  /** `DD-Mon-YYYY` */
  function NseText(year: nat, mon: string, day: nat): string
    requires year < 10000 && day < 100
  {
    Pad2(day) + ['-'] + (mon + ['-'] + Pad4(year))
  }

  lemma MonthNamesAre(month: int)
    requires 1 <= month <= 12
    ensures MonthName(month) == MONTHS[month - 1]
  {
  }

  lemma {:induction false} MonthNamesDiffer(month: int, upTo: nat)
    requires 1 <= month <= upTo <= 12
    ensures MonthNamed(MonthName(month), upTo) == Some(month)
    decreases upTo
  {
    if month < upTo {
      NamesDiffer(month, upTo);
      MonthNamesDiffer(month, upTo - 1);
    }
  }

  lemma NamesDiffer(m: int, n: int)
    requires 1 <= m < n <= 12
    ensures MonthName(m) != MonthName(n)
  {
    var a, b := MonthName(m), MonthName(n);
    assert a[0] != b[0] || a[1] != b[1] || a[2] != b[2];
  }

  lemma MonthReadsBack(text: string, month: int)
    requires NamesMonth(text, month)
    ensures MonthOf(text) == Some(month)
  {
    StripTrimmed(text, IsSpace);
    MonthNamesAre(month);
    MonthNamesDiffer(month, 12);
    hide Lower, MonthName, MonthNamed, Strip;
    var t := Lower(text);
    assert |t| == 3 ==> t[..3] == t;
  }

  lemma NseParts(year: nat, mon: string, month: int, day: nat)
    requires year < 10000 && NamesMonth(mon, month) && day < 100
    ensures var t := NseText(year, mon, day);
            && Strip(t) == t && t != "" && !(|t| >= 10 && t[4] == '-' && t[7] == '-')
            && Split(t, '-') == [Pad2(day), mon, Pad4(year)]
  {
    hide Lower, Pad2, Pad4, Split;
    var d, y := Pad2(day), Pad4(year);
    var t := NseText(year, mon, day);
    assert t[0] == d[0] && t[|t| - 1] == y[3] && t[4] == mon[1];
    StripTrimmed(t, IsSpace);
    SplitStep(d, '-', mon + ['-'] + y);
    SplitStep(mon, '-', y);
    SplitStep(y, '-', "");
  }

  /** A date in the upstream's format is read as exactly that date if it exists, and dropped if not. */
  lemma NseReads(lib: Library, year: nat, mon: string, month: int, day: nat)
    requires ReadsDigits(lib) && year < 10000 && NamesMonth(mon, month) && day < 100
    ensures ToIso(lib, Some(JStr(NseText(year, mon, day)))) == IsoOrNone(year, month, day)
  {
    hide NseText, Split, MonthOf, Pad2, Pad4, NatValue, DateText, StripIf, NamesMonth;
    NseParts(year, mon, month, day);
    MonthReadsBack(mon, month);
    Digits2(day);
    Digits4(year);
    StripTrimmed(Pad2(day), IsSpace);
    StripTrimmed(Pad4(year), IsSpace);
  }

  /** The leap days of the years up to `year`. */
  function LeapDays(year: int): int { year / 4 - year / 100 + year / 400 }

  /** A date exists in the years 1970 to 2999 and up to the last day of its month: 30, and one more in every other
      month, July and August both long; or 28, and one more when the year brings a leap day. */
  lemma DateExists(year: int, month: int, day: int)
    ensures IsoOrNone(year, month, day).Some? <==>
            && 1970 <= year < 3000 && 1 <= month <= 12 && 1 <= day
            && day <= if month == 2 then 28 + LeapDays(year) - LeapDays(year - 1) else 30 + (month + month / 8) % 2
    ensures IsoOrNone(year, month, day).Some? ==>
              IsoOrNone(year, month, day) == Some(IsoText(year, month, day))
  {
    if 1970 <= year < 3000 && month == 2 {
      LeapDay(year);
    }
  }

  lemma LeapDay(year: int)
    ensures LeapDays(year) - LeapDays(year - 1) == if IsLeap(year) then 1 else 0
  {
    OneMore(year, 4);
    OneMore(year, 100);
    OneMore(year, 400);
    Multiple(year, 100, 4);
    Multiple(year, 4, 25);
  }

  lemma Multiple(n: int, d: int, e: int)
    requires (d == 100 && e == 4) || (d == 4 && e == 25)
    ensures n % (d * e) == 0 ==> n % d == 0
  {
    if n % (d * e) == 0 {
      var k := n / (d * e);
      assert n == d * (e * k);
    }
  }

  lemma OneMore(n: int, d: int)
    requires d == 4 || d == 100 || d == 400
    ensures n / d - (n - 1) / d == if n % d == 0 then 1 else 0
  {
  }

  // ── A row's fields ───────────────────────────────────────────────────────

  /** The text under a key, if there is one. */
  function TextAt(raw: Json, key: string): Option<string>
    requires raw.JObj?
  {
    var v := Get(raw.fields, key);
    if v.Some? && v.value.JStr? then Some(v.value.s) else None
  }

  function OrEmpty(text: Option<string>): string { if text.Some? then text.value else "" }

  /** The purpose qualifies: there is no filter, or it is a text with one of the wanted parts in it. */
  ghost predicate Qualifies(purpose: Option<string>, purposes: seq<string>) {
    purposes == [] ||
    (purpose.Some? && exists a, p, b :: p in purposes && Lower(purpose.value) == a + p + b)
  }

  lemma QualifiesIff(purpose: Option<Json>, text: Option<string>, purposes: seq<string>)
    requires text == if purpose.Some? && purpose.value.JStr? then Some(purpose.value.s) else None
    ensures PurposeMatches(purpose, purposes) <==> Qualifies(text, purposes)
  {
    if text.Some? {
      var low := Lower(text.value);
      forall p
        ensures Contains(low, p) <==> exists a, b :: low == a + p + b
      {
        ContainsIff(low, p);
      }
    }
  }

  lemma ContainsIff(text: string, part: string)
    ensures Contains(text, part) <==> exists a, b :: text == a + part + b
  {
    if Contains(text, part) {
      var i: nat :| i <= |text| && OccursAt(text, part, i);
      assert text == text[..i] + part + text[i + |part|..];
    }
    if a, b :| text == a + part + b {
      assert OccursAt(text, part, |a|);
    }
  }

  /** Which payload rows are events and what each event holds, field by field: the symbol without its blanks and
      in capitals, the converted date, the purpose without its blanks, and the company as it is, the last two
      empty when they are no texts. */
  lemma EventMeans(lib: Library, raw: Json, purposes: seq<string>)
    ensures var e := EventOf(lib, raw, purposes);
            && (e.Some? <==>
                  && raw.JObj? && TextAt(raw, "symbol").Some? && !AllBlank(TextAt(raw, "symbol").value)
                  && ToIso(lib, Get(raw.fields, "date")).Some? && Qualifies(TextAt(raw, "purpose"), purposes))
            && (e.Some? ==>
                  && (exists core :: IsCore(core, TextAt(raw, "symbol").value) && e.value.symbol == lib.upper(core))
                  && Some(e.value.date) == ToIso(lib, Get(raw.fields, "date"))
                  && IsCore(e.value.purpose, OrEmpty(TextAt(raw, "purpose")))
                  && e.value.company == OrEmpty(TextAt(raw, "company")))
  {
    hide ToIso, PurposeMatches, Qualifies, StripIf, Get, IsCore;
    if raw.JObj? && TextAt(raw, "symbol").Some? {
      var symbol := TextAt(raw, "symbol").value;
      StripIsCore(symbol);
      BlankIff(symbol);
      QualifiesIff(Get(raw.fields, "purpose"), TextAt(raw, "purpose"), purposes);
      StripIsCore(OrEmpty(TextAt(raw, "purpose")));
    }
  }

  /** Rows are judged one by one and kept in order. */
  lemma {:induction false} EventsJoin(lib: Library, a: seq<Json>, b: seq<Json>, purposes: seq<string>)
    ensures EventsOf(lib, a + b, purposes) == EventsOf(lib, a, purposes) + EventsOf(lib, b, purposes)
    ensures forall raw :: EventsOf(lib, [raw], purposes) ==
              if EventOf(lib, raw, purposes).Some? then [EventOf(lib, raw, purposes).value] else []
  {
    hide EventOf;
    forall raw: Json
      ensures EventsOf(lib, [raw][..0], purposes) == []
    {
      assert [raw][..0] == [];
    }
    if b == [] {
      assert a + b == a;
    } else {
      var n := |b| - 1;
      EventsJoin(lib, a, b[..n], purposes);
      assert (a + b)[..|a + b| - 1] == a + b[..n];
    }
  }
}
