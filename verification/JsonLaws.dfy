/** `json.loads` undoes `json.dumps`, in every style and inside any surrounding text;
    hence printing is unambiguous. */
module JsonLaws {
  import opened PyStrings
  import opened Json

  /** What may follow a printed value without being read as part of it. */
  predicate Delimited(rest: string) {
    rest == [] || !IsNumberChar(rest[0])
  }

  lemma HexBack(d: nat)
    requires d < 16
    ensures HexValue(HexDigit(d)) == Some(d)
  {
  }

  lemma HexDigitsSum(n: nat)
    requires n < 0x10000
    ensures n == ((n / 4096 * 16 + n / 256 % 16) * 16 + n / 16 % 16) * 16 + n % 16
  {
    assert n / 256 == n / 4096 * 16 + n / 256 % 16;
    assert n / 16 == n / 256 * 16 + n / 16 % 16;
  }

  lemma ReadHex4Back(n: nat, rest: string)
    requires n < 0x10000
    ensures ReadHex4(Hex4(n) + rest) == Got(n, rest)
  {
    var s := Hex4(n) + rest;
    HexDigitsSum(n);
    HexBack(n / 4096);
    HexBack(n / 256 % 16);
    HexBack(n / 16 % 16);
    HexBack(n % 16);
    assert s[4..] == rest;
  }

  lemma ReadShortEscape(n: nat, rest: string)
    requires n < 0xd800 || 0xe000 <= n < 0x10000
    ensures ReadEscape(['u'] + (Hex4(n) + rest)) == Got(n as char, rest)
  {
    var s := ['u'] + (Hex4(n) + rest);
    assert s[1..] == Hex4(n) + rest;
    ReadHex4Back(n, rest);
  }

  lemma ReadPairEscape(hi: nat, lo: nat, rest: string)
    requires 0xd800 <= hi < 0xdc00 <= lo < 0xe000
    ensures ReadEscape(['u'] + (Hex4(hi) + (['\\', 'u'] + (Hex4(lo) + rest)))) ==
            Got((0x10000 + (hi - 0xd800) * 0x400 + (lo - 0xdc00)) as char, rest)
  {
    var low := Hex4(lo) + rest;
    var tail := ['\\', 'u'] + low;
    var s := ['u'] + (Hex4(hi) + tail);
    assert s[1..] == Hex4(hi) + tail;
    ReadHex4Back(hi, tail);
    assert tail[2..] == low;
    ReadHex4Back(lo, rest);
  }

  lemma PairValue(n: nat)
    requires 0x10000 <= n < 0x110000
    ensures var hi, lo := 0xd800 + (n - 0x10000) / 0x400, 0xdc00 + (n - 0x10000) % 0x400;
            0xd800 <= hi < 0xdc00 <= lo < 0xe000 && 0x10000 + (hi - 0xd800) * 0x400 + (lo - 0xdc00) == n
  {
  }

  lemma ReadUnicodeEscape(c: char, rest: string)
    ensures ReadEscape((UnicodeEscape(c) + rest)[1..]) == Got(c, rest)
  {
    hide Hex4, ReadEscape;
    var n := c as int;
    var s := (UnicodeEscape(c) + rest)[1..];
    if n < 0x10000 {
      assert s == ['u'] + (Hex4(n) + rest);
      ReadShortEscape(n, rest);
    } else {
      var hi, lo := 0xd800 + (n - 0x10000) / 0x400, 0xdc00 + (n - 0x10000) % 0x400;
      PairValue(n);
      assert s == ['u'] + (Hex4(hi) + (['\\', 'u'] + (Hex4(lo) + rest)));
      ReadPairEscape(hi, lo, rest);
    }
  }

  lemma ReadEscaped(s: string, c: char, rest: string)
    requires s != [] && s[0] == '\\' && ReadEscape(s[1..]) == Got(c, rest) && ReadString(rest).Got?
    ensures ReadString(s) == Got([c] + ReadString(rest).value, ReadString(rest).rest)
  {
    hide ReadEscape;
  }

  lemma ReadPlain(c: char, rest: string)
    requires c != '"' && c != '\\' && c >= ' ' && ReadString(rest).Got?
    ensures ReadString([c] + rest) == Got([c] + ReadString(rest).value, ReadString(rest).rest)
  {
    assert ([c] + rest)[1..] == rest;
  }

  lemma ReadTwoCharEscape(ascii: bool, c: char, rest: string)
    requires var e := EscapeChar(ascii, c); e != [c] && e != UnicodeEscape(c)
    ensures var e := EscapeChar(ascii, c); |e| == 2 && e[0] == '\\' && ReadEscape([e[1]] + rest) == Got(c, rest)
  {
    hide UnicodeEscape;
    var e := EscapeChar(ascii, c);
    assert |e| == 2;
    assert ([e[1]] + rest)[1..] == rest;
  }

  lemma PlainEscape(ascii: bool, c: char)
    requires EscapeChar(ascii, c) == [c]
    ensures c != '"' && c != '\\' && c >= ' '
  {
  }

  /** Reading the escape of one character gives that character and continues after it. */
  lemma ReadEscapedChar(ascii: bool, c: char, rest: string)
    requires ReadString(rest).Got?
    ensures ReadString(EscapeChar(ascii, c) + rest) ==
            Got([c] + ReadString(rest).value, ReadString(rest).rest)
  {
    hide EscapeChar, ReadString, ReadEscape;
    var e := EscapeChar(ascii, c);
    var s := e + rest;
    if e == [c] {
      PlainEscape(ascii, c);
      ReadPlain(c, rest);
    } else if e == UnicodeEscape(c) {
      assert s[0] == '\\';
      ReadUnicodeEscape(c, rest);
      ReadEscaped(s, c, rest);
    } else {
      ReadTwoCharEscape(ascii, c, rest);
      assert s[1..] == [e[1]] + rest;
      ReadEscaped(s, c, rest);
    }
  }

  lemma {:induction false} ReadQuoted(ascii: bool, s: string, rest: string)
    ensures ReadString(Escape(ascii, s) + "\"" + rest) == Got(s, rest)
  {
    if s == [] {
      assert Escape(ascii, s) + "\"" + rest == "\"" + rest;
      assert ("\"" + rest)[1..] == rest;
    } else {
      var tail := Escape(ascii, s[1..]) + "\"" + rest;
      assert Escape(ascii, s) + "\"" + rest == EscapeChar(ascii, s[0]) + tail;
      ReadQuoted(ascii, s[1..], rest);
      ReadEscapedChar(ascii, s[0], tail);
      assert [s[0]] + s[1..] == s;
    }
  }

  lemma ReadNumberBack(word: string, rest: string)
    requires IsIntText(word) || IsFloatText(word)
    requires Delimited(rest)
    ensures ReadNumber(word + rest) ==
            Got(if IsIntText(word) then JInt(IntValue(word)) else JFloat(word), rest)
  {
    if IsIntText(word) {
      IntTextChars(word);
    }
    StripRun(word, rest, IsNumberChar);
    assert (word + rest)[..|word|] == word;
  }

  /** The first character of a printed value opens exactly one kind of value. */
  lemma PrintStart(st: Style, t: Json)
    ensures Print(st, t) != []
    ensures var c := Print(st, t)[0];
            match t
            case JNull => c == 'n'
            case JBool(b) => c == 't' || c == 'f'
            case JStr(s) => c == '"'
            case JArr(items) => c == '['
            case JObj(fields) => c == '{'
            case _ => IsDigit(c) || c == '-'
  {
    match t
    case JFloat(repr) => FloatStart(repr);
    case _ =>
  }

  lemma FloatStart(s: string)
    requires IsFloatText(s)
    ensures s != [] && (IsDigit(s[0]) || s[0] == '-')
  {
    var m, n :| 0 <= m <= n <= |s| && FloatShape(s, m, n);
    assert s[..m][0] == s[0];
  }

  lemma SkipPad(pad: string, s: string)
    requires AllWs(pad)
    requires s == [] || !IsWs(s[0])
    ensures SkipWs(pad + s) == s
  {
    StripRun(pad, s, IsWs);
  }

  /** Reading a printed value gives the value back and stops exactly at its end. */
  lemma {:induction false} ReadPrinted(st: Style, t: Json, rest: string)
    requires WellFormed(t) && Delimited(rest)
    ensures ReadValue(Print(st, t) + rest) == Got(t, rest)
    decreases t, 1
  {
    match t
    case JArr(items) => ReadPrintedArray(st, items, rest);
    case JObj(fields) => ReadPrintedObject(st, fields, rest);
    case _ => ReadPrintedScalar(st, t, rest);
  }

  lemma ReadPrintedString(st: Style, s: string, rest: string)
    ensures ReadValue(Quote(st.ascii, s) + rest) == Got(JStr(s), rest)
  {
    hide Escape, ReadString;
    var text := Quote(st.ascii, s) + rest;
    assert text[0] == '"';
    assert text[1..] == Escape(st.ascii, s) + "\"" + rest;
    ReadQuoted(st.ascii, s, rest);
  }

  lemma ReadPrintedNumber(word: string, rest: string)
    requires IsIntText(word) || IsFloatText(word)
    requires Delimited(rest)
    ensures ReadValue(word + rest) == Got(if IsIntText(word) then JInt(IntValue(word)) else JFloat(word), rest)
  {
    hide ReadNumber, IntValue;
    if IsIntText(word) {
      IntTextChars(word);
    } else {
      FloatStart(word);
    }
    assert (word + rest)[0] == word[0];
    ReadNumberBack(word, rest);
  }

  lemma ReadPrintedScalar(st: Style, t: Json, rest: string)
    requires !t.JArr? && !t.JObj? && Delimited(rest)
    ensures ReadValue(Print(st, t) + rest) == Got(t, rest)
  {
    var p := Print(st, t);
    match t
    case JNull => assert (p + rest)[4..] == rest;
    case JBool(b) => assert (p + rest)[|p|..] == rest;
    case JInt(n) =>
      hide ReadValue, IntText;
      IntTextValue(n);
      ReadPrintedNumber(p, rest);
    case JFloat(repr) =>
      hide ReadValue;
      if IsIntText(p) { IntTextChars(p); }
      ReadPrintedNumber(p, rest);
    case JStr(s) =>
      hide ReadValue, Quote;
      ReadPrintedString(st, s, rest);
  }

  lemma {:induction false} ReadPrintedArray(st: Style, items: seq<Json>, rest: string)
    requires forall i :: 0 <= i < |items| ==> WellFormed(items[i])
    ensures ReadValue(Print(st, JArr(items)) + rest) == Got(JArr(items), rest)
    decreases items, 1
  {
    var s := Print(st, JArr(items)) + rest;
    var body := PrintItems(st, items) + "]" + rest;
    assert s[1..] == body;
    if items == [] {
      assert body == "]" + rest && body[1..] == rest;
    } else {
      ItemsStart(st, items);
      assert body[0] == PrintItems(st, items)[0];
      ReadPrintedItems(st, items, rest);
    }
    assert SkipWs(body) == body;
    assert ReadValue(s) == ReadArray(body);
  }

  lemma {:induction false} ReadPrintedObject(st: Style, fields: seq<Field>, rest: string)
    requires DistinctKeys(fields)
    requires forall i :: 0 <= i < |fields| ==> WellFormed(fields[i].value)
    ensures ReadValue(Print(st, JObj(fields)) + rest) == Got(JObj(fields), rest)
    decreases fields, 1
  {
    var body := PrintFields(st, fields) + "}" + rest;
    assert Print(st, JObj(fields)) + rest == ['{'] + body;
    hide Print, PrintFields, ReadFields, DictOf;
    if fields == [] {
      NoFields(st);
      assert body == "}" + rest && body[1..] == rest;
    } else {
      FieldsStart(st, fields);
      assert body[0] == PrintFields(st, fields)[0];
      ReadPrintedFields(st, fields, rest);
      DictOfDistinct(fields);
    }
    ReadBraced(body);
  }

  lemma NoFields(st: Style)
    ensures PrintFields(st, []) == ""
  {
  }

  lemma ReadBraced(body: string)
    requires body != [] && !IsWs(body[0])
    ensures ReadValue(['{'] + body) == ReadObject(body)
  {
    hide ReadObject;
    assert (['{'] + body)[1..] == body && SkipWs(body) == body;
  }

  lemma ItemsStart(st: Style, items: seq<Json>)
    requires items != []
    ensures var s := PrintItems(st, items); s != [] && !IsWs(s[0]) && s[0] != ']'
  {
    PrintStart(st, items[0]);
  }

  lemma LastItem(s: string, v: Json, rest: string)
    requires ReadValue(s) == Got(v, [']'] + rest)
    ensures ReadItems(s) == Got([v], rest)
  {
    assert SkipWs([']'] + rest) == [']'] + rest && ([']'] + rest)[1..] == rest;
  }

  lemma NextItem(s: string, v: Json, pad: string, more: string, vs: seq<Json>, rest: string)
    requires ReadValue(s) == Got(v, [','] + (pad + more))
    requires SkipWs(pad + more) == more && ReadItems(more) == Got(vs, rest)
    ensures ReadItems(s) == Got([v] + vs, rest)
  {
    var tail := [','] + (pad + more);
    assert SkipWs(tail) == tail && tail[1..] == pad + more;
  }

  lemma ItemsText(st: Style, items: seq<Json>, rest: string)
    requires items != []
    ensures PrintItems(st, items) + "]" + rest ==
            Print(st, items[0]) +
            if |items| == 1 then [']'] + rest else [','] + (st.itemPad + (PrintItems(st, items[1..]) + "]" + rest))
  {
    hide Print;
  }

  lemma HeadAndTail<T>(xs: seq<T>)
    requires xs != []
    ensures [xs[0]] + xs[1..] == xs && (|xs| == 1 ==> [xs[0]] == xs)
  {
  }

  lemma ItemsMore(st: Style, items: seq<Json>, rest: string)
    requires items != []
    ensures var more := PrintItems(st, items) + "]" + rest; SkipWs(st.itemPad + more) == more
  {
    hide PrintItems, SkipWs;
    ItemsStart(st, items);
    var more := PrintItems(st, items) + "]" + rest;
    assert more[0] == PrintItems(st, items)[0];
    SkipPad(st.itemPad, more);
  }

  lemma {:induction false} ReadPrintedItems(st: Style, items: seq<Json>, rest: string)
    requires items != [] && forall i :: 0 <= i < |items| ==> WellFormed(items[i])
    ensures ReadItems(PrintItems(st, items) + "]" + rest) == Got(items, rest)
    decreases items, 0
  {
    hide Print, PrintItems, ReadItems, SkipWs, ReadValue, WellFormed;
    var s := PrintItems(st, items) + "]" + rest;
    ItemsText(st, items, rest);
    HeadAndTail(items);
    if |items| == 1 {
      ReadPrinted(st, items[0], [']'] + rest);
      LastItem(s, items[0], rest);
    } else {
      var more := PrintItems(st, items[1..]) + "]" + rest;
      ReadPrinted(st, items[0], [','] + (st.itemPad + more));
      ItemsMore(st, items[1..], rest);
      ReadPrintedItems(st, items[1..], rest);
      NextItem(s, items[0], st.itemPad, more, items[1..], rest);
    }
  }

  /** The text of a pair, grouped the way it is read. */
  lemma FieldText(st: Style, f: Field, rest: string)
    ensures PrintField(st, f) + rest ==
            ['"'] + (Escape(st.ascii, f.key) + "\"" + ([':'] + (st.keyPad + (Print(st, f.value) + rest))))
  {
  }

  lemma {:induction false} ReadPrintedField(st: Style, f: Field, rest: string)
    requires WellFormed(f.value) && Delimited(rest)
    ensures ReadField(PrintField(st, f) + rest) == Got(f, rest)
    decreases f, 0
  {
    var v := Print(st, f.value) + rest;
    ReadPrinted(st, f.value, rest);
    PrintStart(st, f.value);
    assert v[0] == Print(st, f.value)[0];
    SkipPad(st.keyPad, v);
    var afterKey := [':'] + (st.keyPad + v);
    ReadKey(st, f, afterKey, v);
    FieldText(st, f, rest);
  }

  lemma ReadKey(st: Style, f: Field, afterKey: string, v: string)
    requires afterKey == [':'] + (st.keyPad + v) && SkipWs(st.keyPad + v) == v
    ensures ReadField(['"'] + (Escape(st.ascii, f.key) + "\"" + afterKey)) ==
            var r := ReadValue(v);
            if r.Fail? then Fail else Got(Field(f.key, r.value), r.rest)
  {
    var t := Escape(st.ascii, f.key) + "\"" + afterKey;
    var s := ['"'] + t;
    assert s[1..] == t;
    ReadQuoted(st.ascii, f.key, afterKey);
    assert SkipWs(afterKey) == afterKey && afterKey[1..] == st.keyPad + v;
  }

  lemma FieldsStart(st: Style, fields: seq<Field>)
    requires fields != []
    ensures var s := PrintFields(st, fields); s != [] && s[0] == '"'
  {
    assert PrintField(st, fields[0])[0] == '"' by {
      FieldText(st, fields[0], "");
    }
  }

  lemma LastField(s: string, f: Field, rest: string)
    requires ReadField(s) == Got(f, ['}'] + rest)
    ensures ReadFields(s) == Got([f], rest)
  {
    assert SkipWs(['}'] + rest) == ['}'] + rest && (['}'] + rest)[1..] == rest;
  }

  lemma NextField(s: string, f: Field, pad: string, more: string, fs: seq<Field>, rest: string)
    requires ReadField(s) == Got(f, [','] + (pad + more))
    requires SkipWs(pad + more) == more && ReadFields(more) == Got(fs, rest)
    ensures ReadFields(s) == Got([f] + fs, rest)
  {
    var tail := [','] + (pad + more);
    assert SkipWs(tail) == tail && tail[1..] == pad + more;
  }

  lemma FieldsText(st: Style, fields: seq<Field>, rest: string)
    requires fields != []
    ensures PrintFields(st, fields) + "}" + rest ==
            PrintField(st, fields[0]) +
            if |fields| == 1 then ['}'] + rest else [','] + (st.itemPad + (PrintFields(st, fields[1..]) + "}" + rest))
  {
    hide PrintField;
  }

  lemma FieldsMore(st: Style, fields: seq<Field>, rest: string)
    requires fields != []
    ensures var more := PrintFields(st, fields) + "}" + rest; SkipWs(st.itemPad + more) == more
  {
    hide PrintFields, SkipWs;
    FieldsStart(st, fields);
    var more := PrintFields(st, fields) + "}" + rest;
    assert more[0] == PrintFields(st, fields)[0];
    SkipPad(st.itemPad, more);
  }

  lemma {:induction false} ReadPrintedFields(st: Style, fields: seq<Field>, rest: string)
    requires fields != [] && forall i :: 0 <= i < |fields| ==> WellFormed(fields[i].value)
    ensures ReadFields(PrintFields(st, fields) + "}" + rest) == Got(fields, rest)
    decreases fields, 0
  {
    hide PrintField, PrintFields, ReadFields, SkipWs, ReadValue, WellFormed;
    var s := PrintFields(st, fields) + "}" + rest;
    FieldsText(st, fields, rest);
    HeadAndTail(fields);
    if |fields| == 1 {
      ReadPrintedField(st, fields[0], ['}'] + rest);
      LastField(s, fields[0], rest);
    } else {
      var more := PrintFields(st, fields[1..]) + "}" + rest;
      ReadPrintedField(st, fields[0], [','] + (st.itemPad + more));
      FieldsMore(st, fields[1..], rest);
      ReadPrintedFields(st, fields[1..], rest);
      NextField(s, fields[0], st.itemPad, more, fields[1..], rest);
    }
  }

  lemma {:induction false} PutFresh(fs: seq<Field>, f: Field)
    requires forall i :: 0 <= i < |fs| ==> fs[i].key != f.key
    ensures Put(fs, f) == fs + [f]
  {
    if fs != [] {
      PutFresh(fs[1..], f);
      assert fs == [fs[0]] + fs[1..];
    }
  }

  lemma {:induction false} DictOfDistinct(fs: seq<Field>)
    requires DistinctKeys(fs)
    ensures DictOf(fs) == fs
  {
    if fs != [] {
      var init := fs[..|fs| - 1];
      DictOfDistinct(init);
      PutFresh(init, fs[|fs| - 1]);
      assert fs == init + [fs[|fs| - 1]];
    }
  }

  /** `json.loads(json.dumps(t)) == t`, whatever the separators and `ensure_ascii`. */
  lemma LoadsPrinted(st: Style, t: Json)
    requires WellFormed(t)
    ensures Loads(Print(st, t)) == Some(t)
  {
    hide Print, ReadValue, WellFormed, IsWs;
    PrintStart(st, t);
    assert !IsWs(Print(st, t)[0]) by { StartNotWs(st, t); }
    assert Print(st, t) + "" == Print(st, t);
    ReadPrinted(st, t, "");
  }

  lemma StartNotWs(st: Style, t: Json)
    ensures Print(st, t) != [] && !IsWs(Print(st, t)[0])
  {
    hide Print;
    PrintStart(st, t);
  }

  /** Two well-formed trees with the same text are the same tree, even when printed in two styles. */
  lemma PrintInjective(st: Style, t: Json, st': Style, t': Json)
    requires WellFormed(t) && WellFormed(t')
    requires Print(st, t) == Print(st', t')
    ensures t == t'
  {
    LoadsPrinted(st, t);
    LoadsPrinted(st', t');
  }

  // ── Which characters a printed tree has ──────────────────────────────────

  /** No control character, and with `ensure_ascii` nothing beyond `~`. */
  predicate Visible(ascii: bool, s: string) {
    forall i :: 0 <= i < |s| ==> ' ' <= s[i] && (ascii ==> s[i] <= '~')
  }

  predicate VisiblePads(st: Style) {
    Visible(st.ascii, st.itemPad) && Visible(st.ascii, st.keyPad)
  }

  lemma {:induction false} EscapeVisible(ascii: bool, s: string)
    ensures Visible(ascii, Escape(ascii, s))
  {
    if s != [] {
      EscapeVisible(ascii, s[1..]);
      assert Visible(ascii, EscapeChar(ascii, s[0]));
    }
  }

  lemma Framed(ascii: bool, a: char, s: string, b: char)
    requires Visible(ascii, s) && ' ' <= a <= '~' && ' ' <= b <= '~'
    ensures Visible(ascii, [a] + s + [b])
  {
  }

  lemma NumberVisible(ascii: bool, s: string)
    requires IsIntText(s) || IsFloatText(s)
    ensures Visible(ascii, s)
  {
    if IsIntText(s) {
      IntTextChars(s);
    }
  }

  lemma {:induction false} PrintVisible(st: Style, t: Json)
    requires VisiblePads(st)
    ensures Visible(st.ascii, Print(st, t))
    decreases t, 1
  {
    match t
    case JInt(n) => NumberVisible(st.ascii, IntText(n));
    case JFloat(repr) => NumberVisible(st.ascii, repr);
    case JStr(s) =>
      EscapeVisible(st.ascii, s);
      Framed(st.ascii, '"', Escape(st.ascii, s), '"');
    case JArr(items) =>
      hide Visible;
      PrintItemsVisible(st, items);
      Framed(st.ascii, '[', PrintItems(st, items), ']');
    case JObj(fields) =>
      hide Visible;
      PrintFieldsVisible(st, fields);
      Framed(st.ascii, '{', PrintFields(st, fields), '}');
    case _ =>
  }

  lemma {:induction false} PrintItemsVisible(st: Style, items: seq<Json>)
    requires VisiblePads(st)
    ensures Visible(st.ascii, PrintItems(st, items))
    decreases items, 0
  {
    if items != [] {
      PrintVisible(st, items[0]);
      PrintItemsVisible(st, items[1..]);
    }
  }

  lemma PrintFieldVisible(st: Style, f: Field)
    requires VisiblePads(st)
    ensures Visible(st.ascii, PrintField(st, f))
    decreases f, 0
  {
    EscapeVisible(st.ascii, f.key);
    PrintVisible(st, f.value);
  }

  lemma {:induction false} PrintFieldsVisible(st: Style, fields: seq<Field>)
    requires VisiblePads(st)
    ensures Visible(st.ascii, PrintFields(st, fields))
    decreases fields, 0
  {
    hide PrintField;
    if fields != [] {
      PrintFieldVisible(st, fields[0]);
      PrintFieldsVisible(st, fields[1..]);
    }
  }

  // ── Any spelling of a string ─────────────────────────────────────────────

  /** One character as a string literal may spell it. */
  datatype Piece = Plain(c: char) | Short(letter: char) | Code(hex: string) | Pair(high: string, low: string)

  const ESCAPES := "\"\\/nrtbf"

  predicate IsHex4(s: string) {
    |s| == 4 && HexValue(s[0]).Some? && HexValue(s[1]).Some? && HexValue(s[2]).Some? && HexValue(s[3]).Some?
  }

  function Hex4Value(s: string): nat
    requires IsHex4(s)
  {
    ((HexValue(s[0]).value * 16 + HexValue(s[1]).value) * 16 + HexValue(s[2]).value) * 16 + HexValue(s[3]).value
  }

  /** Neither a quote, a backslash nor a control character may stand for itself, and a surrogate comes in a pair. */
  predicate WellSpelled(p: Piece) {
    match p
    case Plain(c) => c >= ' ' && c != '"' && c != '\\'
    case Short(letter) => letter in ESCAPES
    case Code(hex) => IsHex4(hex) && !(0xd800 <= Hex4Value(hex) < 0xe000)
    case Pair(high, low) =>
      IsHex4(high) && IsHex4(low) && 0xd800 <= Hex4Value(high) < 0xdc00 <= Hex4Value(low) < 0xe000
  }

  function Spelling(p: Piece): string {
    match p
    case Plain(c) => [c]
    case Short(letter) => ['\\', letter]
    case Code(hex) => ['\\', 'u'] + hex
    case Pair(high, low) => ['\\', 'u'] + high + ['\\', 'u'] + low
  }

  /** The character that is spelled. */
  function Spelled(p: Piece): char
    requires WellSpelled(p)
  {
    match p
    case Plain(c) => c
    case Short(letter) =>
      if letter == 'n' then '\n' else if letter == 'r' then '\r' else if letter == 't' then '\t'
      else if letter == 'b' then 8 as char else if letter == 'f' then 12 as char else letter
    case Code(hex) => Hex4Value(hex) as char
    case Pair(high, low) =>
      (0x10000 + (Hex4Value(high) - 0xd800) * 0x400 + (Hex4Value(low) - 0xdc00)) as char
  }

  function Spellings(ps: seq<Piece>): string {
    if ps == [] then "" else Spelling(ps[0]) + Spellings(ps[1..])
  }

  function AllSpelled(ps: seq<Piece>): string
    requires forall i :: 0 <= i < |ps| ==> WellSpelled(ps[i])
  {
    if ps == [] then "" else [Spelled(ps[0])] + AllSpelled(ps[1..])
  }

  lemma ReadHexText(hex: string, rest: string)
    requires IsHex4(hex)
    ensures ReadHex4(hex + rest) == Got(Hex4Value(hex), rest) && Hex4Value(hex) < 0x10000
  {
    assert (hex + rest)[4..] == rest;
    assert forall i :: 0 <= i < 4 ==> (hex + rest)[i] == hex[i];
  }

  lemma ReadPiece(p: Piece, rest: string)
    requires WellSpelled(p) && !p.Plain?
    ensures ReadEscape((Spelling(p) + rest)[1..]) == Got(Spelled(p), rest)
  {
    hide ReadHex4, HexValue;
    var s := (Spelling(p) + rest)[1..];
    match p
    case Short(letter) => assert s[1..] == rest;
    case Code(hex) =>
      assert s[1..] == hex + rest;
      ReadHexText(hex, rest);
    case Pair(high, low) =>
      var tail := ['\\', 'u'] + (low + rest);
      assert s[1..] == high + tail;
      ReadHexText(high, tail);
      assert tail[2..] == low + rest;
      ReadHexText(low, rest);
  }

  /** Every spelling of a string is read as that string, and reading goes on after the closing quote. */
  lemma {:induction false} SpellingRead(ps: seq<Piece>, rest: string)
    requires forall i :: 0 <= i < |ps| ==> WellSpelled(ps[i])
    ensures ReadString(Spellings(ps) + "\"" + rest) == Got(AllSpelled(ps), rest)
  {
    hide ReadEscape, Spelled, WellSpelled;
    if ps == [] {
      assert Spellings(ps) + "\"" + rest == "\"" + rest && ("\"" + rest)[1..] == rest;
    } else {
      var tail := Spellings(ps[1..]) + "\"" + rest;
      SpellingRead(ps[1..], rest);
      assert Spellings(ps) + "\"" + rest == Spelling(ps[0]) + tail;
      OnePieceRead(ps[0], tail);
    }
  }

  lemma OnePieceRead(p: Piece, tail: string)
    requires WellSpelled(p) && ReadString(tail).Got?
    ensures ReadString(Spelling(p) + tail) == Got([Spelled(p)] + ReadString(tail).value, ReadString(tail).rest)
  {
    hide ReadEscape, ReadString;
    if p.Plain? {
      ReadPlain(p.c, tail);
    } else {
      ReadPiece(p, tail);
      ReadEscaped(Spelling(p) + tail, Spelled(p), tail);
    }
  }

  lemma ShortIsPiece(s: string)
    requires ReadEscape(s).Got? && s[0] != 'u'
    ensures var p := Short(s[0]);
            WellSpelled(p) && ['\\'] + s == Spelling(p) + ReadEscape(s).rest && ReadEscape(s).value == Spelled(p)
  {
    assert ['\\'] + s == ['\\', s[0]] + s[1..];
  }

  /** What reading a `u` escape comes to, in terms of its digits. */
  lemma CodeSteps(s: string)
    requires ReadEscape(s).Got? && s[0] == 'u'
    ensures var h := ReadHex4(s[1..]);
            && h.Got?
            && (!(0xd800 <= h.value < 0xe000) ==> ReadEscape(s) == Got(h.value as char, h.rest))
            && (0xd800 <= h.value < 0xe000 ==>
                  && h.value < 0xdc00 && |h.rest| >= 2 && h.rest[..2] == ['\\', 'u']
                  && var l := ReadHex4(h.rest[2..]);
                     && l.Got? && 0xdc00 <= l.value < 0xe000
                     && ReadEscape(s) ==
                        Got((0x10000 + (h.value - 0xd800) * 0x400 + (l.value - 0xdc00)) as char, l.rest))
  {
    hide ReadHex4;
    HexTextOf(s[1..]);
  }

  lemma CodeIsPiece(s: string) returns (p: Piece)
    requires ReadEscape(s).Got? && s[0] == 'u'
    ensures WellSpelled(p) && !p.Plain? && ['\\'] + s == Spelling(p) + ReadEscape(s).rest
    ensures ReadEscape(s).value == Spelled(p)
  {
    CodeSteps(s);
    hide ReadEscape, ReadHex4, HexValue, IsHex4, Hex4Value;
    HexTextOf(s[1..]);
    var high, t := s[1..][..4], s[1..][4..];
    assert s == ['u'] + (high + t);
    if !(0xd800 <= Hex4Value(high) < 0xe000) {
      p := Code(high);
      assert ['\\'] + s == (['\\', 'u'] + high) + t;
    } else {
      HexTextOf(t[2..]);
      var low, rest := t[2..][..4], t[2..][4..];
      p := Pair(high, low);
      assert t == ['\\', 'u'] + (low + rest);
      assert ['\\'] + s == (['\\', 'u'] + high + ['\\', 'u'] + low) + rest;
    }
  }

  /** The piece an escape was read from. */
  lemma EscapeIsPiece(s: string) returns (p: Piece)
    requires ReadEscape(s).Got?
    ensures WellSpelled(p) && !p.Plain? && ['\\'] + s == Spelling(p) + ReadEscape(s).rest
    ensures ReadEscape(s).value == Spelled(p)
  {
    hide ReadEscape, WellSpelled, Spelled, Spelling;
    if s[0] != 'u' {
      p := Short(s[0]);
      ShortIsPiece(s);
    } else {
      p := CodeIsPiece(s);
    }
  }

  lemma HexTextOf(s: string)
    ensures ReadHex4(s).Got? ==>
              IsHex4(s[..4]) && ReadHex4(s) == Got(Hex4Value(s[..4]), s[4..]) && Hex4Value(s[..4]) < 0x10000
  {
  }

  /** And nothing else is: what is read as a string is a spelling of it and a closing quote. */
  lemma {:induction false} OnlySpellingsRead(s: string) returns (ps: seq<Piece>)
    requires ReadString(s).Got?
    ensures forall i :: 0 <= i < |ps| ==> WellSpelled(ps[i])
    ensures s == Spellings(ps) + "\"" + ReadString(s).rest && ReadString(s).value == AllSpelled(ps)
    decreases |s|
  {
    hide ReadEscape, Spelled, Spelling, WellSpelled;
    if s[0] == '"' {
      ps := [];
      assert s == "" + "\"" + s[1..];
    } else if s[0] == '\\' {
      var rest := ReadEscape(s[1..]).rest;
      var p := EscapeIsPiece(s[1..]);
      var more := OnlySpellingsRead(rest);
      ps := [p] + more;
      assert ps[1..] == more && s == ['\\'] + s[1..];
      JoinPiece(p, more, rest, ReadString(rest).rest);
    } else {
      var more := OnlySpellingsRead(s[1..]);
      ps := [Plain(s[0])] + more;
      PlainPiece(s[0]);
      assert ps[1..] == more && s == [s[0]] + s[1..];
      JoinPiece(Plain(s[0]), more, s[1..], ReadString(s[1..]).rest);
    }
  }

  lemma PlainPiece(c: char)
    requires c >= ' ' && c != '"' && c != '\\'
    ensures WellSpelled(Plain(c)) && Spelling(Plain(c)) == [c] && Spelled(Plain(c)) == c
  {
  }

  lemma JoinPiece(p: Piece, more: seq<Piece>, tail: string, rest: string)
    requires tail == Spellings(more) + "\"" + rest
    ensures Spelling(p) + tail == Spellings([p] + more) + "\"" + rest
  {
    assert ([p] + more)[1..] == more;
    assert Spelling(p) + (Spellings(more) + "\"" + rest) == Spelling(p) + Spellings(more) + "\"" + rest;
  }
}
