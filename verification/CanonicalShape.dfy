/** What a canonical text looks like, character by character: no whitespace outside a string literal, and no escape
    that could be left out. */
module CanonicalShape {
  import opened PyStrings
  import opened Json
  import opened CanonicalJson
  import opened Scanner

  // ── Spacing and escapes ──────────────────────────────────────────────────

  /** What may stand after a backslash: the one short form JSON has for a character that needs one, or the four
      lower-case digits of another control character. Neither `/` nor a printable character is ever escaped. */
  predicate NeededEscape(s: string) {
    && s != []
    && (|| s[0] in "\"\\nrtbf"
        || (|s| >= 5 && s[..4] == "u000" && s[4] in "01234567bef")
        || (|s| >= 5 && s[..4] == "u001" && s[4] in "0123456789abcdef"))
  }

  /** Read from `q` on, whitespace occurs in string literals only, and escapes only where one is needed. */
  predicate Tight(q: Scan, s: string) {
    && (forall i :: 0 <= i < |s| && IsWs(s[i]) ==> Reads(q, s[..i]).inString)
    && (forall i :: 0 <= i < |s| && Reads(q, s[..i]).escaped ==> NeededEscape(s[i..]))
  }

  lemma NeededLonger(a: string, b: string)
    requires NeededEscape(a)
    ensures NeededEscape(a + b)
  {
    if |a| >= 5 {
      assert (a + b)[..4] == a[..4];
    }
  }

  lemma TightConcat(q: Scan, a: string, b: string)
    requires Tight(q, a) && Tight(Reads(q, a), b)
    ensures Tight(q, a + b)
  {
    hide NeededEscape, IsWs;
    var s := a + b;
    forall i | 0 <= i < |s|
      ensures IsWs(s[i]) ==> Reads(q, s[..i]).inString
      ensures Reads(q, s[..i]).escaped ==> NeededEscape(s[i..])
    {
      if i < |a| {
        assert s[..i] == a[..i] && s[i..] == a[i..] + b;
        if NeededEscape(a[i..]) {
          NeededLonger(a[i..], b);
        }
      } else {
        assert s[..i] == a + b[..i - |a|] && s[i..] == b[i - |a|..];
        ReadsConcat(q, a, b[..i - |a|]);
      }
    }
  }

  /** A text that leaves the scanner where it found it can be put before another. */
  lemma TightAfterKept(q: Scan, a: string, b: string)
    requires Keeps(q, a) && Tight(q, a) && Tight(q, b)
    ensures Tight(q, a + b)
  {
    hide Tight;
    TightConcat(q, a, b);
  }

  lemma TightChar(q: Scan, c: char)
    requires !q.escaped && (IsWs(c) ==> q.inString)
    ensures Tight(q, [c])
  {
    assert [c][..0] == [];
  }

  /** Outside a literal, text without whitespace, quotes and backslashes. */
  lemma {:induction false} TightPlain(d: int, s: string)
    requires forall i :: 0 <= i < |s| ==> !IsWs(s[i]) && s[i] != '"' && s[i] != '\\' && s[i] != '{' && s[i] != '}'
    ensures Tight(Scan(d, false, false), s)
  {
    forall i | 0 <= i < |s|
      ensures !Reads(Scan(d, false, false), s[..i]).escaped
    {
      PlainKeeps(Scan(d, false, false), s[..i]);
    }
  }

  lemma HexLow(c: char)
    requires c as int < 0x20
    ensures var h := Hex4(c as int);
            && h[..2] == "00" && h[3] in "0123456789abcdef"
            && (if c as int < 0x10 then h[2] == '0' else h[2] == '1')
            && (c as int in {8, 9, 10, 12, 13} <==> h[2] == '0' && h[3] in "89acd")
  {
    var n := c as int;
    assert n / 4096 == 0 && n / 256 % 16 == 0 && n / 16 % 16 == n / 16;
    assert HexDigit(0) == '0' && HexDigit(1) == '1';
    LowDigit(n % 16);
    assert n >= 0x10 ==> n % 16 == n - 16;
  }

  lemma LowDigit(d: nat)
    requires d < 16
    ensures HexDigit(d) == "0123456789abcdef"[d]
  {
  }

  /** While a `u` escape is read, only its `u` is escaped. */
  lemma UnicodeReads(q: Scan, h: string, i: nat)
    requires q.inString && !q.escaped && i < 2 + |h|
    requires forall j :: 0 <= j < |h| ==> h[j] != '"' && h[j] != '\\' && h[j] != '{' && h[j] != '}'
    ensures Reads(q, (['\\', 'u'] + h)[..i]).escaped <==> i == 1
  {
    var e := ['\\', 'u'] + h;
    if i >= 2 {
      EscapePairKeeps(q, 'u');
      assert e[..i] == ['\\', 'u'] + h[..i - 2];
      ReadsConcat(q, ['\\', 'u'], h[..i - 2]);
      PlainKeeps(q, h[..i - 2]);
    } else {
      assert ['\\'][..0] == [] && e[..1] == ['\\'] && e[..0] == [];
    }
  }

  lemma NeededHex(h: string)
    requires |h| == 4 && h[..2] == "00" && h[3] in "0123456789abcdef"
    requires h[2] == '1' || (h[2] == '0' && h[3] !in "89acd")
    ensures NeededEscape(['u'] + h)
  {
    var s := ['u'] + h;
    assert s[..4] == ['u'] + h[..2] + [h[2]];
    assert s[4] == h[3];
  }

  lemma HexNoWs(h: string)
    requires |h| == 4 && h[..2] == "00" && (h[2] == '0' || h[2] == '1') && h[3] in "0123456789abcdef"
    ensures forall i :: 0 <= i < 6 ==> !IsWs((['\\', 'u'] + h)[i])
  {
    assert h[0] == h[..2][0] && h[1] == h[..2][1];
  }

  /** A control character without a short form is escaped by its number. */
  lemma TightUnicode(q: Scan, c: char)
    requires q.inString && !q.escaped && c as int < 0x20 && c as int !in {8, 9, 10, 12, 13}
    ensures Tight(q, UnicodeEscape(c))
  {
    hide NeededEscape, Reads, HexDigit, IsWs;
    var h := Hex4(c as int);
    var e := ['\\', 'u'] + h;
    HexLow(c);
    NeededHex(h);
    HexNoWs(h);
    assert e[1..] == ['u'] + h;
    forall i | 0 <= i < |e|
      ensures Reads(q, e[..i]).escaped <==> i == 1
    {
      UnicodeReads(q, h, i);
    }
  }

  lemma TightPair(q: Scan, c: char)
    requires q.inString && !q.escaped && c in "\"\\nrtbf"
    ensures Tight(q, ['\\', c])
  {
    var s := ['\\', c];
    assert s[..0] == [] && s[..1] == ['\\'];
    assert ['\\'][..0] == [];
  }

  lemma TightEscapeChar(q: Scan, c: char)
    requires q.inString && !q.escaped
    ensures Tight(q, EscapeChar(false, c))
  {
    hide Tight;
    var e := EscapeChar(false, c);
    if e == [c] {
      TightChar(q, c);
    } else if |e| == 2 {
      TightPair(q, e[1]);
      assert e == ['\\', e[1]];
    } else {
      TightUnicode(q, c);
    }
  }

  lemma {:induction false} TightEscape(q: Scan, s: string)
    requires q.inString && !q.escaped
    ensures Tight(q, Escape(false, s))
  {
    hide EscapeChar, Keeps;
    if s != [] {
      TightEscapeChar(q, s[0]);
      EscapeCharKeeps(q, false, s[0]);
      TightEscape(q, s[1..]);
      TightAfterKept(q, EscapeChar(false, s[0]), Escape(false, s[1..]));
    }
  }

  /** A bracketed body, read in the state the bracket leads to. */
  lemma TightWrapped(q: Scan, a: char, body: string, b: char, inner: Scan)
    requires !q.escaped && !inner.escaped && Step(q, a) == inner && !IsWs(a) && !IsWs(b)
    requires Keeps(inner, body) && Tight(inner, body)
    ensures Tight(q, [a] + body + [b])
  {
    hide Tight;
    assert Reads(q, [a]) == inner by {
      assert [a][..0] == [];
    }
    TightChar(q, a);
    TightConcat(q, [a], body);
    ReadsConcat(q, [a], body);
    TightChar(inner, b);
    TightConcat(q, [a] + body, [b]);
  }

  lemma TightQuote(d: int, s: string)
    ensures Tight(Scan(d, false, false), Quote(false, s))
  {
    hide Tight, Keeps;
    var q := Scan(d, false, false);
    EscapeKeeps(q.(inString := true), false, s);
    TightEscape(q.(inString := true), s);
    TightWrapped(q, '"', Escape(false, s), '"', q.(inString := true));
  }

  /** Two texts with a comma or colon and nothing else between them. */
  lemma TightJoined(q: Scan, a: string, sep: char, b: string)
    requires !q.escaped && !q.inString && (sep == ',' || sep == ':')
    requires Keeps(q, a) && Tight(q, a) && Tight(q, b)
    ensures Tight(q, a + [sep] + "" + b)
  {
    hide Tight;
    PlainKeeps(q, [sep]);
    TightChar(q, sep);
    TightAfterKept(q, [sep], b);
    TightAfterKept(q, a, [sep] + b);
    assert a + [sep] + "" + b == a + ([sep] + b);
  }

  /** Nothing after the separators, and no escape of printable characters. */
  predicate Unpadded(st: Style) { st.itemPad == "" && st.keyPad == "" && !st.ascii }

  lemma {:induction false} TightPrint(d: int, st: Style, t: Json)
    requires Unpadded(st)
    ensures Tight(Scan(d, false, false), Print(st, t))
    decreases t, 1
  {
    hide Tight, Keeps;
    var q := Scan(d, false, false);
    match t
    case JNull => TightPlain(d, "null");
    case JBool(b) => TightPlain(d, Print(st, t));
    case JInt(n) =>
      IntTextChars(IntText(n));
      TightPlain(d, IntText(n));
    case JFloat(repr) => TightPlain(d, repr);
    case JStr(s) => TightQuote(d, s);
    case JArr(items) =>
      PrintItemsKeeps(d, st, items);
      TightItems(d, st, items);
      TightWrapped(q, '[', PrintItems(st, items), ']', q);
    case JObj(fields) =>
      PrintFieldsKeeps(d + 1, st, fields);
      TightFields(d + 1, st, fields);
      TightWrapped(q, '{', PrintFields(st, fields), '}', Scan(d + 1, false, false));
  }

  lemma {:induction false} TightItems(d: int, st: Style, items: seq<Json>)
    requires Unpadded(st)
    ensures Tight(Scan(d, false, false), PrintItems(st, items))
    decreases items, 0
  {
    hide Tight, Keeps;
    if items == [] {
      TightPlain(d, "");
    } else {
      TightPrint(d, st, items[0]);
      if |items| > 1 {
        TightItems(d, st, items[1..]);
        PrintKeeps(d, st, items[0]);
        TightJoined(Scan(d, false, false), Print(st, items[0]), ',', PrintItems(st, items[1..]));
      }
    }
  }

  lemma {:induction false} TightField(d: int, st: Style, f: Field)
    requires Unpadded(st)
    ensures Tight(Scan(d, false, false), PrintField(st, f))
    decreases f, 0
  {
    hide Tight, Keeps;
    TightQuote(d, f.key);
    QuoteKeeps(d, false, f.key);
    TightPrint(d, st, f.value);
    TightJoined(Scan(d, false, false), Quote(false, f.key), ':', Print(st, f.value));
  }

  lemma {:induction false} TightFields(d: int, st: Style, fields: seq<Field>)
    requires Unpadded(st)
    ensures Tight(Scan(d, false, false), PrintFields(st, fields))
    decreases fields, 0
  {
    hide Tight, Keeps;
    if fields == [] {
      TightPlain(d, "");
    } else {
      TightField(d, st, fields[0]);
      if |fields| > 1 {
        TightFields(d, st, fields[1..]);
        PrintFieldKeeps(d, st, fields[0]);
        TightJoined(Scan(d, false, false), PrintField(st, fields[0]), ',', PrintFields(st, fields[1..]));
      }
    }
  }

  /** The text a hash is taken over has no whitespace outside its string literals, and in them every character
      stands as itself unless JSON forces an escape. */
  lemma CanonicalTextTight(v: Py)
    ensures var text := CanonicalText(v);
            && (forall i :: 0 <= i < |text| && IsWs(text[i]) ==> Reads(START, text[..i]).inString)
            && (forall i :: 0 <= i < |text| && Reads(START, text[..i]).escaped ==> NeededEscape(text[i..]))
  {
    TightPrint(0, COMPACT, SortTree(Canonicalise(v)));
  }

  /** A string that needs no escape is written between quotes as it is. */
  lemma PlainString(s: string)
    requires forall i :: 0 <= i < |s| ==> s[i] >= ' ' && s[i] != '"' && s[i] != '\\'
    ensures CanonicalText(PStr(s)) == "\"" + s + "\""
  {
    EscapesNothing(s);
  }

  lemma {:induction false} EscapesNothing(s: string)
    requires forall i :: 0 <= i < |s| ==> s[i] >= ' ' && s[i] != '"' && s[i] != '\\'
    ensures Escape(false, s) == s
  {
    if s != [] {
      EscapesNothing(s[1..]);
      assert s == [s[0]] + s[1..];
    }
  }
}
