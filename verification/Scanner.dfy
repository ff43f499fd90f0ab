/** `graph._extract_balanced_json`: the string-aware brace scanner that lifts a JSON object
    out of a model's prose. */
module Scanner {
  import opened PyStrings
  import opened Json

  /** Scanner state: brace depth, inside a string literal, right after a backslash in one. */
  datatype Scan = Scan(depth: int, inString: bool, escaped: bool)

  const START := Scan(0, false, false)

  function Step(q: Scan, ch: char): Scan {
    if q.inString then
      if q.escaped then q.(escaped := false)
      else if ch == '\\' then q.(escaped := true)
      else if ch == '"' then q.(inString := false)
      else q
    else if ch == '"' then q.(inString := true)
    else if ch == '{' then q.(depth := q.depth + 1)
    else if ch == '}' then q.(depth := q.depth - 1)
    else q
  }

  /** The state after reading all of `s`. */
  function Reads(q: Scan, s: string): Scan {
    if s == [] then q else Step(Reads(q, s[..|s| - 1]), s[|s| - 1])
  }

  /** As many closing as opening braces, counting only braces outside string literals,
      and not inside a literal at the end. */
  predicate Balanced(s: string) {
    var q := Reads(START, s);
    q.depth == 0 && !q.inString
  }

  /** `text[start..stop]` is the shortest non-empty balanced substring that starts there. */
  predicate ShortestBalanced(text: string, start: nat, stop: nat)
  {
    && start < stop <= |text|
    && Balanced(text[start..stop])
    && forall k :: start < k < stop ==> !Balanced(text[start..k])
  }

  lemma ReadsOneMore(q: Scan, text: string, i: nat, j: nat)
    requires i <= j < |text|
    ensures Reads(q, text[i..j + 1]) == Step(Reads(q, text[i..j]), text[j])
  {
    assert text[i..j + 1][..j - i] == text[i..j];
  }

  /** Where the first `{` at or after `start` is, or the end of the text. */
  function OpenBrace(text: string, start: nat): (i: nat)
    requires start <= |text|
    ensures start <= i <= |text|
  {
    start + Find(text[start..], '{')
  }

  /** The shortest balanced substring beginning at the first `{` at or after `start`. */
  ghost function Extract(text: string, start: nat): Option<string>
    requires start <= |text|
  {
    var open := OpenBrace(text, start);
    if exists stop: nat :: ShortestBalanced(text, open, stop) then
      var stop: nat :| ShortestBalanced(text, open, stop);
      Some(text[open..stop])
    else None
  }

  /** The shortest one is unique, so what `Extract` finds is determined. */
  lemma ExtractIs(text: string, start: nat, stop: nat)
    requires start <= |text|
    requires ShortestBalanced(text, OpenBrace(text, start), stop)
    ensures Extract(text, start) == Some(text[OpenBrace(text, start)..stop])
  {
    var open := OpenBrace(text, start);
    forall other: nat | ShortestBalanced(text, open, other)
      ensures other == stop
    {
      assert Balanced(text[open..stop]) && Balanced(text[open..other]);
    }
  }

  /** The scanner returns the shortest string-aware balanced substring beginning at the first
      `{` at or after `start`, and None exactly when there is none. */
  method ExtractBalanced(text: string, start: nat) returns (r: Option<string>)
    requires start <= |text|
    ensures r == Extract(text, start)
  {
    var open := OpenBrace(text, start);
    if open == |text| {
      return None;
    }
    assert text[open] == text[start..][open - start];
    var depth, inString, escaped := 0, false, false;
    var i := open;
    while i < |text|
      invariant open <= i <= |text|
      invariant Reads(START, text[open..i]) == Scan(depth, inString, escaped)
      invariant i == open ==> depth == 0 && !inString
      invariant i > open ==> depth >= 1
      invariant forall k :: open < k <= i ==> !Balanced(text[open..k])
    {
      var ch := text[i];
      ReadsOneMore(START, text, open, i);
      if inString {
        if escaped {
          escaped := false;
        } else if ch == '\\' {
          escaped := true;
        } else if ch == '"' {
          inString := false;
        }
      } else if ch == '"' {
        inString := true;
      } else if ch == '{' {
        depth := depth + 1;
      } else if ch == '}' {
        depth := depth - 1;
        if depth == 0 {
          ExtractIs(text, start, i + 1);
          return Some(text[open..i + 1]);
        }
      }
      i := i + 1;
    }
    return None;
  }

  // ── Printed values are transparent to the scanner ────────────────────────

  lemma {:induction false} ReadsConcat(q: Scan, a: string, b: string)
    ensures Reads(q, a + b) == Reads(Reads(q, a), b)
  {
    if b == [] {
      assert a + b == a;
    } else {
      var n := |b| - 1;
      ReadsConcat(q, a, b[..n]);
      assert (a + b)[..|a + b| - 1] == a + b[..n];
    }
  }

  /** Reading `s` from `q` ends in `q` and never dips below its depth on the way. */
  predicate Keeps(q: Scan, s: string) {
    && Reads(q, s) == q
    && forall k :: 0 <= k <= |s| ==> Reads(q, s[..k]).depth >= q.depth
  }

  lemma KeepsConcat(q: Scan, a: string, b: string)
    requires Keeps(q, a) && Keeps(q, b)
    ensures Keeps(q, a + b)
  {
    ReadsConcat(q, a, b);
    forall k | 0 <= k <= |a + b|
      ensures Reads(q, (a + b)[..k]).depth >= q.depth
    {
      if k <= |a| {
        assert (a + b)[..k] == a[..k];
      } else {
        assert (a + b)[..k] == a + b[..k - |a|];
        ReadsConcat(q, a, b[..k - |a|]);
      }
    }
  }

  lemma {:induction false} PlainKeeps(q: Scan, s: string)
    requires !q.escaped
    requires forall i :: 0 <= i < |s| ==> s[i] != '"' && s[i] != '\\' && s[i] != '{' && s[i] != '}'
    ensures Keeps(q, s)
  {
    if s != [] {
      var n := |s| - 1;
      PlainKeeps(q, s[..n]);
      forall k | 0 <= k <= |s|
        ensures Reads(q, s[..k]).depth >= q.depth
      {
        if k <= n {
          assert s[..n][..k] == s[..k];
        } else {
          assert s[..k] == s;
        }
      }
    }
  }

  lemma EscapePairKeeps(q: Scan, c: char)
    requires q.inString && !q.escaped
    ensures Keeps(q, ['\\', c])
  {
    var s := ['\\', c];
    assert s[..0] == [] && s[..1] == ['\\'] && s[..2] == s;
    assert ['\\'][..0] == [];
    assert Reads(q, ['\\']) == q.(escaped := true);
  }

  lemma UnicodeEscapeKeeps(q: Scan, c: char)
    requires q.inString && !q.escaped
    ensures Keeps(q, UnicodeEscape(c))
  {
    var n := c as int;
    EscapePairKeeps(q, 'u');
    if n < 0x10000 {
      PlainKeeps(q, Hex4(n));
      KeepsConcat(q, ['\\', 'u'], Hex4(n));
    } else {
      var hi, lo := 0xd800 + (n - 0x10000) / 0x400, 0xdc00 + (n - 0x10000) % 0x400;
      PlainKeeps(q, Hex4(hi));
      PlainKeeps(q, Hex4(lo));
      KeepsConcat(q, ['\\', 'u'], Hex4(hi));
      KeepsConcat(q, ['\\', 'u'], Hex4(lo));
      KeepsConcat(q, ['\\', 'u'] + Hex4(hi), ['\\', 'u'] + Hex4(lo));
    }
  }

  lemma EscapeCharKeeps(q: Scan, ascii: bool, c: char)
    requires q.inString && !q.escaped
    ensures Keeps(q, EscapeChar(ascii, c))
  {
    var e := EscapeChar(ascii, c);
    if e == [c] {
      OneCharKeeps(q, c);
    } else if e == UnicodeEscape(c) {
      UnicodeEscapeKeeps(q, c);
    } else {
      EscapePairKeeps(q, e[1]);
      assert e == ['\\', e[1]];
    }
  }

  /** The body of a printed string literal leaves a scanner that is inside it inside it. */
  lemma {:induction false} EscapeKeeps(q: Scan, ascii: bool, s: string)
    requires q.inString && !q.escaped
    ensures Keeps(q, Escape(ascii, s))
  {
    if s == [] {
      PlainKeeps(q, []);
    } else {
      EscapeCharKeeps(q, ascii, s[0]);
      EscapeKeeps(q, ascii, s[1..]);
      KeepsConcat(q, EscapeChar(ascii, s[0]), Escape(ascii, s[1..]));
    }
  }

  lemma OneCharKeeps(q: Scan, c: char)
    requires q.inString && !q.escaped && c != '"' && c != '\\'
    ensures Keeps(q, [c])
  {
    assert [c][..0] == [] && [c][..1] == [c];
  }

  lemma QuoteKeeps(d: int, ascii: bool, s: string)
    ensures Keeps(Scan(d, false, false), Quote(ascii, s))
  {
    var q, body := Scan(d, false, false), Escape(ascii, s);
    EscapeKeeps(q.(inString := true), ascii, s);
    assert Reads(q, "\"") == q.(inString := true) by {
      assert "\""[..0] == "";
    }
    WrapKeeps(q, '"', body, '"', q.(inString := true));
  }

  /** A bracketed body: `a` moves from `q` to `inner`, the body keeps `inner`, `b` moves back. */
  lemma WrapKeeps(q: Scan, a: char, body: string, b: char, inner: Scan)
    requires Step(q, a) == inner && inner.depth >= q.depth && Keeps(inner, body) && Step(inner, b) == q
    ensures Keeps(q, [a] + body + [b])
    ensures forall k :: 0 < k <= |body| + 1 ==> Reads(q, ([a] + body + [b])[..k]).depth >= inner.depth
  {
    var s := [a] + body + [b];
    assert [a][..0] == [];
    assert Reads(q, [a]) == inner;
    forall k | 0 < k <= |body| + 1
      ensures Reads(q, s[..k]).depth >= inner.depth
    {
      assert s[..k] == [a] + body[..k - 1];
      ReadsConcat(q, [a], body[..k - 1]);
    }
    ReadsConcat(q, [a], body);
    assert s[..|s| - 1] == [a] + body;
    assert s[..|s|] == s && s[..0] == [];
  }

  lemma SeparatedKeeps(q: Scan, a: string, sep: string, pad: string, b: string)
    requires !q.escaped && Keeps(q, a) && Keeps(q, b) && AllWs(pad) && (sep == "," || sep == ":")
    ensures Keeps(q, a + sep + pad + b)
  {
    PlainKeeps(q, sep);
    PlainKeeps(q, pad);
    KeepsConcat(q, a, sep);
    KeepsConcat(q, a + sep, pad);
    KeepsConcat(q, a + sep + pad, b);
  }

  /** A printed value leaves the scanner exactly where it found it. */
  lemma {:induction false} PrintKeeps(d: int, st: Style, t: Json)
    ensures Keeps(Scan(d, false, false), Print(st, t))
    decreases t, 1
  {
    var q := Scan(d, false, false);
    match t
    case JNull => PlainKeeps(q, "null");
    case JBool(b) => PlainKeeps(q, Print(st, t));
    case JInt(n) =>
      IntTextChars(IntText(n));
      PlainKeeps(q, IntText(n));
    case JFloat(repr) => PlainKeeps(q, repr);
    case JStr(s) => QuoteKeeps(d, st.ascii, s);
    case JArr(items) =>
      PrintItemsKeeps(d, st, items);
      WrapKeeps(q, '[', PrintItems(st, items), ']', q);
    case JObj(fields) =>
      PrintFieldsKeeps(d + 1, st, fields);
      WrapKeeps(q, '{', PrintFields(st, fields), '}', Scan(d + 1, false, false));
  }

  lemma {:induction false} PrintItemsKeeps(d: int, st: Style, items: seq<Json>)
    ensures Keeps(Scan(d, false, false), PrintItems(st, items))
    decreases items, 0
  {
    var q := Scan(d, false, false);
    if items == [] {
      PlainKeeps(q, "");
    } else {
      PrintKeeps(d, st, items[0]);
      if |items| > 1 {
        PrintItemsKeeps(d, st, items[1..]);
        SeparatedKeeps(q, Print(st, items[0]), ",", st.itemPad, PrintItems(st, items[1..]));
      }
    }
  }

  lemma {:induction false} PrintFieldKeeps(d: int, st: Style, f: Field)
    ensures Keeps(Scan(d, false, false), PrintField(st, f))
    decreases f, 0
  {
    var q := Scan(d, false, false);
    QuoteKeeps(d, st.ascii, f.key);
    PrintKeeps(d, st, f.value);
    SeparatedKeeps(q, Quote(st.ascii, f.key), ":", st.keyPad, Print(st, f.value));
  }

  lemma {:induction false} PrintFieldsKeeps(d: int, st: Style, fields: seq<Field>)
    ensures Keeps(Scan(d, false, false), PrintFields(st, fields))
    decreases fields, 0
  {
    var q := Scan(d, false, false);
    if fields == [] {
      PlainKeeps(q, "");
    } else {
      PrintFieldKeeps(d, st, fields[0]);
      if |fields| > 1 {
        PrintFieldsKeeps(d, st, fields[1..]);
        SeparatedKeeps(q, PrintField(st, fields[0]), ",", st.itemPad, PrintFields(st, fields[1..]));
      }
    }
  }

  /** A braced body that keeps the scanner is found whole behind any prefix without `{`. */
  lemma ExtractBody(prefix: string, body: string, suffix: string)
    requires '{' !in prefix && Keeps(Scan(1, false, false), body)
    ensures var obj := ['{'] + body + ['}']; Extract(prefix + obj + suffix, 0) == Some(obj)
  {
    hide Keeps, Reads, Extract;
    var obj := ['{'] + body + ['}'];
    var text := prefix + obj + suffix;
    var open, stop := |prefix|, |prefix| + |obj|;
    WrapKeeps(START, '{', body, '}', Scan(1, false, false));
    assert text == prefix + ['{'] + (body + ['}'] + suffix);
    FindAt(prefix, '{', body + ['}'] + suffix);
    assert text[0..] == text;
    forall k | open < k < stop
      ensures !Balanced(text[open..k])
    {
      assert text[open..k] == obj[..k - open];
      assert Reads(START, obj[..k - open]).depth >= 1;
    }
    assert text[open..stop] == obj;
    KeptIsBalanced(obj);
    ExtractIs(text, 0, stop);
  }

  lemma KeptIsBalanced(s: string)
    requires Keeps(START, s)
    ensures Balanced(s)
  {
  }

  /** Scanner undoes printer: a JSON object printed in any style comes back whole from any
      surrounding prose whose part before it has no `{`. */
  lemma ExtractPrinted(st: Style, fields: seq<Field>, prefix: string, suffix: string)
    requires '{' !in prefix
    ensures Extract(prefix + Print(st, JObj(fields)) + suffix, 0) == Some(Print(st, JObj(fields)))
  {
    hide Extract, Keeps, PrintFields;
    var body := PrintFields(st, fields);
    assert Print(st, JObj(fields)) == ['{'] + body + ['}'];
    PrintFieldsKeeps(1, st, fields);
    ExtractBody(prefix, body, suffix);
  }
}
