/** `debate.parse_stance` / `stance_to_dict` and `graph._extract_stance_payload`: a debate
    role's structured output, and why it survives being printed into prose and read back. */
module Stance {
  import opened PyNumbers
  import opened PyStrings
  import opened Json
  import opened JsonLaws
  import opened Scanner

  const STRENGTH_MIN: int := 0
  const STRENGTH_MAX: int := 100
  const DEFAULT_LEAN := "neutral"

  predicate IsLean(s: string) {
    s == "long" || s == "short" || s == "neutral"
  }

  datatype DebateStance = DebateStance(
    role: string, lean: string, strength: int, arguments: seq<string>, biggestRisk: string, available: bool)

  /** What a role hands over: a dict, a text, or anything that is neither. */
  datatype Raw = Mapping(fields: seq<Field>) | Text(s: string) | Other

  /** A double, as far as clamping can tell. */
  datatype Double = Finite(r: real) | NaN | PosInf | NegInf

  /** What is not spelled out of the interpreter: `float(text)`, None when it raises ValueError; `str(x)` of
      a JSON value that is not a string; on which texts `json.loads` runs out of stack (RecursionError); and
      which contain an integer with more digits than it converts (ValueError). */
  datatype Library = Library(
    float: string -> Option<Double>, str: Json -> string, tooDeep: string -> bool, tooLong: string -> bool)

  /** A tree that nests at most `depth` deep, its integers no longer than the least one no double holds. */
  predicate Within(t: Json, depth: nat) {
    match t
    case JInt(n) => -FLOAT_OVERFLOW <= n <= FLOAT_OVERFLOW
    case JArr(items) => depth > 0 && forall i :: 0 <= i < |items| ==> Within(items[i], depth - 1)
    case JObj(fields) => depth > 0 && forall i :: 0 <= i < |fields| ==> Within(fields[i].value, depth - 1)
    case _ => true
  }

  /** The interpreter's limits, thousands of levels and digits, are far beyond such a tree of depth two. */
  ghost predicate Roomy(lib: Library) {
    forall st: Style, t :: WellFormed(t) && Within(t, 2) ==> !lib.tooDeep(Print(st, t)) && !lib.tooLong(Print(st, t))
  }

  /** `_coerce_to_mapping`, where reading a text does not run out of stack. */
  function ToMapping(lib: Library, raw: Raw): Option<seq<Field>> {
    match raw
    case Mapping(fields) => Some(fields)
    case Text(s) =>
      var parsed := if Strip(s) == "" || lib.tooLong(Strip(s)) then None else Loads(Strip(s));
      if parsed.Some? && parsed.value.JObj? then Some(parsed.value.fields) else None
    case Other => None
  }

  /** Reading the text runs out of stack, which `_coerce_to_mapping` does not catch. */
  predicate RunsOut(lib: Library, raw: Raw) {
    raw.Text? && Strip(raw.s) != "" && lib.tooDeep(Strip(raw.s))
  }

  function CoerceLean(v: Option<Json>): (lean: string)
    ensures IsLean(lean)
  {
    if v.Some? && v.value.JStr? && IsLean(Lower(Strip(v.value.s))) then Lower(Strip(v.value.s))
    else DEFAULT_LEAN
  }

  /** `max(0.0, min(100.0, x))`, then `round`. Python's `min` keeps 100.0 against a NaN. */
  function ClampRound(d: Double): (n: int)
    ensures STRENGTH_MIN <= n <= STRENGTH_MAX
  {
    match d
    case Finite(r) => if r <= 0.0 then 0 else if r >= 100.0 then 100 else Round(r)
    case NegInf => 0
    case _ => 100
  }

  /** `_coerce_strength`; None where `float` of a huge int raises. */
  function CoerceStrength(lib: Library, v: Option<Json>): (r: Option<int>)
    ensures r.Some? ==> STRENGTH_MIN <= r.value <= STRENGTH_MAX
    ensures r.None? <==> v.Some? && v.value.JInt? && TooLargeForFloat(v.value.n)
  {
    match v
    case Some(JInt(n)) => if TooLargeForFloat(n) then None else Some(ClampRound(Finite(n as real)))
    case Some(JFloat(repr)) => Some(FromText(lib, repr))
    case Some(JStr(s)) => Some(FromText(lib, Strip(s)))
    case _ => Some(STRENGTH_MIN)
  }

  function FromText(lib: Library, s: string): (n: int)
    ensures STRENGTH_MIN <= n <= STRENGTH_MAX
  {
    var d := lib.float(s);
    if d.Some? then ClampRound(d.value) else STRENGTH_MIN
  }

  function TextOf(lib: Library, v: Json): string {
    Strip(if v.JStr? then v.s else lib.str(v))
  }

  function ArgumentTexts(lib: Library, items: seq<Json>): seq<string> {
    if items == [] then []
    else
      var init, last := items[..|items| - 1], items[|items| - 1];
      var text := TextOf(lib, last);
      if last.JNull? || text == "" then ArgumentTexts(lib, init) else ArgumentTexts(lib, init) + [text]
  }

  /** `_coerce_arguments` */
  function CoerceArguments(lib: Library, v: Option<Json>): seq<string> {
    match v
    case Some(JStr(s)) => if Strip(s) == "" then [] else [Strip(s)]
    case Some(JArr(items)) => ArgumentTexts(lib, items)
    case _ => []
  }

  /** The list branch of `_coerce_arguments`, as the loop it is. */
  method CollectArguments(lib: Library, items: seq<Json>) returns (result: seq<string>)
    ensures result == ArgumentTexts(lib, items)
    ensures |result| <= |items| && forall i :: 0 <= i < |result| ==> result[i] != "" && Trimmed(result[i], IsSpace)
  {
    result := [];
    for i := 0 to |items|
      invariant result == ArgumentTexts(lib, items[..i])
    {
      assert items[..i + 1][..i] == items[..i];
      if items[i].JNull? {
        continue;
      }
      var text := TextOf(lib, items[i]);
      if text != "" {
        result := result + [text];
      }
    }
    assert items[..|items|] == items;
    ArgumentTextsClean(lib, items);
  }

  function CoerceRisk(lib: Library, v: Option<Json>): string {
    if v.None? || v.value.JNull? then "" else TextOf(lib, v.value)
  }

  /** Is a lean or strength recognisable in the raw mapping? */
  predicate Recognised(lib: Library, fields: seq<Field>) {
    var lean, strength := Get(fields, "lean"), Get(fields, "strength");
    || (lean.Some? && lean.value.JStr? && IsLean(Lower(Strip(lean.value.s))))
    || (strength.Some? &&
        (strength.value.JInt? || strength.value.JFloat? ||
         (strength.value.JStr? && lib.float(Strip(strength.value.s)).Some?)))
  }

  /** `parse_stance`; None where it raises. */
  function ParseStance(lib: Library, role: string, raw: Raw): Option<DebateStance> {
    var roleNorm := Lower(Strip(role));
    var data := ToMapping(lib, raw);
    if RunsOut(lib, raw) then None
    else if data.None? then Some(DebateStance(roleNorm, DEFAULT_LEAN, STRENGTH_MIN, [], "", false))
    else
      var strength := CoerceStrength(lib, Get(data.value, "strength"));
      if strength.None? then None
      else
        var arguments := CoerceArguments(lib, Get(data.value, "arguments"));
        var risk := CoerceRisk(lib, Get(data.value, "biggest_risk"));
        var explicit := Get(data.value, "available");
        var available :=
          if explicit.Some? && explicit.value.JBool? then explicit.value.b
          else arguments != [] || risk != "" || Recognised(lib, data.value);
        Some(DebateStance(roleNorm, CoerceLean(Get(data.value, "lean")), strength.value, arguments, risk, available))
  }

  function Texts(ss: seq<string>): (r: seq<Json>)
    ensures |r| == |ss| && forall i :: 0 <= i < |r| ==> r[i] == JStr(ss[i])
  {
    seq(|ss|, i requires 0 <= i < |ss| => JStr(ss[i]))
  }

  /** `stance_to_dict` */
  function StanceFields(s: DebateStance): seq<Field> {
    [Field("role", JStr(s.role)),
     Field("lean", JStr(s.lean)),
     Field("strength", JInt(s.strength)),
     Field("arguments", JArr(Texts(s.arguments))),
     Field("biggest_risk", JStr(s.biggestRisk)),
     Field("available", JBool(s.available))]
  }

  /** `_extract_stance_payload` on a text: the first balanced object, or the text itself. */
  ghost function Payload(content: string): Raw {
    var found := Extract(content, 0);
    Text(if found.Some? then found.value else content)
  }

  // ── What every parsed stance satisfies ───────────────────────────────────

  predicate Normal(s: DebateStance) {
    && IsLean(s.lean)
    && STRENGTH_MIN <= s.strength <= STRENGTH_MAX
    && (forall i :: 0 <= i < |s.arguments| ==> s.arguments[i] != "" && Trimmed(s.arguments[i], IsSpace))
    && Trimmed(s.biggestRisk, IsSpace)
    && s.role == Lower(Strip(s.role))
  }

  lemma {:induction false} ArgumentTextsClean(lib: Library, items: seq<Json>)
    ensures |ArgumentTexts(lib, items)| <= |items|
    ensures forall i :: 0 <= i < |ArgumentTexts(lib, items)| ==>
              ArgumentTexts(lib, items)[i] != "" && Trimmed(ArgumentTexts(lib, items)[i], IsSpace)
  {
    if items != [] {
      var last := items[|items| - 1];
      ArgumentTextsClean(lib, items[..|items| - 1]);
      StripIfTrimmed(if last.JStr? then last.s else lib.str(last), IsSpace);
    }
  }

  lemma LowerSpace(c: char)
    ensures IsSpace(LowerChar(c)) == IsSpace(c) && LowerChar(LowerChar(c)) == LowerChar(c)
  {
  }

  lemma {:induction false} LowerAt(s: string)
    ensures forall i :: 0 <= i < |s| ==> Lower(s)[i] == LowerChar(s[i])
    ensures Lower(Lower(s)) == Lower(s)
  {
    if s != [] {
      LowerAt(s[1..]);
      LowerSpace(s[0]);
      assert Lower(s)[1..] == Lower(s[1..]);
    }
  }

  lemma RoleNormal(role: string)
    ensures var r := Lower(Strip(role)); Lower(Strip(r)) == r
  {
    var t := Strip(role);
    StripIfTrimmed(role, IsSpace);
    LowerAt(t);
    if t != [] {
      LowerSpace(t[0]);
      LowerSpace(t[|t| - 1]);
    }
    StripTrimmed(Lower(t), IsSpace);
  }

  lemma ArgumentsClean(lib: Library, v: Option<Json>)
    ensures var a := CoerceArguments(lib, v); forall i :: 0 <= i < |a| ==> a[i] != "" && Trimmed(a[i], IsSpace)
  {
    hide StripIf, Trimmed, ArgumentTexts;
    match v
    case Some(JStr(s)) => StripIfTrimmed(s, IsSpace);
    case Some(JArr(items)) => ArgumentTextsClean(lib, items);
    case _ =>
  }

  lemma RiskClean(lib: Library, v: Option<Json>)
    ensures Trimmed(CoerceRisk(lib, v), IsSpace)
  {
    hide StripIf;
    if v.Some? {
      StripIfTrimmed(if v.value.JStr? then v.value.s else lib.str(v.value), IsSpace);
    }
  }

  lemma ParsedNormal(lib: Library, role: string, raw: Raw)
    requires ParseStance(lib, role, raw).Some?
    ensures Normal(ParseStance(lib, role, raw).value)
  {
    hide StripIf, Lower, Trimmed, IsLean, CoerceLean, CoerceStrength, CoerceArguments, CoerceRisk,
      Recognised, ToMapping, RunsOut, Get;
    RoleNormal(role);
    DefaultsNormal();
    var data := ToMapping(lib, raw);
    if data.Some? {
      ArgumentsClean(lib, Get(data.value, "arguments"));
      RiskClean(lib, Get(data.value, "biggest_risk"));
    }
  }

  lemma DefaultsNormal()
    ensures IsLean(DEFAULT_LEAN) && Trimmed("", IsSpace)
  {
  }

  lemma {:induction false} TextsBack(lib: Library, ss: seq<string>)
    requires forall i :: 0 <= i < |ss| ==> ss[i] != "" && Trimmed(ss[i], IsSpace)
    ensures ArgumentTexts(lib, Texts(ss)) == ss
  {
    if ss != [] {
      var n := |ss| - 1;
      TextsBack(lib, ss[..n]);
      assert Texts(ss)[..n] == Texts(ss[..n]);
      StripTrimmed(ss[n], IsSpace);
      assert ss == ss[..n] + [ss[n]];
    }
  }

  lemma {:induction false} GetAt(fields: seq<Field>, i: nat)
    requires DistinctKeys(fields) && i < |fields|
    ensures Get(fields, fields[i].key) == Some(fields[i].value)
  {
    if i > 0 {
      assert fields[0].key != fields[i].key;
      GetAt(fields[1..], i - 1);
    }
  }

  lemma StanceKeys(s: DebateStance)
    ensures DistinctKeys(StanceFields(s))
  {
    hide Texts;
    var f := StanceFields(s);
    assert f[0].key[0] == 'r' && f[1].key[0] == 'l' && f[2].key[0] == 's';
    assert f[3].key[..2] == "ar" && f[4].key[0] == 'b' && f[5].key[..2] == "av";
  }

  lemma GetStance(s: DebateStance)
    ensures var f := StanceFields(s);
            && Get(f, "lean") == Some(JStr(s.lean))
            && Get(f, "strength") == Some(JInt(s.strength))
            && Get(f, "arguments") == Some(JArr(Texts(s.arguments)))
            && Get(f, "biggest_risk") == Some(JStr(s.biggestRisk))
            && Get(f, "available") == Some(JBool(s.available))
  {
    hide Get, Texts;
    var f := StanceFields(s);
    StanceKeys(s);
    GetAt(f, 1);
    GetAt(f, 2);
    GetAt(f, 3);
    GetAt(f, 4);
    GetAt(f, 5);
  }

  lemma StanceWellFormed(s: DebateStance)
    ensures WellFormed(JObj(StanceFields(s)))
  {
    hide DistinctKeys;
    var f := StanceFields(s);
    StanceKeys(s);
    forall i | 0 <= i < |f|
      ensures WellFormed(f[i].value)
    {
      TextsWellFormed(s.arguments);
    }
  }

  lemma TextsWellFormed(ss: seq<string>)
    ensures WellFormed(JArr(Texts(ss)))
  {
  }

  lemma {:induction false} LowerIdentity(s: string)
    requires forall i :: 0 <= i < |s| ==> LowerChar(s[i]) == s[i]
    ensures Lower(s) == s
  {
    if s != [] {
      LowerIdentity(s[1..]);
    }
  }

  lemma LeanBack(lean: string)
    requires IsLean(lean)
    ensures Lower(Strip(lean)) == lean
  {
    StripTrimmed(lean, IsSpace);
    LowerIdentity(lean);
  }

  /** `parse_stance(s.role, stance_to_dict(s)) == s` for every normalised stance. */
  lemma StanceRoundTrip(lib: Library, s: DebateStance)
    requires Normal(s)
    ensures ParseStance(lib, s.role, Mapping(StanceFields(s))) == Some(s)
  {
    hide StanceFields, CoerceLean, CoerceStrength, CoerceArguments, CoerceRisk, Recognised;
    GetStance(s);
    StanceCoerced(lib, s);
  }

  lemma StanceCoerced(lib: Library, s: DebateStance)
    requires Normal(s)
    ensures CoerceLean(Some(JStr(s.lean))) == s.lean
    ensures CoerceStrength(lib, Some(JInt(s.strength))) == Some(s.strength)
    ensures CoerceArguments(lib, Some(JArr(Texts(s.arguments)))) == s.arguments
    ensures CoerceRisk(lib, Some(JStr(s.biggestRisk))) == s.biggestRisk
  {
    hide Lower, StripIf, ArgumentTexts, Texts;
    LeanBack(s.lean);
    TextsBack(lib, s.arguments);
    StripTrimmed(s.biggestRisk, IsSpace);
    StrengthBack(s.strength);
  }

  lemma StrengthBack(n: int)
    requires STRENGTH_MIN <= n <= STRENGTH_MAX
    ensures !TooLargeForFloat(n) && ClampRound(Finite(n as real)) == n
  {
  }

  /** A stance that `parse_stance` produced, printed by `json.dumps` in any style and embedded in
      prose with no earlier `{`, is extracted and parsed back unchanged. */
  lemma StanceSurvivesProse(lib: Library, role: string, raw: Raw, st: Style, prefix: string, suffix: string)
    requires Roomy(lib) && ParseStance(lib, role, raw).Some?
    requires '{' !in prefix
    ensures var s := ParseStance(lib, role, raw).value;
            ParseStance(lib, s.role, Payload(prefix + Print(st, JObj(StanceFields(s))) + suffix)) == Some(s)
  {
    hide ParseStance, StanceFields, Extract, Roomy, Within;
    var s := ParseStance(lib, role, raw).value;
    var text := Print(st, JObj(StanceFields(s)));
    ParsedNormal(lib, role, raw);
    ExtractPrinted(st, StanceFields(s), prefix, suffix);
    StanceWellFormed(s);
    StanceWithin(s);
    PrintedMapping(lib, st, StanceFields(s));
    SameMapping(lib, s.role, Text(text), Mapping(StanceFields(s)));
    StanceRoundTrip(lib, s);
  }

  lemma StanceWithin(s: DebateStance)
    requires Normal(s)
    ensures Within(JObj(StanceFields(s)), 2)
  {
    var f := StanceFields(s);
    assert Within(f[3].value, 1) by {
      assert forall i :: 0 <= i < |s.arguments| ==> Within(Texts(s.arguments)[i], 0);
    }
    assert Within(f[2].value, 1);
  }

  /** A printed object within the interpreter's limits is read back as its fields. */
  lemma PrintedMapping(lib: Library, st: Style, fields: seq<Field>)
    requires Roomy(lib) && WellFormed(JObj(fields)) && Within(JObj(fields), 2)
    ensures var raw := Text(Print(st, JObj(fields))); ToMapping(lib, raw) == Some(fields) && !RunsOut(lib, raw)
  {
    hide Loads, StripIf, WellFormed, Within;
    var text := Print(st, JObj(fields));
    assert text[0] == '{' && text[|text| - 1] == '}';
    StripTrimmed(text, IsSpace);
    LoadsPrinted(st, JObj(fields));
  }

  lemma SameMapping(lib: Library, role: string, raw: Raw, other: Raw)
    requires ToMapping(lib, raw) == ToMapping(lib, other) && RunsOut(lib, raw) == RunsOut(lib, other)
    ensures ParseStance(lib, role, raw) == ParseStance(lib, role, other)
  {
  }

  /** `parse_stance` is documented never to raise. It does, exactly when reading the text runs out of stack or
      the payload is an object whose strength is an integer too large for a double. */
  lemma ParseStanceRaises(lib: Library, role: string, raw: Raw)
    ensures ParseStance(lib, role, raw).None? <==>
            || RunsOut(lib, raw)
            || (var data := ToMapping(lib, raw);
                && data.Some?
                && var v := Get(data.value, "strength"); v.Some? && v.value.JInt? && TooLargeForFloat(v.value.n))
  {
    hide ToMapping, RunsOut, Get, TooLargeForFloat, CoerceLean, CoerceArguments, CoerceRisk, Recognised, StripIf, Lower;
  }

  /** A text of one field that makes it raise, within the interpreter's limits. */
  lemma HugeStrengthRaises(lib: Library, role: string)
    requires Roomy(lib)
    ensures var text := Print(COMPACT, JObj([Field("strength", JInt(FLOAT_OVERFLOW))]));
            !RunsOut(lib, Text(text)) && ParseStance(lib, role, Text(text)).None?
  {
    hide Roomy, RunsOut;
    var fields := [Field("strength", JInt(FLOAT_OVERFLOW))];
    assert WellFormed(JObj(fields)) && Within(JObj(fields), 2);
    PrintedMapping(lib, COMPACT, fields);
    ParseStanceRaises(lib, role, Text(Print(COMPACT, JObj(fields))));
  }
}
