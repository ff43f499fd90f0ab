/** What each field of a parsed stance is, told from the text or mapping it was parsed from. */
module StanceLaws {
  import opened PyNumbers
  import opened PyStrings
  import opened Json
  import opened Stance

  /** The lean a value names, in any capitals and with any blanks around it. */
  ghost predicate NamesLean(v: Option<Json>, lean: string) {
    && (lean == "long" || lean == "short" || lean == "neutral")
    && v.Some? && v.value.JStr? && exists t :: IsCore(t, v.value.s) && Lower(t) == lean
  }

  lemma LeanMeans(v: Option<Json>)
    ensures forall lean :: NamesLean(v, lean) ==> CoerceLean(v) == lean
    ensures (forall lean :: !NamesLean(v, lean)) ==> CoerceLean(v) == "neutral"
    ensures (exists lean :: NamesLean(v, lean)) <==> v.Some? && v.value.JStr? && IsLean(Lower(Strip(v.value.s)))
  {
    hide StripIf, Lower, IsCore;
    if v.Some? && v.value.JStr? {
      StripIsCore(v.value.s);
      forall t | IsCore(t, v.value.s)
        ensures t == Strip(v.value.s)
      {
        CoreIsStrip(t, v.value.s);
      }
      assert IsLean(Lower(Strip(v.value.s))) ==> NamesLean(v, Lower(Strip(v.value.s)));
    }
  }

  /** `v` is read as the number `x`: an int, a float, or a text `float` takes once its blanks are gone. */
  ghost predicate ReadsNumber(lib: Library, v: Option<Json>, x: Double) {
    match v
    case Some(JInt(n)) => !TooLargeForFloat(n) && x == Finite(n as real)
    case Some(JFloat(repr)) => lib.float(repr) == Some(x)
    case Some(JStr(s)) => exists t :: IsCore(t, s) && lib.float(t) == Some(x)
    case _ => false
  }

  /** `n` is the whole number from 0 to 100 nearest to `x`, the even one of two. */
  ghost predicate NearestWhole(n: int, x: real) {
    0 <= n <= 100 && forall k :: 0 <= k <= 100 ==> AsNear(n, k, x)
  }

  /** `n` is no farther from `x` than `k`, and even if only as near. */
  predicate AsNear(n: int, k: int, x: real) {
    && Distance(n as real, x) <= Distance(k as real, x)
    && (Distance(n as real, x) == Distance(k as real, x) ==> k == n || n % 2 == 0)
  }

  /** Infinities count as the nearer end; and what is not a number as 100, which `min` keeps against it. */
  ghost predicate StrengthOf(n: int, x: Double) {
    match x
    case Finite(r) => NearestWhole(n, r)
    case NegInf => n == 0
    case PosInf => n == 100
    case NaN => n == 100
  }

  lemma ClampIsNearest(r: real)
    ensures NearestWhole(ClampRound(Finite(r)), r)
  {
    hide Round;
    forall k | 0 <= k <= 100
      ensures AsNear(ClampRound(Finite(r)), k, r)
    {
      RoundNearest(r, k);
    }
  }

  lemma ClampMeans(x: Double)
    ensures StrengthOf(ClampRound(x), x)
  {
    if x.Finite? {
      ClampIsNearest(x.r);
    }
  }

  /** A strength that is no number, an absent one or a truth value among them, counts as 0; and an int too large
      for a float raises. */
  lemma StrengthMeans(lib: Library, v: Option<Json>)
    ensures CoerceStrength(lib, v).None? <==> v.Some? && v.value.JInt? && TooLargeForFloat(v.value.n)
    ensures forall x :: ReadsNumber(lib, v, x) ==>
              CoerceStrength(lib, v).Some? && StrengthOf(CoerceStrength(lib, v).value, x)
    ensures CoerceStrength(lib, v).Some? && (forall x :: !ReadsNumber(lib, v, x)) ==> CoerceStrength(lib, v) == Some(0)
  {
    hide StripIf, ClampRound, StrengthOf, TooLargeForFloat, IsCore;
    forall x
      ensures StrengthOf(ClampRound(x), x)
    {
      ClampMeans(x);
    }
    match v
    case Some(JInt(n)) => assert !TooLargeForFloat(n) ==> ReadsNumber(lib, v, Finite(n as real));
    case Some(JFloat(repr)) => assert lib.float(repr).Some? ==> ReadsNumber(lib, v, lib.float(repr).value);
    case Some(JStr(s)) =>
      StripIsCore(s);
      forall t | IsCore(t, s)
        ensures t == Strip(s)
      {
        CoreIsStrip(t, s);
      }
      assert lib.float(Strip(s)).Some? ==> ReadsNumber(lib, v, lib.float(Strip(s)).value);
    case _ =>
  }

  /** The text of a value: itself if it is one, else its `str()`; without blanks around it. */
  ghost predicate SaysText(lib: Library, v: Json, t: string) {
    IsCore(t, if v.JStr? then v.s else lib.str(v))
  }

  lemma TextMeans(lib: Library, v: Json, t: string)
    ensures SaysText(lib, v, t) <==> t == TextOf(lib, v)
  {
    hide StripIf, IsCore;
    var s := if v.JStr? then v.s else lib.str(v);
    StripIsCore(s);
    if IsCore(t, s) {
      CoreIsStrip(t, s);
    }
  }

  /** A list is read item by item, in order. */
  lemma {:induction false} ArgumentsJoin(lib: Library, a: seq<Json>, b: seq<Json>)
    ensures ArgumentTexts(lib, a + b) == ArgumentTexts(lib, a) + ArgumentTexts(lib, b)
  {
    hide TextOf;
    if b == [] {
      assert a + b == a;
    } else {
      var n := |b| - 1;
      ArgumentsJoin(lib, a, b[..n]);
      assert (a + b)[..|a + b| - 1] == a + b[..n];
    }
  }

  /** One argument: a null and a blank one are left out. */
  lemma ArgumentMeans(lib: Library, v: Json, t: string)
    requires SaysText(lib, v, t)
    ensures ArgumentTexts(lib, [v]) == if v.JNull? || t == "" then [] else [t]
    ensures v.JStr? ==> CoerceArguments(lib, Some(v)) == if t == "" then [] else [t]
    ensures CoerceRisk(lib, Some(v)) == if v.JNull? then "" else t
  {
    hide TextOf, SaysText;
    TextMeans(lib, v, t);
    assert [v][..0] == [] && ArgumentTexts(lib, []) == [];
    if v.JStr? {
      OfString(lib, v);
    }
  }

  lemma OfString(lib: Library, v: Json)
    requires v.JStr?
    ensures TextOf(lib, v) == Strip(v.s)
  {
  }

  /** What a mapping is parsed to, field by field. It counts as available when it says so, and if it does not
      say, when there is an argument, a risk, a lean or a number in it. */
  lemma StanceMeans(lib: Library, role: string, raw: Raw, fields: seq<Field>)
    requires !RunsOut(lib, raw) && ToMapping(lib, raw) == Some(fields)
    requires CoerceStrength(lib, Get(fields, "strength")).Some?
    ensures var lean, strength, said := Get(fields, "lean"), Get(fields, "strength"), Get(fields, "available");
            var r := ParseStance(lib, role, raw);
            && r.Some?
            && var s := r.value;
            && (exists t :: IsCore(t, role) && s.role == Lower(t))
            && s.lean == CoerceLean(lean) && Some(s.strength) == CoerceStrength(lib, strength)
            && s.arguments == CoerceArguments(lib, Get(fields, "arguments"))
            && s.biggestRisk == CoerceRisk(lib, Get(fields, "biggest_risk"))
            && (said.Some? && said.value.JBool? ==> s.available == said.value.b)
            && (!(said.Some? && said.value.JBool?) ==>
                  (s.available <==>
                     || s.arguments != [] || s.biggestRisk != "" || (exists l :: NamesLean(lean, l))
                     || Numeric(lib, strength)))
  {
    hide StripIf, Lower, IsCore, CoerceLean, CoerceStrength, CoerceArguments, CoerceRisk, Get, ToMapping, RunsOut,
      NamesLean, IsLean;
    StripIsCore(role);
    LeanMeans(Get(fields, "lean"));
    NumericIff(lib, Get(fields, "strength"));
    RecognisedIff(lib, fields);
  }

  /** An int, a float, or a text `float` takes. */
  ghost predicate Numeric(lib: Library, v: Option<Json>) {
    v.Some? && (v.value.JInt? || v.value.JFloat? || exists x :: v.value.JStr? && ReadsNumber(lib, v, x))
  }

  lemma NumericIff(lib: Library, v: Option<Json>)
    ensures Numeric(lib, v) <==>
            v.Some? && (v.value.JInt? || v.value.JFloat? || (v.value.JStr? && lib.float(Strip(v.value.s)).Some?))
  {
    hide StripIf, IsCore;
    if v.Some? && v.value.JStr? {
      StripIsCore(v.value.s);
      forall t | IsCore(t, v.value.s)
        ensures t == Strip(v.value.s)
      {
        CoreIsStrip(t, v.value.s);
      }
      assert lib.float(Strip(v.value.s)).Some? ==> ReadsNumber(lib, v, lib.float(Strip(v.value.s)).value);
    }
  }

  lemma RecognisedIff(lib: Library, fields: seq<Field>)
    ensures var lean, strength := Get(fields, "lean"), Get(fields, "strength");
            Recognised(lib, fields) <==>
            || (lean.Some? && lean.value.JStr? && IsLean(Lower(Strip(lean.value.s))))
            || (strength.Some? && (strength.value.JInt? || strength.value.JFloat? ||
                 (strength.value.JStr? && lib.float(Strip(strength.value.s)).Some?)))
  {
  }

  /** What cannot be read as a mapping is the empty stance of its role, which does not count as available: a
      value that is neither mapping nor text, and a text that is blank, no JSON, or JSON other than an object. */
  lemma UnreadableMeans(lib: Library, role: string, raw: Raw)
    requires !RunsOut(lib, raw)
    requires match raw
             case Mapping(_) => false
             case Other => true
             case Text(s) =>
               AllBlank(s) || lib.tooLong(Strip(s)) || Loads(Strip(s)).None? || !Loads(Strip(s)).value.JObj?
    ensures exists t :: IsCore(t, role)
              && ParseStance(lib, role, raw) == Some(DebateStance(Lower(t), "neutral", 0, [], "", false))
  {
    hide StripIf, Lower, IsCore, Loads;
    StripIsCore(role);
    if raw.Text? {
      BlankIff(raw.s);
    }
  }
}
