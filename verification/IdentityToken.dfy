/** `internal_identity.py`: signed identity assertions `payload.mac`, minted and verified. The MAC is
    an arbitrary function of the payload; times are real numbers. */
module IdentityToken {
  import opened PyNumbers
  import opened PyStrings
  import opened Json
  import opened JsonLaws
  import opened Base64Url

  const CLOCK_SKEW: real := 30.0
  const MAX_TOKEN_CHARS: nat := 4096

  /** The calls whose inside is not modelled: HMAC-SHA256 under the configured secret, the text
      `json.loads` reads bytes as, and the value of a float. */
  datatype Library = Library(digest: string -> seq<Byte>, text: seq<Byte> -> Option<string>, float: FloatText -> real)

  predicate AsciiText(s: string) { Visible(true, s) }

  /** The bytes of an ASCII text. */
  function Bytes(s: string): seq<Byte>
    requires AsciiText(s)
  {
    seq(|s|, i requires 0 <= i < |s| => s[i] as int)
  }

  /** The digest is 32 bytes, and printable ASCII bytes are read as the text they spell. */
  ghost predicate Sound(lib: Library) {
    && (forall p :: |lib.digest(p)| == 32)
    && (forall s :: AsciiText(s) ==> lib.text(Bytes(s)) == Some(s))
  }

  datatype Refusal =
    | NoToken | TooLarge | Malformed | BadSignature | Unreadable | NotAnObject
    | NoExpiry | Expired | NoIssueTime | IssuedInFuture | NoSubject

  /** `Overflow` is the OverflowError that `float` of a huge int raises. */
  datatype Verdict<T> = Accept(value: T) | Refuse(why: Refusal) | Overflow

  function Mac(lib: Library, payload: string): string {
    Encode(lib.digest(payload))
  }

  function PayloadOf(claims: seq<Field>): string {
    PrintVisible(COMPACT_ASCII, JObj(claims));
    Encode(Bytes(Print(COMPACT_ASCII, JObj(claims))))
  }

  /** `_sign` on claims listed in key order. */
  function Sign(lib: Library, claims: seq<Field>): string {
    var payload := PayloadOf(claims);
    payload + ['.'] + Mac(lib, payload)
  }

  predicate IsNumber(v: Option<Json>) { v.Some? && (v.value.JInt? || v.value.JFloat?) }

  predicate TooLargeClaim(v: Option<Json>) { v.Some? && v.value.JInt? && TooLargeForFloat(v.value.n) }

  function Moment(lib: Library, v: Option<Json>): real
    requires IsNumber(v)
  {
    if v.value.JInt? then v.value.n as real else lib.float(v.value.repr)
  }

  /** `_require_b64url` */
  predicate IsSegment(s: string) { s != "" && AllInAlphabet(s) }

  /** The claims in a payload segment. */
  function ReadClaims(lib: Library, payload: string): Verdict<seq<Field>> {
    var bytes := Decode(payload);
    var text := if bytes.None? then None else lib.text(bytes.value);
    var tree := if text.None? then None else Loads(text.value);
    if tree.None? then Refuse(Unreadable)
    else if !tree.value.JObj? then Refuse(NotAnObject)
    else Accept(tree.value.fields)
  }

  /** The time window of `_verify`. */
  function CheckWindow(lib: Library, claims: seq<Field>, now: real): Verdict<seq<Field>> {
    var exp, iat := Get(claims, "exp"), Get(claims, "iat");
    if !IsNumber(exp) then Refuse(NoExpiry)
    else if TooLargeClaim(exp) then Overflow
    else if now > Moment(lib, exp) + CLOCK_SKEW then Refuse(Expired)
    else if !IsNumber(iat) then Refuse(NoIssueTime)
    else if TooLargeClaim(iat) then Overflow
    else if Moment(lib, iat) > now + CLOCK_SKEW then Refuse(IssuedInFuture)
    else Accept(claims)
  }

  /** The two segments of a token, if it has exactly two and both are base64url. */
  function Segments(token: string): Option<(string, string)> {
    var parts := Split(token, '.');
    if |parts| != 2 || !IsSegment(parts[0]) || !IsSegment(parts[1]) then None else Some((parts[0], parts[1]))
  }

  /** `_verify` */
  function Verify(lib: Library, token: Option<string>, now: real): Verdict<seq<Field>> {
    if token.None? || Strip(token.value) == "" then Refuse(NoToken)
    else
      var t := Strip(token.value);
      if |t| > MAX_TOKEN_CHARS then Refuse(TooLarge)
      else
        var parts := Segments(t);
        if parts.None? then Refuse(Malformed)
        else if Mac(lib, parts.value.0) != parts.value.1 then Refuse(BadSignature)
        else
          var claims := ReadClaims(lib, parts.value.0);
          if claims.Accept? then CheckWindow(lib, claims.value, now) else claims
  }

  /** `verify_identity_token` */
  function VerifyIdentity(lib: Library, token: Option<string>, now: real): Verdict<string> {
    match Verify(lib, token, now)
    case Refuse(why) => Refuse(why)
    case Overflow => Overflow
    case Accept(claims) =>
      var sub := Get(claims, "sub");
      if sub.None? || !sub.value.JStr? || Strip(sub.value.s) == "" then Refuse(NoSubject)
      else Accept(Strip(sub.value.s))
  }

  function IdentityClaims(uid: string, issued: Json, expires: Json): seq<Field> {
    [Field("exp", expires), Field("iat", issued), Field("sub", JStr(uid))]
  }

  /** `sign_identity` with an integer clock; None is the refusal of an empty user id. */
  function SignIdentity(lib: Library, userId: string, now: int, ttl: int): Option<string> {
    if Strip(userId) == "" then None
    else Some(Sign(lib, IdentityClaims(Strip(userId), JInt(now), JInt(now + ttl))))
  }

  // ── A minted token verifies ──────────────────────────────────────────────

  lemma NoDotInAlphabet(s: string)
    requires AllInAlphabet(s)
    ensures '.' !in s
  {
  }

  lemma AlphabetNotSpace(c: char)
    requires InAlphabet(c)
    ensures !IsSpace(c)
  {
  }

  lemma SegmentsBack(p: string, m: string)
    requires IsSegment(p) && IsSegment(m)
    ensures var t := p + ['.'] + m; Strip(t) == t && Segments(t) == Some((p, m))
  {
    hide InAlphabet, IsSpace;
    var t := p + ['.'] + m;
    AlphabetNotSpace(p[0]);
    AlphabetNotSpace(m[|m| - 1]);
    StripTrimmed(t, IsSpace);
    NoDotInAlphabet(p);
    NoDotInAlphabet(m);
    SplitStep(p, '.', m);
    SplitStep(m, '.', "");
  }

  lemma PayloadIsSegment(claims: seq<Field>)
    ensures IsSegment(PayloadOf(claims))
  {
    PrintVisible(COMPACT_ASCII, JObj(claims));
    var text := Print(COMPACT_ASCII, JObj(claims));
    EncodeInAlphabet(Bytes(text));
    assert text[0] == '{';
  }

  lemma ReadSigned(lib: Library, claims: seq<Field>)
    requires Sound(lib) && WellFormed(JObj(claims))
    ensures ReadClaims(lib, PayloadOf(claims)) == Accept(claims)
  {
    PrintVisible(COMPACT_ASCII, JObj(claims));
    hide Encode, Decode, Print, Loads, Visible;
    var text := Print(COMPACT_ASCII, JObj(claims));
    DecodeEncode(Bytes(text));
    LoadsPrinted(COMPACT_ASCII, JObj(claims));
  }

  /** A token signed by `_sign` passes every check but size and time. */
  lemma SignedVerifies(lib: Library, claims: seq<Field>, now: real)
    requires Sound(lib) && WellFormed(JObj(claims))
    ensures var token := Sign(lib, claims);
            Verify(lib, Some(token), now) ==
            if |token| > MAX_TOKEN_CHARS then Refuse(TooLarge) else CheckWindow(lib, claims, now)
  {
    hide CheckWindow, ReadClaims, Encode, PayloadOf, Segments, Strip, IsSegment;
    var p := PayloadOf(claims);
    PayloadIsSegment(claims);
    MacIsSegment(lib, p);
    SegmentsBack(p, Mac(lib, p));
    ReadSigned(lib, claims);
  }

  lemma MacIsSegment(lib: Library, p: string)
    requires Sound(lib)
    ensures IsSegment(Mac(lib, p))
  {
    hide Encode;
    EncodeInAlphabet(lib.digest(p));
    assert |lib.digest(p)| == 32;
  }

  lemma ClaimsRead(uid: string, issued: Json, expires: Json)
    ensures var c := IdentityClaims(uid, issued, expires);
            Get(c, "exp") == Some(expires) && Get(c, "iat") == Some(issued) && Get(c, "sub") == Some(JStr(uid))
  {
    var c := IdentityClaims(uid, issued, expires);
    KeysDiffer();
    assert c[1..] == [c[1], c[2]] && c[1..][1..] == [c[2]];
    assert Get([c[2]], "sub") == Some(c[2].value);
    assert Get(c[1..], "sub") == Get([c[2]], "sub");
  }

  lemma KeysDiffer()
    ensures "exp" != "iat" && "exp" != "sub" && "iat" != "sub"
  {
    assert "exp"[0] == 'e' && "iat"[0] == 'i' && "sub"[0] == 's';
  }

  lemma ClaimsWellFormed(uid: string, issued: Json, expires: Json)
    requires IsNumber(Some(issued)) && IsNumber(Some(expires))
    ensures WellFormed(JObj(IdentityClaims(uid, issued, expires)))
  {
    KeysDiffer();
    var c := IdentityClaims(uid, issued, expires);
    assert WellFormed(c[0].value) && WellFormed(c[1].value) && WellFormed(c[2].value);
  }

  /** An assertion for `uid` with these issue and expiry times: what verifying it at `now` says,
      for every `now`. */
  lemma AssertionVerifies(lib: Library, uid: string, issued: Json, expires: Json, now: real)
    requires Sound(lib) && IsNumber(Some(issued)) && IsNumber(Some(expires))
    requires !TooLargeClaim(Some(issued)) && !TooLargeClaim(Some(expires))
    requires Strip(uid) != ""
    ensures var token := Sign(lib, IdentityClaims(uid, issued, expires));
            VerifyIdentity(lib, Some(token), now) ==
            if |token| > MAX_TOKEN_CHARS then Refuse(TooLarge)
            else if now > Moment(lib, Some(expires)) + CLOCK_SKEW then Refuse(Expired)
            else if now < Moment(lib, Some(issued)) - CLOCK_SKEW then Refuse(IssuedInFuture)
            else Accept(Strip(uid))
  {
    hide Verify, Sign, Strip, Get, TooLargeClaim, Moment;
    var claims := IdentityClaims(uid, issued, expires);
    ClaimsWellFormed(uid, issued, expires);
    SignedVerifies(lib, claims, now);
    ClaimsRead(uid, issued, expires);
  }

  /** A token minted at `t` with lifetime `ttl`, within the size cap, verifies at `now` exactly from
      30 seconds before `t` to 30 seconds after `t + ttl`, and yields the stripped user id. */
  lemma MintedVerifies(lib: Library, userId: string, t: int, ttl: int, now: real)
    requires Sound(lib) && SignIdentity(lib, userId, t, ttl).Some?
    requires !TooLargeForFloat(t) && !TooLargeForFloat(t + ttl)
    requires |SignIdentity(lib, userId, t, ttl).value| <= MAX_TOKEN_CHARS
    ensures var v := VerifyIdentity(lib, SignIdentity(lib, userId, t, ttl), now);
            && (v == Accept(Strip(userId)) <==> t as real - 30.0 <= now <= (t + ttl) as real + 30.0)
            && (v.Accept? <==> v == Accept(Strip(userId)))
  {
    hide VerifyIdentity, Sign, StripIf, TooLargeForFloat;
    StripIfTrimmed(userId, IsSpace);
    StripTrimmed(Strip(userId), IsSpace);
    AssertionVerifies(lib, Strip(userId), JInt(t), JInt(t + ttl), now);
  }

  /** An accepted token is a payload with its own MAC, read inside its window, so among tokens with
      one payload at most one is accepted. */
  lemma AcceptedIsAuthentic(lib: Library, token: string, now: real)
    requires Verify(lib, Some(token), now).Accept?
    ensures exists payload ::
              && IsSegment(payload) && Strip(token) == payload + ['.'] + Mac(lib, payload)
              && ReadClaims(lib, payload) == Verify(lib, Some(token), now)
    ensures var claims := Verify(lib, Some(token), now).value;
            && IsNumber(Get(claims, "exp")) && IsNumber(Get(claims, "iat"))
            && Moment(lib, Get(claims, "iat")) - CLOCK_SKEW <= now <= Moment(lib, Get(claims, "exp")) + CLOCK_SKEW
  {
    hide ReadClaims, Mac, Strip, Get, IsSegment, Split;
    var t := Strip(token);
    TwoParts(t, '.');
    var payload := Split(t, '.')[0];
    assert t == payload + ['.'] + Mac(lib, payload);
  }

  lemma TwoParts(s: string, c: char)
    ensures |Split(s, c)| == 2 ==> s == Split(s, c)[0] + [c] + Split(s, c)[1]
  {
    var i := Find(s, c);
    if i < |s| {
      var rest := s[i + 1..];
      assert s == s[..i] + [c] + rest;
      var j := Find(rest, c);
      if j < |rest| {
        assert |Split(rest, c)| >= 2;
      }
    }
  }

  // ── Every refusal ────────────────────────────────────────────────────────

  /** Two base64url segments with a dot between them. */
  predicate TwoSegments(t: string, p: string, m: string) { t == p + ['.'] + m && IsSegment(p) && IsSegment(m) }

  lemma SegmentsIff(t: string)
    ensures Segments(t).Some? <==> exists p, m :: TwoSegments(t, p, m)
    ensures forall p, m :: TwoSegments(t, p, m) ==> Segments(t) == Some((p, m))
  {
    hide Split, IsSegment, Strip;
    TwoParts(t, '.');
    forall p, m | TwoSegments(t, p, m)
      ensures Segments(t) == Some((p, m))
    {
      SegmentsBack(p, m);
    }
    if Segments(t).Some? {
      assert TwoSegments(t, Split(t, '.')[0], Split(t, '.')[1]);
    }
  }

  /** What a token is refused for before its claims are read, in this order: for being blank, for having more
      than 4096 characters without the blanks around it, for not being two segments, for another signature. */
  lemma RefusedUnread(lib: Library, token: string, t: string, now: real)
    requires IsCore(t, token)
    ensures var v := Verify(lib, Some(token), now);
            if t == "" then v == Refuse(NoToken)
            else if |t| > 4096 then v == Refuse(TooLarge)
            else if !exists p, m :: TwoSegments(t, p, m) then v == Refuse(Malformed)
            else forall p, m :: TwoSegments(t, p, m) ==>
              if m != Mac(lib, p) then v == Refuse(BadSignature)
              else v == ClaimsVerdict(lib, p, now)
    ensures Verify(lib, None, now) == Refuse(NoToken)
  {
    hide Segments, Strip, Mac, ReadClaims, CheckWindow, TwoSegments;
    CoreIsStrip(t, token);
    SegmentsIff(t);
  }

  /** The verdict on a payload whose signature fits. */
  function ClaimsVerdict(lib: Library, payload: string, now: real): Verdict<seq<Field>> {
    var claims := ReadClaims(lib, payload);
    if claims.Accept? then CheckWindow(lib, claims.value, now) else claims
  }

  /** What the payload is: unreadable unless it decodes to the text of some JSON value, and no claims unless that
      is an object. */
  lemma PayloadMeans(lib: Library, payload: string)
    ensures ReadClaims(lib, payload) != Refuse(Unreadable) <==> exists t :: PayloadSays(lib, payload, t)
    ensures forall t :: PayloadSays(lib, payload, t) ==>
              ReadClaims(lib, payload) == if t.JObj? then Accept(t.fields) else Refuse(NotAnObject)
  {
    hide Decode, Loads;
    var bytes := Decode(payload);
    if bytes.Some? && lib.text(bytes.value).Some? && Loads(lib.text(bytes.value).value).Some? {
      assert PayloadSays(lib, payload, Loads(lib.text(bytes.value).value).value);
    }
  }

  predicate PayloadSays(lib: Library, payload: string, t: Json) {
    var bytes := Decode(payload);
    bytes.Some? && lib.text(bytes.value).Some? && Loads(lib.text(bytes.value).value) == Some(t)
  }

  /** A claim that is a time: an int a float can hold, or a float. */
  predicate IsMoment(lib: Library, v: Option<Json>, at: real) {
    IsNumber(v) && !TooLargeClaim(v) && at == Moment(lib, v)
  }

  /** The window: both claims are checked to be numbers, the expiry first; then the clock may be at most 30
      seconds past the expiry and 30 seconds short of the issue time. */
  lemma WindowMeans(lib: Library, claims: seq<Field>, now: real)
    ensures var exp, iat, v := Get(claims, "exp"), Get(claims, "iat"), CheckWindow(lib, claims, now);
            && (!IsNumber(exp) ==> v == Refuse(NoExpiry))
            && (TooLargeClaim(exp) ==> v == Overflow)
            && forall e :: IsMoment(lib, exp, e) ==>
                 && (now > e + 30.0 ==> v == Refuse(Expired))
                 && (now <= e + 30.0 && !IsNumber(iat) ==> v == Refuse(NoIssueTime))
                 && (now <= e + 30.0 && TooLargeClaim(iat) ==> v == Overflow)
                 && forall i :: IsMoment(lib, iat, i) && now <= e + 30.0 ==>
                      v == if now < i - 30.0 then Refuse(IssuedInFuture) else Accept(claims)
  {
    hide Get;
  }

  /** The user id: the text under `sub` without its blanks, if there is anything else in it. */
  lemma SubjectMeans(lib: Library, token: Option<string>, now: real)
    ensures var v, id := Verify(lib, token, now), VerifyIdentity(lib, token, now);
            && (v.Refuse? ==> id == Refuse(v.why)) && (v.Overflow? ==> id.Overflow?)
            && (v.Accept? ==>
                  var sub := Get(v.value, "sub");
                  && (forall t :: sub.Some? && sub.value.JStr? && IsCore(t, sub.value.s) && t != "" ==> id == Accept(t))
                  && (!(sub.Some? && sub.value.JStr? && !AllBlank(sub.value.s)) ==> id == Refuse(NoSubject)))
  {
    hide Verify, Get, StripIf, IsCore;
    var v := Verify(lib, token, now);
    if v.Accept? && Get(v.value, "sub").Some? && Get(v.value, "sub").value.JStr? {
      var s := Get(v.value, "sub").value.s;
      BlankIff(s);
      forall t | IsCore(t, s)
        ensures t == Strip(s)
      {
        CoreIsStrip(t, s);
      }
    }
  }
}
