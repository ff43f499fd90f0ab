/** The unpadded base64url codec of `internal_identity.py`: sections 3.2 and 5 of RFC 4648, written
    and read the way Python's `base64` module does. */
module Base64Url {
  import opened PyStrings

  type Byte = n: int | 0 <= n < 256

  /** The base64url alphabet of section 5 of RFC 4648. */
  predicate InAlphabet(c: char) {
    'A' <= c <= 'Z' || 'a' <= c <= 'z' || '0' <= c <= '9' || c == '-' || c == '_'
  }

  function Digit(n: nat): (c: char)
    requires n < 64
    ensures InAlphabet(c)
  {
    if n < 26 then ('A' as int + n) as char
    else if n < 52 then ('a' as int + n - 26) as char
    else if n < 62 then ('0' as int + n - 52) as char
    else if n == 62 then '-' else '_'
  }

  /** The value of a digit. The decoder maps `-_` to `+/` before it checks the alphabet, so the
      characters `+` and `/` pass as well. */
  function Sextet(c: char): (r: Option<nat>)
    ensures r.Some? ==> r.value < 64
    ensures r.Some? <==> InAlphabet(c) || c == '+' || c == '/'
  {
    if 'A' <= c <= 'Z' then Some(c as int - 'A' as int)
    else if 'a' <= c <= 'z' then Some(c as int - 'a' as int + 26)
    else if '0' <= c <= '9' then Some(c as int - '0' as int + 52)
    else if c == '-' || c == '+' then Some(62)
    else if c == '_' || c == '/' then Some(63)
    else None
  }

  lemma DigitValue(n: nat)
    requires n < 64
    ensures Sextet(Digit(n)) == Some(n) && Digit(n) != '='
  {
  }

  lemma DigitOfValue(c: char)
    requires InAlphabet(c)
    ensures Digit(Sextet(c).value) == c
  {
  }

  // ── Writing ──────────────────────────────────────────────────────────────

  /** `base64.urlsafe_b64encode` */
  function Padded(b: seq<Byte>): string {
    if |b| < 3 then Last(b) + Pads(|Last(b)|) else Quad(b[0], b[1], b[2]) + Padded(b[3..])
  }

  /** The digits of fewer than three bytes. */
  function Last(b: seq<Byte>): (s: string)
    requires |b| < 3
    ensures |s| == if b == [] then 0 else |b| + 1
    ensures forall i :: 0 <= i < |s| ==> InAlphabet(s[i])
  {
    if b == [] then ""
    else if |b| == 1 then [Digit(b[0] / 4), Digit(b[0] % 4 * 16)]
    else [Digit(b[0] / 4), Digit(b[0] % 4 * 16 + b[1] / 16), Digit(b[1] % 16 * 4)]
  }

  function Quad(x: Byte, y: Byte, z: Byte): (s: string)
    ensures |s| == 4 && forall i :: 0 <= i < 4 ==> InAlphabet(s[i])
  {
    [Digit(x / 4), Digit(x % 4 * 16 + y / 16), Digit(y % 16 * 4 + z / 64), Digit(z % 64)]
  }

  /** What completes a text to a multiple of four. */
  function Pads(n: nat): string {
    if n % 4 == 2 then "==" else if n % 4 == 3 then "=" else if n % 4 == 1 then "===" else ""
  }

  /** `_b64u_encode` */
  function Encode(b: seq<Byte>): string {
    RStrip(Padded(b), c => c == '=')
  }

  /** The same text, told without padding. */
  function Unpadded(b: seq<Byte>): (s: string)
    ensures forall i :: 0 <= i < |s| ==> InAlphabet(s[i])
    ensures |s| == (|b| * 4 + 2) / 3
  {
    if |b| < 3 then Last(b) else Quad(b[0], b[1], b[2]) + Unpadded(b[3..])
  }

  lemma PadsPeriodic(n: nat)
    ensures Pads(n + 4) == Pads(n)
  {
  }

  lemma {:induction false} PaddedIs(b: seq<Byte>)
    ensures Padded(b) == Unpadded(b) + Pads(|Unpadded(b)|)
  {
    hide Pads, Quad, Last;
    if |b| >= 3 {
      PaddedIs(b[3..]);
      PadsPeriodic(|Unpadded(b[3..])|);
    }
  }

  lemma {:induction false} StripRunBack(s: string, n: nat, p: char -> bool)
    requires s == "" || !p(s[|s| - 1])
    requires p('=')
    ensures RStrip(s + seq(n, i => '='), p) == s
  {
    var t := s + seq(n, i => '=');
    if n == 0 {
      assert t == s;
    } else {
      StripRunBack(s, n - 1, p);
      assert t[..|t| - 1] == s + seq(n - 1, i => '=');
    }
  }

  lemma EncodeIs(b: seq<Byte>)
    ensures Encode(b) == Unpadded(b)
  {
    var s := Unpadded(b);
    PaddedIs(b);
    var n := |Pads(|s|)|;
    assert Pads(|s|) == seq(n, i => '=');
    StripRunBack(s, n, c => c == '=');
  }

  const UPPER := "ABCDEFGHIJKLMNOPQRSTUVWXYZ"
  const LOWER := "abcdefghijklmnopqrstuvwxyz"
  const OTHERS := "0123456789-_"

  /** The alphabet of section 5 of RFC 4648, in the order of its values. */
  const ALPHABET := UPPER + LOWER + OTHERS

  function ByteAt(b: seq<Byte>, i: nat): Byte { if i < |b| then b[i] else 0 }

  /** The 24 bits of the `g`-th group of three bytes, the missing ones zero. */
  function Group(b: seq<Byte>, g: nat): nat {
    ByteAt(b, 3 * g) * 65536 + ByteAt(b, 3 * g + 1) * 256 + ByteAt(b, 3 * g + 2)
  }

  /** The `k`-th six of 24 bits, from the highest. */
  function Six(group: nat, k: nat): (v: nat)
    requires k < 4
    ensures v < 64
  {
    (if k == 0 then group / 262144 else if k == 1 then group / 4096 else if k == 2 then group / 64 else group) % 64
  }

  lemma DigitIs(n: nat)
    requires n < 64
    ensures |ALPHABET| == 64 && Digit(n) == ALPHABET[n]
  {
    if n < 26 {
      UpperAt(n);
    } else if n < 52 {
      LowerAt(n - 26);
    } else {
      OtherAt(n - 52);
    }
  }

  lemma UpperAt(n: nat)
    requires n < 26
    ensures UPPER[n] as int == 'A' as int + n
  {
  }

  lemma LowerAt(n: nat)
    requires n < 26
    ensures LOWER[n] as int == 'a' as int + n
  {
  }

  lemma OtherAt(n: nat)
    requires n < 12
    ensures OTHERS[n] == if n < 10 then ('0' as int + n) as char else if n == 10 then '-' else '_'
  {
  }

  lemma QuadSixes(x: Byte, y: Byte, z: Byte)
    ensures var n := x * 65536 + y * 256 + z;
            && Six(n, 0) == x / 4 && Six(n, 1) == x % 4 * 16 + y / 16
            && Six(n, 2) == y % 16 * 4 + z / 64 && Six(n, 3) == z % 64
  {
    hide Six;
    FirstSix(x, y, z);
    SecondSix(x, y, z);
    ThirdSix(x, y, z);
    LastSix(x, y, z);
  }

  lemma FirstSix(x: Byte, y: Byte, z: Byte)
    ensures Six(x * 65536 + y * 256 + z, 0) == x / 4
  {
  }

  lemma SecondSix(x: Byte, y: Byte, z: Byte)
    ensures Six(x * 65536 + y * 256 + z, 1) == x % 4 * 16 + y / 16
  {
    assert (x * 65536 + y * 256 + z) / 4096 == x / 4 * 64 + (x % 4 * 16 + y / 16);
  }

  lemma ThirdSix(x: Byte, y: Byte, z: Byte)
    ensures Six(x * 65536 + y * 256 + z, 2) == y % 16 * 4 + z / 64
  {
    var n, v := x * 65536 + y * 256 + z, y % 16 * 4 + z / 64;
    assert n / 64 == x * 1024 + y * 4 + z / 64;
    Lowest(x * 16 + y / 16, v);
  }

  lemma Lowest(q: nat, v: nat)
    requires v < 64
    ensures (q * 64 + v) % 64 == v
  {
  }

  lemma LastSix(x: Byte, y: Byte, z: Byte)
    ensures Six(x * 65536 + y * 256 + z, 3) == z % 64
  {
  }

  /** What the encoding is, digit by digit: the bytes are taken in groups of 24 bits, the last one filled with
      zeros, and each six bits choose a character of the alphabet. */
  lemma EncodeMeans(b: seq<Byte>, i: nat)
    requires i < |Encode(b)|
    ensures |ALPHABET| == 64 && Encode(b)[i] == ALPHABET[Six(Group(b, i / 4), i % 4)]
  {
    EncodeIs(b);
    DigitIs(Six(Group(b, i / 4), i % 4));
    UnpaddedMeans(b, i);
  }

  lemma {:induction false} UnpaddedMeans(b: seq<Byte>, i: nat)
    requires i < |Unpadded(b)|
    ensures Unpadded(b)[i] == Digit(Six(Group(b, i / 4), i % 4))
  {
    hide Six, Digit;
    if i < 4 {
      QuadSixes(ByteAt(b, 0), ByteAt(b, 1), ByteAt(b, 2));
    } else {
      UnpaddedMeans(b[3..], i - 4);
      assert (i - 4) / 4 == i / 4 - 1 && (i - 4) % 4 == i % 4;
      assert Group(b, i / 4) == Group(b[3..], i / 4 - 1);
    }
  }

  /** The encoding is within the alphabet and never empty for a non-empty input. */
  lemma EncodeInAlphabet(b: seq<Byte>)
    ensures forall i :: 0 <= i < |Encode(b)| ==> InAlphabet(Encode(b)[i])
    ensures Encode(b) == "" <==> b == []
    ensures |Encode(b)| == (|b| * 4 + 2) / 3
  {
    EncodeIs(b);
  }

  // ── Reading ──────────────────────────────────────────────────────────────

  /** Strict decoding of a padded text: groups of four digits, the last of which may end in one or
      two `=`. */
  function ReadPadded(t: string): Option<seq<Byte>> {
    if t == "" then Some([])
    else if |t| < 4 then None
    else if |t| == 4 && t[3] == '=' then ReadLast(t)
    else
      var group, rest := ReadGroup(t[0], t[1], t[2], t[3]), ReadPadded(t[4..]);
      if group.None? || rest.None? then None else Some(group.value + rest.value)
  }

  function ReadLast(t: string): Option<seq<Byte>>
    requires |t| == 4
  {
    var a, b, c := Sextet(t[0]), Sextet(t[1]), Sextet(t[2]);
    if a.None? || b.None? then None
    else if t[2] == '=' then Some([a.value * 4 + b.value / 16])
    else if c.None? then None
    else Some([a.value * 4 + b.value / 16, b.value % 16 * 16 + c.value / 4])
  }

  function ReadGroup(t0: char, t1: char, t2: char, t3: char): (r: Option<seq<Byte>>)
    ensures r.Some? ==> |r.value| == 3
  {
    var a, b, c, d := Sextet(t0), Sextet(t1), Sextet(t2), Sextet(t3);
    if a.None? || b.None? || c.None? || d.None? then None
    else Some(Triple(a.value, b.value, c.value, d.value))
  }

  function Triple(a: nat, b: nat, c: nat, d: nat): (r: seq<Byte>)
    requires a < 64 && b < 64 && c < 64 && d < 64
    ensures |r| == 3
  {
    [a * 4 + b / 16, b % 16 * 16 + c / 4, c % 4 * 64 + d]
  }

  /** `_b64u_decode` */
  function Decode(text: string): Option<seq<Byte>> {
    ReadPadded(text + Pads(|text|))
  }

  lemma QuadBack(x: Byte, y: Byte, z: Byte)
    ensures Triple(x / 4, x % 4 * 16 + y / 16, y % 16 * 4 + z / 64, z % 64) == [x, y, z]
  {
  }

  lemma ReadQuad(x: Byte, y: Byte, z: Byte)
    ensures var q := Quad(x, y, z); ReadGroup(q[0], q[1], q[2], q[3]) == Some([x, y, z]) && q[3] != '='
  {
    hide Digit, Sextet;
    DigitValue(x / 4);
    DigitValue(x % 4 * 16 + y / 16);
    DigitValue(y % 16 * 4 + z / 64);
    DigitValue(z % 64);
    QuadBack(x, y, z);
  }

  lemma ReadLastBack(b: seq<Byte>)
    requires |b| < 3
    ensures ReadPadded(Last(b) + Pads(|Last(b)|)) == Some(b)
  {
    hide Digit, Sextet;
    if |b| >= 1 {
      DigitValue(b[0] / 4);
      if |b| == 1 {
        DigitValue(b[0] % 4 * 16);
        LastOne(b[0]);
        assert Last(b) + Pads(2) == [Last(b)[0], Last(b)[1], '=', '='];
        assert b == [b[0]];
      } else {
        DigitValue(b[0] % 4 * 16 + b[1] / 16);
        DigitValue(b[1] % 16 * 4);
        LastTwo(b[0], b[1]);
        assert Last(b) + Pads(3) == [Last(b)[0], Last(b)[1], Last(b)[2], '='];
        assert b == [b[0], b[1]];
      }
    }
  }

  lemma LastOne(x: Byte)
    ensures x / 4 * 4 + x % 4 * 16 / 16 == x
  {
  }

  lemma LastTwo(x: Byte, y: Byte)
    ensures x / 4 * 4 + (x % 4 * 16 + y / 16) / 16 == x
    ensures (x % 4 * 16 + y / 16) % 16 * 16 + y % 16 * 4 / 4 == y
  {
  }

  lemma {:induction false} ReadPaddedBack(b: seq<Byte>)
    ensures ReadPadded(Padded(b)) == Some(b)
  {
    hide Quad, Last, Pads, ReadGroup, ReadLast;
    if |b| < 3 {
      ReadLastBack(b);
    } else {
      ReadPaddedBack(b[3..]);
      ReadQuad(b[0], b[1], b[2]);
      assert Padded(b)[4..] == Padded(b[3..]);
      assert b == [b[0], b[1], b[2]] + b[3..];
    }
  }

  /** Decoding undoes encoding for every byte string. */
  lemma DecodeEncode(b: seq<Byte>)
    ensures Decode(Encode(b)) == Some(b)
  {
    hide Padded, ReadPadded, Unpadded, Encode;
    EncodeIs(b);
    PaddedIs(b);
    ReadPaddedBack(b);
  }

  // ── What else decodes ────────────────────────────────────────────────────

  predicate AllInAlphabet(s: string) {
    forall i :: 0 <= i < |s| ==> InAlphabet(s[i])
  }

  /** The unused low bits of the last digit are zero. */
  predicate ZeroTail(s: string)
    requires AllInAlphabet(s)
  {
    && (|s| % 4 == 2 ==> Sextet(s[|s| - 1]).value % 16 == 0)
    && (|s| % 4 == 3 ==> Sextet(s[|s| - 1]).value % 4 == 0)
  }

  lemma QuadOfTriple(a: nat, b: nat, c: nat, d: nat)
    requires a < 64 && b < 64 && c < 64 && d < 64
    ensures var g := Triple(a, b, c, d); Quad(g[0], g[1], g[2]) == [Digit(a), Digit(b), Digit(c), Digit(d)]
  {
    hide Digit;
    SextetsBack(a, b, c, d);
  }

  lemma GroupBack(s: string)
    requires AllInAlphabet(s) && |s| >= 4
    ensures var g := ReadGroup(s[0], s[1], s[2], s[3]); g.Some? && Quad(g.value[0], g.value[1], g.value[2]) == s[..4]
  {
    hide Digit, Sextet, Quad, Triple, InAlphabet;
    DigitOfValue(s[0]);
    DigitOfValue(s[1]);
    DigitOfValue(s[2]);
    DigitOfValue(s[3]);
    QuadOfTriple(Sextet(s[0]).value, Sextet(s[1]).value, Sextet(s[2]).value, Sextet(s[3]).value);
    assert s[..4] == [s[0], s[1], s[2], s[3]];
  }

  lemma SextetsBack(a: nat, b: nat, c: nat, d: nat)
    requires a < 64 && b < 64 && c < 64 && d < 64
    ensures var x, y, z := a * 4 + b / 16, b % 16 * 16 + c / 4, c % 4 * 64 + d;
            x / 4 == a && x % 4 * 16 + y / 16 == b && y % 16 * 4 + z / 64 == c && z % 64 == d
  {
  }

  lemma DecodeMore(s: string)
    requires AllInAlphabet(s) && |s| >= 4
    ensures var g, rest := ReadGroup(s[0], s[1], s[2], s[3]), Decode(s[4..]);
            g.Some? && Decode(s) == if rest.None? then None else Some(g.value + rest.value)
  {
    hide Pads, ReadGroup, Quad, ReadLast;
    var t := s + Pads(|s|);
    PadsPeriodic(|s| - 4);
    assert t[4..] == s[4..] + Pads(|s[4..]|);
    GroupBack(s);
    assert s[3] != '=';
  }

  lemma DecodeShort(s: string)
    requires AllInAlphabet(s) && |s| < 4
    ensures Decode(s).Some? <==> |s| != 1
    ensures Decode(s).Some? ==> (Unpadded(Decode(s).value) == s <==> ZeroTail(s))
  {
    hide Digit, Sextet, Unpadded;
    if |s| == 1 {
      assert s + Pads(1) == [s[0], '=', '=', '='];
      EqualsIsNoDigit();
    } else if |s| == 2 {
      assert s + Pads(2) == [s[0], s[1], '=', '='];
      DigitOfValue(s[0]);
      DigitOfValue(s[1]);
      TwoBack(s, Sextet(s[0]).value, Sextet(s[1]).value);
    } else if |s| == 3 {
      assert s + Pads(3) == [s[0], s[1], s[2], '='];
      DigitOfValue(s[0]);
      DigitOfValue(s[1]);
      DigitOfValue(s[2]);
      ThreeBack(s, Sextet(s[0]).value, Sextet(s[1]).value, Sextet(s[2]).value);
    } else {
      NothingUnpadded();
      assert s + Pads(0) == "";
    }
  }

  lemma EqualsIsNoDigit()
    ensures Sextet('=').None?
  {
  }

  lemma NothingUnpadded()
    ensures Unpadded([]) == ""
  {
  }

  lemma DigitsDiffer(m: nat, n: nat)
    requires m < 64 && n < 64
    ensures Digit(m) == Digit(n) <==> m == n
  {
    DigitValue(m);
    DigitValue(n);
  }

  lemma TwoBack(s: string, a: nat, b: nat)
    requires a < 64 && b < 64 && s == [Digit(a), Digit(b)]
    ensures Unpadded([a * 4 + b / 16]) == s <==> b % 16 == 0
  {
    hide Digit;
    var x := a * 4 + b / 16;
    assert x / 4 == a;
    DigitsDiffer(x % 4 * 16, b);
  }

  lemma ThreeBack(s: string, a: nat, b: nat, c: nat)
    requires a < 64 && b < 64 && c < 64 && s == [Digit(a), Digit(b), Digit(c)]
    ensures Unpadded([a * 4 + b / 16, b % 16 * 16 + c / 4]) == s <==> c % 4 == 0
  {
    hide Digit;
    var x, y := a * 4 + b / 16, b % 16 * 16 + c / 4;
    assert x / 4 == a && x % 4 * 16 + y / 16 == b;
    DigitsDiffer(y % 16 * 4, c);
  }

  lemma {:induction false} DecodeAlphabet(s: string)
    requires AllInAlphabet(s)
    ensures Decode(s).Some? <==> |s| % 4 != 1
    ensures Decode(s).Some? ==> (Unpadded(Decode(s).value) == s <==> ZeroTail(s))
  {
    hide Decode, ReadGroup, Quad, Last, Sextet;
    if |s| < 4 {
      DecodeShort(s);
    } else {
      DecodeAlphabet(s[4..]);
      DecodeMore(s);
      GroupBack(s);
      if Decode(s).Some? {
        var g, rest := ReadGroup(s[0], s[1], s[2], s[3]).value, Decode(s[4..]).value;
        assert (g + rest)[3..] == rest;
        assert Unpadded(g + rest) == s[..4] + Unpadded(rest);
        assert s == s[..4] + s[4..];
        assert (s[..4] + Unpadded(rest))[4..] == Unpadded(rest);
      }
    }
  }

  // ── Every text ───────────────────────────────────────────────────────────

  predicate AllDigits(s: string) {
    forall i :: 0 <= i < |s| ==> Sextet(s[i]).Some?
  }

  /** A padded text that is read: groups of four, digits up to at most two `=` at the end. */
  ghost predicate WellPadded(t: string, m: nat) {
    m <= |t| <= m + 2 && |t| % 4 == 0 && AllDigits(t[..m]) && forall i :: m <= i < |t| ==> t[i] == '='
  }

  lemma OneGroupRead(t: string)
    requires |t| == 4
    ensures ReadPadded(t).Some? <==> exists m: nat :: WellPadded(t, m)
  {
    hide ReadGroup;
    EqualsIsNoDigit();
    GroupRead(t);
    assert ReadPadded(t[4..]) == Some([]);
    if m: nat :| WellPadded(t, m) {
      assert m >= 2 && t[..m][0] == t[0] && t[..m][1] == t[1];
      assert m > 2 ==> t[..m][2] == t[2];
      assert m > 3 ==> t[..m][3] == t[3];
    }
    if ReadPadded(t).Some? {
      var m := if t[3] != '=' then 4 else if t[2] != '=' then 3 else 2;
      assert WellPadded(t, m);
    }
  }

  lemma GroupRead(t: string)
    requires |t| >= 4
    ensures ReadGroup(t[0], t[1], t[2], t[3]).Some? <==>
            Sextet(t[0]).Some? && Sextet(t[1]).Some? && Sextet(t[2]).Some? && Sextet(t[3]).Some?
  {
    hide Sextet;
  }

  lemma WellPaddedMore(t: string)
    requires |t| > 4
    ensures (exists m: nat :: WellPadded(t, m)) <==>
            AllDigits(t[..4]) && exists m: nat :: WellPadded(t[4..], m)
  {
    hide Sextet;
    if m: nat :| WellPadded(t, m) {
      assert |t| % 4 == 0 && m >= 4;
      assert t[..m][..4] == t[..4] && t[4..][..m - 4] == t[..m][4..];
      assert WellPadded(t[4..], m - 4);
    }
    if AllDigits(t[..4]) {
      if m: nat :| WellPadded(t[4..], m) {
        assert t[..m + 4] == t[..4] + t[4..][..m];
        assert WellPadded(t, m + 4);
      }
    }
  }

  lemma {:induction false} ReadPaddedIff(t: string)
    ensures ReadPadded(t).Some? <==> exists m: nat :: WellPadded(t, m)
  {
    hide ReadGroup, ReadLast, Sextet, WellPadded;
    if t == "" {
      assert WellPadded("", 0) by { NothingPadded(); }
    } else if |t| < 4 {
      forall m: nat
        ensures !WellPadded(t, m)
      {
        ShortNotPadded(t, m);
      }
    } else if |t| == 4 {
      OneGroupRead(t);
    } else {
      ReadPaddedIff(t[4..]);
      WellPaddedMore(t);
      GroupRead(t);
      assert AllDigits(t[..4]) <==>
             Sextet(t[0]).Some? && Sextet(t[1]).Some? && Sextet(t[2]).Some? && Sextet(t[3]).Some?;
    }
  }

  lemma NothingPadded()
    ensures WellPadded("", 0)
  {
  }

  lemma ShortNotPadded(t: string, m: nat)
    requires 0 < |t| < 4
    ensures !WellPadded(t, m)
  {
  }

  /** A text without the `=` at its end. */
  function Core(s: string): (r: string)
    ensures |r| <= |s|
  {
    RStrip(s, c => c == '=')
  }

  lemma CoreSplits(s: string)
    ensures var n := |Core(s)|; n <= |s| && Core(s) == s[..n] && (forall i :: n <= i < |s| ==> s[i] == '=')
    ensures Core(s) == "" || Core(s)[|Core(s)| - 1] != '='
  {
    RStripSplits(s, c => c == '=');
  }

  lemma PadsAre(n: nat)
    ensures |Pads(n)| == (4 - n % 4) % 4 && forall i :: 0 <= i < |Pads(n)| ==> Pads(n)[i] == '='
  {
  }

  lemma PadCount(n: nat, e: nat)
    ensures n % 4 != 1 && e <= (4 - n % 4) % 4 <==> e + (4 - (n + e) % 4) % 4 <= 2
    ensures n % 4 != 1 && e <= (4 - n % 4) % 4 ==> e + (4 - (n + e) % 4) % 4 == (4 - n % 4) % 4
  {
    if e <= 2 {
      SmallPad(n / 4, n % 4, e);
    }
  }

  lemma SmallPad(q: nat, a: nat, e: nat)
    requires a < 4 && e <= 2
    ensures (4 * q + a + e) % 4 == if a + e < 4 then a + e else a + e - 4
  {
    assert 4 * q + a + e == 4 * (q + 1) + (a + e - 4);
  }

  lemma DecodesIff(s: string)
    ensures Decode(s).Some? <==>
            AllDigits(Core(s)) && |s| - |Core(s)| + |Pads(|s|)| <= 2
  {
    hide ReadPadded, Sextet, Core, Pads;
    var t, n := s + Pads(|s|), |Core(s)|;
    ReadPaddedIff(t);
    PadsAre(|s|);
    CoreSplits(s);
    assert t[..n] == s[..n];
    if m: nat :| WellPadded(t, m) {
      if m > n {
        assert t[..m][n] == '=';
        EqualsIsNoDigit();
      }
    }
    if AllDigits(Core(s)) && |t| - n <= 2 {
      assert forall i :: n <= i < |t| ==> t[i] == '=';
      assert WellPadded(t, n);
    }
  }

  /** Which texts decode at all: digits, `+` and `/` counting as digits, not one more than a multiple of
      four, then at most the `=` that padding would add. */
  lemma DecodableIff(s: string)
    ensures Decode(s).Some? <==>
            && AllDigits(Core(s)) && |Core(s)| % 4 != 1
            && |s| - |Core(s)| <= (4 - |Core(s)| % 4) % 4
  {
    hide Decode, Sextet, Core, Pads;
    DecodesIff(s);
    CoreSplits(s);
    PadsAre(|s|);
    PadCount(|Core(s)|, |s| - |Core(s)|);
  }

  /** `+` and `/` are read as `-` and `_`. */
  function UrlChar(c: char): char { if c == '+' then '-' else if c == '/' then '_' else c }

  function UrlText(s: string): (r: string)
    ensures |r| == |s| && forall i :: 0 <= i < |s| ==> r[i] == UrlChar(s[i])
  {
    seq(|s|, i requires 0 <= i < |s| => UrlChar(s[i]))
  }

  lemma UrlSextet(c: char)
    ensures Sextet(UrlChar(c)) == Sextet(c) && (UrlChar(c) == '=' <==> c == '=')
    ensures Sextet(c).Some? ==> InAlphabet(UrlChar(c))
  {
  }

  lemma {:induction false} SameReading(t: string, u: string)
    requires |t| == |u| && forall i :: 0 <= i < |t| ==> Sextet(t[i]) == Sextet(u[i]) && (t[i] == '=' <==> u[i] == '=')
    ensures ReadPadded(t) == ReadPadded(u)
  {
    hide Sextet, Triple;
    if |t| > 4 {
      SameReading(t[4..], u[4..]);
    } else if |t| == 4 {
      assert t[4..] == "" && u[4..] == "";
    }
  }

  /** What a text that decodes decodes to: the bytes of the text over the alphabet that has no padding, and
      `-` and `_` for `+` and `/`. So `+/+/` reads like `-_-_`, and `QQ==` and `QQ=` like `QQ`. */
  lemma DecodesLike(s: string)
    requires Decode(s).Some?
    ensures AllInAlphabet(UrlText(Core(s))) && Decode(s) == Decode(UrlText(Core(s)))
  {
    hide ReadPadded, Sextet, Core, Pads, UrlChar, InAlphabet;
    DecodableIff(s);
    var core := Core(s);
    var n, e := |core|, |s| - |core|;
    var u := UrlText(core);
    CoreSplits(s);
    PadsAre(|s|);
    PadsAre(n);
    PadCount(n, e);
    var t, v := s + Pads(|s|), u + Pads(n);
    assert |t| == |v|;
    forall i | 0 <= i < |t|
      ensures Sextet(t[i]) == Sextet(v[i]) && (t[i] == '=' <==> v[i] == '=')
    {
      if i < n {
        UrlSextet(core[i]);
      }
    }
    SameReading(t, v);
    forall i | 0 <= i < n
      ensures InAlphabet(u[i])
    {
      UrlSextet(core[i]);
    }
  }

  /** Decoding a text and encoding the result gives the text back exactly when it is over the alphabet, of a
      length that is not one more than a multiple of four, and its spare bits are zero. Every other text
      that decodes is a second form of some bytes. */
  lemma EncodeDecode(s: string)
    ensures (Decode(s).Some? && Encode(Decode(s).value) == s) <==>
            AllInAlphabet(s) && |s| % 4 != 1 && ZeroTail(s)
  {
    hide Decode, Encode, Unpadded, InAlphabet;
    if Decode(s).Some? {
      EncodeIs(Decode(s).value);
      EncodeInAlphabet(Decode(s).value);
    }
    if AllInAlphabet(s) {
      DecodeAlphabet(s);
    }
  }

  lemma PlusAndSlashDecode()
    ensures Decode("+/+/") == Decode("-_-_") == Some([251, 255, 191])
  {
    hide RStrip;
    var a, b := "+/+/", "-_-_";
    assert a + Pads(4) == a && b + Pads(4) == b && a[4..] == "" && b[4..] == "";
    assert ReadGroup('+', '/', '+', '/') == Some([251, 255, 191]);
    assert ReadGroup('-', '_', '-', '_') == Some([251, 255, 191]);
    assert ReadPadded("") == Some([]) && [251, 255, 191] + [] == [251, 255, 191];
    hide ReadGroup, Sextet, Triple;
    assert ReadPadded(a) == Some([251, 255, 191] + []) && ReadPadded(b) == Some([251, 255, 191] + []);
  }

  lemma PaddedDecodes()
    ensures Decode("QQ==") == Decode("QQ=") == Decode("QQ") == Some([65])
  {
    assert "QQ==" + Pads(4) == "QQ==" && "QQ=" + Pads(3) == "QQ==" && "QQ" + Pads(2) == "QQ==";
    assert ReadLast("QQ==") == Some([65]);
  }

  lemma SpareBitsDecode()
    ensures Decode("QR") == Some([65]) && Encode([65]) == "QQ"
  {
    assert "QR" + Pads(2) == "QR==";
    assert ReadLast("QR==") == Some([65]);
    EncodeIs([65]);
  }

  /** Second forms of some bytes, of each kind: with `+` and `/`, padded, with other spare bits. */
  lemma SecondForms()
    ensures Decode("+/+/") == Decode("-_-_") == Some([251, 255, 191])
    ensures Decode("QQ==") == Decode("QQ=") == Decode("QQ") == Some([65])
    ensures Decode("QR") == Some([65]) && Encode([65]) == "QQ"
  {
    hide Decode, Encode;
    PlusAndSlashDecode();
    PaddedDecodes();
    SpareBitsDecode();
  }
}
