/** The handful of Python string operations the modelled code relies on.
    A Python string is a sequence of Unicode scalar values. */
module PyStrings {

  datatype Option<+T> = None | Some(value: T)

  /** Characters for which `str.isspace` holds, i.e. those `str.strip()` removes. */
  predicate IsSpace(c: char) {
    var n := c as int;
    || 0x09 <= n <= 0x0d
    || 0x1c <= n <= 0x20
    || n == 0x85
    || n == 0xa0
    || n == 0x1680
    || 0x2000 <= n <= 0x200a
    || n == 0x2028 || n == 0x2029 || n == 0x202f || n == 0x205f || n == 0x3000
  }

  /** Drops the longest prefix whose characters satisfy `p`. */
  function LStrip(s: string, p: char -> bool): (r: string)
    ensures |r| <= |s|
    ensures r != [] ==> !p(r[0])
  {
    if s != [] && p(s[0]) then LStrip(s[1..], p) else s
  }

  /** Drops the longest suffix whose characters satisfy `p`. */
  function RStrip(s: string, p: char -> bool): (r: string)
    ensures |r| <= |s|
    ensures r != [] ==> r[0] == s[0] && !p(r[|r| - 1])
  {
    if s != [] && p(s[|s| - 1]) then RStrip(s[..|s| - 1], p) else s
  }

  function StripIf(s: string, p: char -> bool): string {
    RStrip(LStrip(s, p), p)
  }

  /** `str.strip()` */
  function Strip(s: string): string {
    StripIf(s, IsSpace)
  }

  /** `s.strip(c)` for a one-character argument. */
  function StripChar(s: string, c: char): string {
    StripIf(s, x => x == c)
  }

  /** Nothing to strip at either end. */
  predicate Trimmed(s: string, p: char -> bool) {
    s != [] ==> !p(s[0]) && !p(s[|s| - 1])
  }

  lemma StripIfTrimmed(s: string, p: char -> bool)
    ensures Trimmed(StripIf(s, p), p)
  {
    var l := LStrip(s, p);
    var r := RStrip(l, p);
    if r != [] {
      assert r[0] == l[0];
    }
  }

  lemma StripTrimmed(s: string, p: char -> bool)
    requires Trimmed(s, p)
    ensures StripIf(s, p) == s
  {
  }

  lemma {:induction false} StripRun(run: string, rest: string, p: char -> bool)
    requires forall i :: 0 <= i < |run| ==> p(run[i])
    requires rest == [] || !p(rest[0])
    ensures LStrip(run + rest, p) == rest
  {
    if run == [] {
      assert run + rest == rest;
    } else {
      assert (run + rest)[1..] == run[1..] + rest;
      StripRun(run[1..], rest, p);
    }
  }

  lemma {:induction false} StripRunEnd(head: string, run: string, p: char -> bool)
    requires forall i :: 0 <= i < |run| ==> p(run[i])
    requires head == [] || !p(head[|head| - 1])
    ensures RStrip(head + run, p) == head
  {
    if run == [] {
      assert head + run == head;
    } else {
      var s := head + run;
      assert s[..|s| - 1] == head + run[..|run| - 1];
      StripRunEnd(head, run[..|run| - 1], p);
    }
  }

  lemma {:induction false} LStripSplits(s: string, p: char -> bool)
    ensures var n := |s| - |LStrip(s, p)|;
            && 0 <= n && LStrip(s, p) == s[n..] && forall i :: 0 <= i < n ==> p(s[i])
  {
    if s != [] && p(s[0]) {
      LStripSplits(s[1..], p);
    }
  }

  lemma {:induction false} RStripSplits(s: string, p: char -> bool)
    ensures var n := |RStrip(s, p)|; n <= |s| && RStrip(s, p) == s[..n] && forall i :: n <= i < |s| ==> p(s[i])
  {
    if s != [] && p(s[|s| - 1]) {
      RStripSplits(s[..|s| - 1], p);
    }
  }

  /** Stripping ignores whatever strippable surrounds a text. */
  lemma StripAround(before: string, s: string, after: string, p: char -> bool)
    requires forall i :: 0 <= i < |before| ==> p(before[i])
    requires forall i :: 0 <= i < |after| ==> p(after[i])
    ensures StripIf(before + s + after, p) == StripIf(s, p)
  {
    hide LStrip, RStrip;
    LStripSplits(s, p);
    var n := |s| - |LStrip(s, p)|;
    var t := s[n..];
    if t == [] {
      StripAll(before + s + after, p);
      StripAll(s, p);
    } else {
      RStripSplits(t, p);
      var m := |RStrip(t, p)|;
      assert !p(t[0]) by { LStripStops(s, p); }
      StripRun(before + s[..n], t + after, p);
      assert before + s + after == (before + s[..n]) + (t + after);
      assert t + after == t[..m] + (t[m..] + after);
      StripRunEnd(t[..m], t[m..] + after, p);
    }
  }

  lemma LStripStops(s: string, p: char -> bool)
    ensures LStrip(s, p) != [] ==> !p(LStrip(s, p)[0])
  {
  }

  lemma StripAll(s: string, p: char -> bool)
    requires forall i :: 0 <= i < |s| ==> p(s[i])
    ensures StripIf(s, p) == []
  {
    StripRun(s, [], p);
    assert s + [] == s;
  }

  lemma RStripStops(s: string, p: char -> bool)
    ensures RStrip(s, p) != [] ==> !p(RStrip(s, p)[|RStrip(s, p)| - 1])
  {
  }

  /** A text with a mark in it is stripped before and after the mark. */
  lemma StripAtMark(p: string, c: char, q: string)
    requires !IsSpace(c)
    ensures Strip(p + [c] + q) == LStrip(p, IsSpace) + [c] + RStrip(q, IsSpace)
    ensures c !in p ==> c !in LStrip(p, IsSpace)
  {
    hide LStrip, RStrip;
    LStripSplits(p, IsSpace);
    RStripSplits(q, IsSpace);
    var p', q' := LStrip(p, IsSpace), RStrip(q, IsSpace);
    var a, b := p[..|p| - |p'|], q[|q'|..];
    var t := p' + [c] + q';
    assert p == a + p' && q == q' + b;
    assert p + [c] + q == a + t + b;
    StripAround(a, t, b, IsSpace);
    LStripStops(p, IsSpace);
    RStripStops(q, IsSpace);
    StripTrimmed(t, IsSpace);
  }

  lemma StripLeft(p: string)
    ensures Strip(LStrip(p, IsSpace)) == Strip(p)
  {
    hide LStrip, RStrip, StripIf;
    LStripSplits(p, IsSpace);
    var p' := LStrip(p, IsSpace);
    assert p == p[..|p| - |p'|] + p' + [];
    StripAround(p[..|p| - |p'|], p', [], IsSpace);
  }

  lemma StripEnd(q: string)
    ensures Strip(RStrip(q, IsSpace)) == Strip(q)
  {
    hide LStrip, RStrip, StripIf;
    RStripSplits(q, IsSpace);
    var q' := RStrip(q, IsSpace);
    assert q == [] + q' + q[|q'|..];
    StripAround([], q', q[|q'|..], IsSpace);
  }

  /** Stripping at the end does not change what a text starts with. */
  lemma LeadKept(p: string)
    ensures var l, s := LStrip(p, IsSpace), Strip(p); (l == "" <==> s == "") && (l != "" ==> l[0] == s[0])
  {
    var l := LStrip(p, IsSpace);
    RStripSplits(l, IsSpace);
    if l != "" {
      LStripStops(p, IsSpace);
    }
  }

  predicate AllBlank(s: string) { forall i :: 0 <= i < |s| ==> IsSpace(s[i]) }

  /** `t` is `s` without the blanks around it. */
  ghost predicate IsCore(t: string, s: string) {
    Trimmed(t, IsSpace) && exists a, b :: AllBlank(a) && AllBlank(b) && s == a + t + b
  }

  lemma StripIsCore(s: string)
    ensures IsCore(Strip(s), s)
  {
    LStripSplits(s, IsSpace);
    var l := LStrip(s, IsSpace);
    RStripSplits(l, IsSpace);
    StripIfTrimmed(s, IsSpace);
    var a, b := s[..|s| - |l|], l[|Strip(s)|..];
    assert AllBlank(a) && AllBlank(b) && s == a + Strip(s) + b;
  }

  lemma StripWithin(s: string)
    ensures forall c :: c in Strip(s) ==> c in s
  {
    hide StripIf;
    StripIsCore(s);
    var a, b :| AllBlank(a) && AllBlank(b) && s == a + Strip(s) + b;
  }

  lemma CoreIsStrip(t: string, s: string)
    requires IsCore(t, s)
    ensures t == Strip(s)
  {
    hide StripIf;
    var a, b :| AllBlank(a) && AllBlank(b) && s == a + t + b;
    StripAround(a, t, b, IsSpace);
    StripTrimmed(t, IsSpace);
  }

  lemma BlankIff(s: string)
    ensures Strip(s) == "" <==> AllBlank(s)
  {
    if AllBlank(s) {
      StripAll(s, IsSpace);
    }
    if Strip(s) == "" {
      hide StripIf;
      StripIsCore(s);
      EmptyCore(s);
    }
  }

  lemma EmptyCore(s: string)
    requires IsCore("", s)
    ensures AllBlank(s)
  {
    var a, b :| AllBlank(a) && AllBlank(b) && s == a + "" + b;
  }

  /** Index of the first `c` in `s`, or `|s|`. */
  function Find(s: string, c: char): (i: nat)
    ensures i <= |s|
    ensures i < |s| ==> s[i] == c
    ensures forall j :: 0 <= j < i ==> s[j] != c
  {
    if s == [] || s[0] == c then 0 else 1 + Find(s[1..], c)
  }

  lemma FindAt(head: string, c: char, tail: string)
    requires c !in head
    ensures Find(head + [c] + tail, c) == |head|
  {
    var s := head + [c] + tail;
    assert s[|head|] == c;
    assert forall j :: 0 <= j < |head| ==> s[j] == head[j] && s[j] in head;
  }

  lemma FindAbsent(s: string, c: char)
    ensures c !in s <==> Find(s, c) == |s|
  {
  }

  /** `s.split(c)` */
  function Split(s: string, c: char): (r: seq<string>)
    ensures r != []
  {
    var i := Find(s, c);
    if i == |s| then [s] else [s[..i]] + Split(s[i + 1..], c)
  }

  lemma SplitStep(head: string, c: char, rest: string)
    requires c !in head
    ensures Split(head, c) == [head] && Split(head + [c] + rest, c) == [head] + Split(rest, c)
  {
    FindAbsent(head, c);
    FindAt(head, c, rest);
    var s := head + [c] + rest;
    assert s[..|head|] == head && s[|head| + 1..] == rest;
  }

  /** The part of `str.lower` that can produce an ASCII letter: A-Z and the Kelvin sign. */
  function LowerChar(c: char): char {
    if 'A' <= c <= 'Z' then ((c as int) + 32) as char
    else if c as int == 0x212a then 'k'
    else c
  }

  function Lower(s: string): (r: string)
    ensures |r| == |s|
  {
    if s == [] then [] else [LowerChar(s[0])] + Lower(s[1..])
  }

  /** Code-point order on strings, as used by `sorted` and `sort_keys`. */
  predicate Less(a: string, b: string) {
    b != [] && (a == [] || a[0] < b[0] || (a[0] == b[0] && Less(a[1..], b[1..])))
  }

  lemma {:induction false} LessTransitive(a: string, b: string, c: string)
    requires Less(a, b) && Less(b, c)
    ensures Less(a, c)
  {
    if a != [] && a[0] == b[0] && b[0] == c[0] {
      LessTransitive(a[1..], b[1..], c[1..]);
    }
  }

  lemma {:induction false} LessTotal(a: string, b: string)
    ensures a == b || Less(a, b) || Less(b, a)
    ensures !(Less(a, b) && Less(b, a)) && !Less(a, a)
  {
    if a != [] && b != [] && a[0] == b[0] {
      LessTotal(a[1..], b[1..]);
      assert a == [a[0]] + a[1..] && b == [b[0]] + b[1..];
    }
    if a != [] {
      LessTotal(a[1..], a[1..]);
    }
  }

  /** `a` is a proper prefix of `b`, or has the smaller character where they first differ. */
  ghost predicate Precedes(a: string, b: string) {
    exists n: nat :: FirstDifference(a, b, n)
  }

  predicate FirstDifference(a: string, b: string, n: nat) {
    n <= |a| && n < |b| && a[..n] == b[..n] && (n == |a| || a[n] < b[n])
  }

  lemma {:induction false} LessMeans(a: string, b: string)
    ensures Less(a, b) <==> Precedes(a, b)
  {
    if a != [] && b != [] && a[0] == b[0] {
      LessMeans(a[1..], b[1..]);
      LaterDifference(a, b);
    } else {
      if Less(a, b) {
        assert FirstDifference(a, b, 0);
      }
      if Precedes(a, b) {
        var n: nat :| FirstDifference(a, b, n);
        if n > 0 {
          SameStart(a, b, n);
        }
      }
    }
  }

  lemma SameStart(a: string, b: string, n: nat)
    requires FirstDifference(a, b, n) && n > 0
    ensures a[0] == b[0]
  {
    assert a[..n][0] == a[0] && b[..n][0] == b[0];
  }

  lemma LaterDifference(a: string, b: string)
    requires a != [] && b != [] && a[0] == b[0]
    ensures Precedes(a, b) <==> Precedes(a[1..], b[1..])
  {
    if Precedes(a, b) {
      var n: nat :| FirstDifference(a, b, n);
      assert a[1..][..n - 1] == a[..n][1..] && b[1..][..n - 1] == b[..n][1..];
      assert FirstDifference(a[1..], b[1..], n - 1);
    }
    if Precedes(a[1..], b[1..]) {
      var n: nat :| FirstDifference(a[1..], b[1..], n);
      assert a[..n + 1] == [a[0]] + a[1..][..n] && b[..n + 1] == [b[0]] + b[1..][..n];
      assert FirstDifference(a, b, n + 1);
    }
  }
}
