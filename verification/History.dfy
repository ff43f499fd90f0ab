/** `graph.flatten_prior_tool_history`: the message list a Q&A turn sends, with the tool exchange of
    earlier turns reduced to its prose. */
module History {
  import opened PyStrings
  import opened Messages

  /** Where the current turn starts: the last human message, or the end when there is none. */
  function CurrentTurn(ms: seq<Msg>): (k: nat)
    ensures k <= |ms|
    ensures k < |ms| ==> ms[k].Human?
    ensures k == |ms| ==> forall i :: 0 <= i < |ms| ==> !ms[i].Human?
    ensures forall i :: k < i < |ms| ==> !ms[i].Human?
  {
    if ms == [] then 0
    else
      var n := |ms| - 1;
      if ms[n].Human? then n
      else
        var k := CurrentTurn(ms[..n]);
        if k < n then k else n + 1
  }

  /** A message of an earlier turn, as it is replayed. */
  function Prose(m: Msg): seq<Msg> {
    match m
    case Tool(_, _, _, _) => []
    case AI(calls, prose, _) => if calls == [] then [m] else if prose then [AI([], true, false)] else []
    case _ => [m]
  }

  function ProseOf(ms: seq<Msg>): seq<Msg> {
    if ms == [] then [] else ProseOf(ms[..|ms| - 1]) + Prose(ms[|ms| - 1])
  }

  /** `flatten_prior_tool_history` */
  function Flattened(ms: seq<Msg>): seq<Msg> {
    var k := CurrentTurn(ms);
    ProseOf(ms[..k]) + ms[k..]
  }

  /** What the second pass has kept after `i` messages. */
  ghost function KeptSoFar(ms: seq<Msg>, k: nat, i: nat): seq<Msg>
    requires k <= |ms| && i <= |ms|
  {
    if i <= k then ProseOf(ms[..i]) else ProseOf(ms[..k]) + ms[k..i]
  }

  lemma KeptStep(ms: seq<Msg>, k: nat, i: nat)
    requires k <= |ms| && i < |ms|
    ensures KeptSoFar(ms, k, i + 1) == KeptSoFar(ms, k, i) + if i < k then Prose(ms[i]) else [ms[i]]
  {
    hide Prose;
    if i < k {
      assert ms[..i + 1][..i] == ms[..i];
    } else if i == k {
      assert ms[k..i + 1] == [ms[i]];
    } else {
      assert ms[k..i + 1] == ms[k..i] + [ms[i]];
    }
  }

  lemma KeptAll(ms: seq<Msg>)
    ensures KeptSoFar(ms, CurrentTurn(ms), |ms|) == Flattened(ms) && KeptSoFar(ms, CurrentTurn(ms), 0) == []
  {
    hide ProseOf, CurrentTurn;
    var k := CurrentTurn(ms);
    assert k == |ms| ==> ms[k..] == [] && ms[..k] == ms;
    assert ms[..|ms|] == ms && ms[k..|ms|] == ms[k..];
    assert ProseOf(ms[..0]) == [] by { NoProse(); }
  }

  lemma NoProse()
    ensures forall ms: seq<Msg> :: ProseOf(ms[..0]) == []
  {
  }

  /** The first pass: the last human message, or -1. */
  method FindLastHuman(ms: seq<Msg>) returns (lastHuman: int)
    ensures -1 <= lastHuman < |ms|
    ensures CurrentTurn(ms) == if lastHuman == -1 then |ms| else lastHuman
  {
    lastHuman := -1;
    for i := 0 to |ms|
      invariant -1 <= lastHuman < i
      invariant CurrentTurn(ms[..i]) == if lastHuman == -1 then i else lastHuman
    {
      assert ms[..i + 1][..i] == ms[..i];
      if ms[i].Human? {
        lastHuman := i;
      }
    }
    assert ms[..|ms|] == ms;
  }

  /** `flatten_prior_tool_history`, pass for pass. */
  method Flatten(ms: seq<Msg>) returns (safe: seq<Msg>)
    ensures safe == Flattened(ms)
  {
    hide CurrentTurn, KeptSoFar, Flattened;
    var lastHuman := FindLastHuman(ms);
    ghost var k := CurrentTurn(ms);
    KeptAll(ms);
    safe := [];
    for i := 0 to |ms|
      invariant safe == KeptSoFar(ms, k, i)
    {
      KeptStep(ms, k, i);
      var m := ms[i];
      if lastHuman != -1 && i >= lastHuman {
        safe := safe + [m];
        continue;
      }
      assert safe + [] == safe;
      if m.Tool? {
        continue;
      }
      if m.AI? && m.calls != [] {
        if m.prose {
          safe := safe + [AI([], true, false)];
        }
        continue;
      }
      safe := safe + [m];
    }
  }

  // ── Laws ─────────────────────────────────────────────────────────────────

  /** Neither a tool output nor a tool call. */
  predicate IsPlain(m: Msg) { !m.Tool? && CallsOf(m) == [] }

  predicate AllPlain(ms: seq<Msg>) {
    forall i :: 0 <= i < |ms| ==> IsPlain(ms[i])
  }

  lemma ProseIsPlain(m: Msg)
    ensures AllPlain(Prose(m)) && (IsPlain(m) ==> Prose(m) == [m])
  {
  }

  lemma {:induction false} ProsePlain(ms: seq<Msg>)
    ensures AllPlain(ProseOf(ms)) && (AllPlain(ms) ==> ProseOf(ms) == ms)
  {
    hide Prose, IsPlain;
    if ms != [] {
      var init, last := ms[..|ms| - 1], ms[|ms| - 1];
      ProsePlain(init);
      ProseIsPlain(last);
      assert ms == init + [last];
    }
  }

  lemma {:induction false} TurnAfter(a: seq<Msg>, b: seq<Msg>)
    requires b != [] && b[0].Human? && forall i :: 0 < i < |b| ==> !b[i].Human?
    ensures CurrentTurn(a + b) == |a|
  {
    var k := CurrentTurn(a + b);
    assert (a + b)[|a|] == b[0];
    assert forall i :: |a| < i < |a + b| ==> (a + b)[i] == b[i - |a|];
  }

  /** The current turn is sent verbatim; before it there is neither a tool call nor a tool output; and
      flattening again changes nothing. */
  lemma FlattenLaws(ms: seq<Msg>)
    ensures var f, k := Flattened(ms), CurrentTurn(ms);
            && k <= |ms| && |f| >= |ms| - k && f[|f| - (|ms| - k)..] == ms[k..]
            && AllPlain(f[..|f| - (|ms| - k)])
            && Flattened(f) == f
  {
    hide ProseOf, CurrentTurn, IsPlain, AllPlain;
    var k := CurrentTurn(ms);
    var p, now := ProseOf(ms[..k]), ms[k..];
    var f := p + now;
    ProsePlain(ms[..k]);
    assert f[..|p|] == p && f[|p|..] == now;
    ProsePlain(p);
    if k < |ms| {
      TurnAfter(p, now);
    } else {
      assert ms[..k] == ms;
      NoHumans(ms, p);
      assert f == p;
    }
  }

  lemma NoHumans(ms: seq<Msg>, p: seq<Msg>)
    requires CurrentTurn(ms) == |ms| && p == ProseOf(ms)
    ensures CurrentTurn(p) == |p|
  {
    ProseHumans(ms);
  }

  lemma {:induction false} ProseHumans(ms: seq<Msg>)
    requires forall i :: 0 <= i < |ms| ==> !ms[i].Human?
    ensures forall i :: 0 <= i < |ProseOf(ms)| ==> !ProseOf(ms)[i].Human?
  {
    if ms != [] {
      ProseHumans(ms[..|ms| - 1]);
    }
  }

  /** A message of an earlier turn that has something to replay: it is neither a tool output nor a reply made of
      calls alone. */
  predicate Says(m: Msg) { !m.Tool? && (m.AI? && m.calls != [] ==> m.prose) }

  /** The same message without its calls. */
  predicate WithoutCalls(m: Msg, r: Msg) {
    if m.AI? && m.calls != [] then r.AI? && r.calls == [] && r.prose && !r.advocate else r == m
  }

  /** `p` replays the messages of `ms` at `at`, and those are the ones that say something. */
  predicate Replays(ms: seq<Msg>, p: seq<Msg>, at: seq<nat>) {
    && |at| == |p|
    && (forall i, j :: 0 <= i < j < |at| ==> at[i] < at[j])
    && (forall j :: 0 <= j < |at| ==> at[j] < |ms| && WithoutCalls(ms[at[j]], p[j]))
    && (forall i :: 0 <= i < |ms| ==> (Says(ms[i]) <==> i in at))
  }

  ghost predicate IsReplayOf(p: seq<Msg>, ms: seq<Msg>) { exists at: seq<nat> :: Replays(ms, p, at) }

  lemma ReplaysOneMore(ms: seq<Msg>, p: seq<Msg>, at: seq<nat>, m: Msg)
    requires Replays(ms, p, at)
    ensures Prose(m) == [] ==> Replays(ms + [m], p, at)
    ensures Prose(m) != [] ==> Replays(ms + [m], p + Prose(m), at + [|ms|])
  {
    var all, more := ms + [m], at + [|ms|];
    assert forall i :: 0 <= i < |ms| ==> all[i] == ms[i] && (i in at <==> i in more);
    assert all[|ms|] == m && more[|at|] == |ms|;
    assert |ms| !in at;
  }

  lemma {:induction false} ProseReplays(ms: seq<Msg>) returns (at: seq<nat>)
    ensures Replays(ms, ProseOf(ms), at)
  {
    hide Prose, Replays;
    if ms == [] {
      at := [];
      assert Replays([], [], []) by { NothingReplayed(); }
    } else {
      var init, m := ms[..|ms| - 1], ms[|ms| - 1];
      at := ProseReplays(init);
      ReplaysOneMore(init, ProseOf(init), at, m);
      assert ms == init + [m];
      if Prose(m) != [] {
        at := at + [|init|];
      } else {
        assert ProseOf(init) + [] == ProseOf(init);
      }
    }
  }

  lemma NothingReplayed()
    ensures Replays([], [], [])
  {
  }

  /** Of the turns before the current one exactly the human messages and the replies that say something are
      sent, in order: a reply without calls as it is, one with calls as its prose alone. */
  lemma ProseIsKept(ms: seq<Msg>)
    ensures var f, k := Flattened(ms), CurrentTurn(ms);
            && |f| >= |ms| - k && f[|f| - (|ms| - k)..] == ms[k..]
            && IsReplayOf(f[..|f| - (|ms| - k)], ms[..k])
  {
    hide ProseOf, CurrentTurn, Replays;
    var k := CurrentTurn(ms);
    var p := ProseOf(ms[..k]);
    var at := ProseReplays(ms[..k]);
    assert (p + ms[k..])[..|p|] == p;
  }

  // ── Pairing ──────────────────────────────────────────────────────────────

  function AllCallIds(ms: seq<Msg>): multiset<string> {
    if ms == [] then multiset{} else AllCallIds(ms[..|ms| - 1]) + CallIds(CallsOf(ms[|ms| - 1]))
  }

  /** Every call has exactly one answer, and no answer comes before its call. */
  ghost predicate Paired(ms: seq<Msg>) {
    && AnswerIds(ms) == AllCallIds(ms)
    && forall i :: 0 <= i <= |ms| ==> AnswerIds(ms[..i]) <= AllCallIds(ms[..i])
  }

  lemma CallsSnoc(ms: seq<Msg>, m: Msg)
    ensures AllCallIds(ms + [m]) == AllCallIds(ms) + CallIds(CallsOf(m))
  {
    hide CallIds;
    assert (ms + [m])[..|ms|] == ms;
  }

  lemma {:induction false} CallsJoin(a: seq<Msg>, b: seq<Msg>)
    ensures AllCallIds(a + b) == AllCallIds(a) + AllCallIds(b)
  {
    hide AllCallIds, CallIds;
    if b == [] {
      assert a + b == a && AllCallIds([]) == multiset{} by { NoCallIds(); }
    } else {
      var init, m := b[..|b| - 1], b[|b| - 1];
      CallsJoin(a, init);
      CallsSnoc(init, m);
      CallsSnoc(a + init, m);
      assert b == init + [m] && a + b == (a + init) + [m];
    }
  }

  lemma NoCallIds()
    ensures AllCallIds([]) == multiset{}
  {
  }

  lemma {:induction false} PlainNoIds(ms: seq<Msg>)
    requires AllPlain(ms)
    ensures AnswerIds(ms) == multiset{} && AllCallIds(ms) == multiset{}
  {
    if ms != [] {
      PlainNoIds(ms[..|ms| - 1]);
    }
  }

  lemma PlainPrefix(p: seq<Msg>, ms: seq<Msg>)
    requires AllPlain(p)
    ensures AnswerIds(p + ms) == AnswerIds(ms) && AllCallIds(p + ms) == AllCallIds(ms)
  {
    PlainNoIds(p);
    AnswersJoin(p, ms);
    CallsJoin(p, ms);
  }

  /** Behind plain messages, pairing is a matter of what follows them. */
  lemma PrefixFits(p: seq<Msg>, now: seq<Msg>, i: nat)
    requires AllPlain(p) && i <= |p| + |now|
    ensures var f := (p + now)[..i];
            AnswerIds(f) <= AllCallIds(f) <==>
            i <= |p| || AnswerIds(now[..i - |p|]) <= AllCallIds(now[..i - |p|])
  {
    hide AnswerIds, AllCallIds, IsPlain;
    if i <= |p| {
      PlainNoIds(p[..i]);
      assert (p + now)[..i] == p[..i];
    } else {
      PlainPrefix(p, now[..i - |p|]);
      assert (p + now)[..i] == p + now[..i - |p|];
    }
  }

  /** What is sent is fully paired exactly when the current turn is. */
  lemma FlattenedPairedIff(ms: seq<Msg>)
    ensures Paired(Flattened(ms)) <==> Paired(ms[CurrentTurn(ms)..])
  {
    hide AnswerIds, AllCallIds, IsPlain;
    var k := CurrentTurn(ms);
    var p, now := ProseOf(ms[..k]), ms[k..];
    var f := p + now;
    ProsePlain(ms[..k]);
    PlainPrefix(p, now);
    if Paired(now) {
      forall i | 0 <= i <= |f|
        ensures AnswerIds(f[..i]) <= AllCallIds(f[..i])
      {
        PrefixFits(p, now, i);
      }
    }
    if Paired(f) {
      forall i | 0 <= i <= |now|
        ensures AnswerIds(now[..i]) <= AllCallIds(now[..i])
      {
        PrefixFits(p, now, |p| + i);
        if i == 0 {
          PlainNoIds(now[..0]);
        }
      }
    }
  }
}
