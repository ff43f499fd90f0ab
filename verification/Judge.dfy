/** `graph.judge_node`: the bounded loop in which the Judge may look things up, and the decision it
    always leaves. */
module Judge {
  import opened PyStrings
  import opened Messages
  import opened ToolNode

  /** One call of the Judge model: it raises, or replies with calls whose tools answer `replies`. */
  datatype Turn = Raised | Said(calls: seq<Call>, prose: bool, replies: seq<Reply>)

  predicate IsReadOnly(c: Call) { c.name != DECLARE && c.name != WATCH }

  /** What the loop has done: the messages it added, the calls it ran, how many of them were
      read-only, how often the model was called, and what was committed. */
  datatype Outcome = Outcome(
    out: seq<Msg>, ran: seq<Call>, lookups: nat, modelCalls: nat, action: Option<Action>)

  const NOTHING := Outcome([], [], 0, 0, None)

  /** The read-only calls in order: run while the budget lasts, answered with a note after that. */
  function Lookups(o: Outcome, cs: seq<Call>, replies: seq<Reply>, budget: nat): Outcome {
    if cs == [] then o
    else
      var n := |cs| - 1;
      var before := Lookups(o, cs[..n], replies, budget);
      if before.lookups >= budget then before.(out := before.out + Notes([cs[n]]))
      else
        before.(out := before.out + Dispatched([cs[n]], if n < |replies| then [replies[n]] else []),
                ran := before.ran + [cs[n]], lookups := before.lookups + 1)
  }

  /** One turn of the loop, and whether the loop goes on. */
  function AfterTurn(o: Outcome, t: Turn, budget: nat): (Outcome, bool) {
    if t.Raised? then (o.(modelCalls := o.modelCalls + 1), false)
    else
      var ok := Select(t.calls, IsOk);
      var declares, suspends, queries := Select(ok, IsDeclare), Select(ok, IsWatch), Select(ok, IsReadOnly);
      var heard := o.(
        out := o.out + [AI(t.calls, t.prose, false)] + Feedback(Select(t.calls, IsFailed)) + Notes(suspends),
        modelCalls := o.modelCalls + 1);
      if declares != [] then
        var answers := Dispatched(declares, t.replies);
        var tried := heard.(out := heard.out + answers, ran := heard.ran + declares);
        if Rejected(answers) then (tried, true) else (tried.(action := DeclaredAction(declares)), false)
      else if queries != [] then (Lookups(heard, queries, t.replies, budget), true)
      else (heard, ok != [])
  }

  /** The loop from `o` on, with `iterations` left. */
  function Loop(o: Outcome, turns: seq<Turn>, iterations: nat, budget: nat): Outcome
    decreases iterations
  {
    if iterations == 0 then o
    else
      var (next, more) := AfterTurn(o, if turns == [] then Raised else turns[0], budget);
      if more then Loop(next, if turns == [] then [] else turns[1..], iterations - 1, budget) else next
  }

  /** `judge_node`: at most `budget + 2` iterations. */
  function Deliberated(turns: seq<Turn>, budget: nat): Outcome { Loop(NOTHING, turns, budget + 2, budget) }

  /** The decision the node leaves: what was declared, or a stated HOLD. */
  function Verdict(o: Outcome): Decision {
    if o.action.Some? then Decision(o.action.value, JudgeDeclared) else Decision(HOLD, DebateHold)
  }

  /** The loop of `judge_node`, as it runs. */
  method Deliberate(turns: seq<Turn>, budget: nat) returns (o: Outcome)
    ensures o == Deliberated(turns, budget)
  {
    hide AfterTurn;
    o := NOTHING;
    var left, i := turns, 0;
    var goOn := true;
    while i < budget + 2 && goOn
      invariant i <= budget + 2
      invariant Deliberated(turns, budget) == if goOn then Loop(o, left, budget + 2 - i, budget) else o
    {
      var turn := if left == [] then Raised else left[0];
      o, goOn := TakeTurn(o, turn, budget);
      left := if left == [] then [] else left[1..];
      i := i + 1;
    }
  }

  method TakeTurn(o: Outcome, t: Turn, budget: nat) returns (r: Outcome, more: bool)
    ensures (r, more) == AfterTurn(o, t, budget)
  {
    hide Rejected, DeclaredAction, Lookups;
    r := o.(modelCalls := o.modelCalls + 1);
    if t.Raised? {
      return r, false;
    }
    var ok, failed := Select(t.calls, IsOk), Select(t.calls, IsFailed);
    var declares, suspends, queries := Select(ok, IsDeclare), Select(ok, IsWatch), Select(ok, IsReadOnly);
    r := r.(out := r.out + [AI(t.calls, t.prose, false)] + Feedback(failed) + Notes(suspends));
    if declares != [] {
      var answers := Dispatched(declares, t.replies);
      r := r.(out := r.out + answers, ran := r.ran + declares);
      if Rejected(answers) {
        return r, true;
      }
      return r.(action := DeclaredAction(declares)), false;
    }
    if queries != [] {
      r := LookUp(r, queries, t.replies, budget);
      return r, true;
    }
    return r, ok != [];
  }

  method LookUp(o: Outcome, cs: seq<Call>, replies: seq<Reply>, budget: nat) returns (r: Outcome)
    ensures r == Lookups(o, cs, replies, budget)
  {
    hide Dispatched, Notes;
    r := o;
    for i := 0 to |cs|
      invariant r == Lookups(o, cs[..i], replies, budget)
    {
      assert cs[..i + 1][..i] == cs[..i];
      if r.lookups >= budget {
        r := r.(out := r.out + Notes([cs[i]]));
        continue;
      }
      r := r.(out := r.out + Dispatched([cs[i]], if i < |replies| then [replies[i]] else []), ran := r.ran + [cs[i]],
              lookups := r.lookups + 1);
    }
    assert cs[..|cs|] == cs;
  }

  // ── When the loop goes on ────────────────────────────────────────────────

  /** Some declaration is answered with the rejection marker. */
  predicate AnyRejected(declares: seq<Call>, replies: seq<Reply>) {
    exists j :: 0 <= j < |declares| && (if j < |replies| then replies[j] else PLAIN_REPLY).rejected
  }

  lemma RejectedIff(declares: seq<Call>, replies: seq<Reply>)
    requires forall c :: c in declares ==> IsDeclare(c)
    ensures Rejected(Dispatched(declares, replies)) <==> AnyRejected(declares, replies)
  {
    var ms := Dispatched(declares, replies);
    assert forall j :: 0 <= j < |declares| ==>
        ms[j] == Tool(declares[j].id, DECLARE, if j < |replies| then replies[j] else PLAIN_REPLY, true)
    by {
      assert forall j :: 0 <= j < |declares| ==> declares[j] in declares;
    }
    if AnyRejected(declares, replies) {
      var j :| 0 <= j < |declares| && (if j < |replies| then replies[j] else PLAIN_REPLY).rejected;
      assert ms[j].reply.rejected;
    }
  }

  /** The loop goes on after a turn exactly when the model replied with at least one well-formed call and,
      if it declared, the validator rejected one of the declarations. Refused watches count as calls, so a
      turn with nothing else does not stop it, although it is documented to. */
  lemma GoesOnIff(o: Outcome, t: Turn, budget: nat)
    ensures AfterTurn(o, t, budget).1 <==>
            && t.Said? && (exists c :: c in t.calls && IsOk(c))
            && var declares := Select(Select(t.calls, IsOk), IsDeclare);
               (declares == [] || AnyRejected(declares, t.replies))
  {
    hide Select, Rejected, AnyRejected, Lookups, DeclaredAction, Dispatched, Feedback, Notes;
    if t.Said? {
      var ok := Select(t.calls, IsOk);
      RejectedIff(Select(ok, IsDeclare), t.replies);
      assert (exists c :: c in t.calls && IsOk(c)) <==> ok != [] by {
        if ok != [] {
          assert ok[0] in ok;
        }
      }
      assert Select(ok, IsReadOnly) != [] ==> ok != [] by {
        if Select(ok, IsReadOnly) != [] {
          assert Select(ok, IsReadOnly)[0] in ok;
        }
      }
      assert Select(ok, IsDeclare) != [] ==> ok != [] by {
        if Select(ok, IsDeclare) != [] {
          assert Select(ok, IsDeclare)[0] in ok;
        }
      }
    }
  }

  const REFUSED_WATCH := Call("1", WATCH, Ok, OTHER, false, false, PLAIN_REPLY)

  /** A turn with nothing but a refused watch: it is answered, nothing is run, and the loop goes on. */
  lemma WatchOnlyGoesOn(o: Outcome, budget: nat)
    ensures AfterTurn(o, Said([REFUSED_WATCH], true, []), budget) ==
            (o.(out := o.out + [AI([REFUSED_WATCH], true, false), Tool("1", WATCH, PLAIN_REPLY, false)],
                modelCalls := o.modelCalls + 1), true)
  {
    hide Rejected, DeclaredAction, Lookups, Dispatched;
    ControlsDiffer();
    var x := REFUSED_WATCH;
    assert [x][..0] == [] && Select([], IsOk) == [] && Select([], IsWatch) == [] && Select([], IsDeclare) == [];
    assert Select([x], IsOk) == [x] && Select([x], IsWatch) == [x] && Select([x], IsDeclare) == [];
    assert Select([x], IsReadOnly) == [] && Select([x], IsFailed) == [];
    assert o.out + [AI([x], true, false)] + Feedback([]) + Notes([x]) ==
           o.out + [AI([x], true, false), Tool("1", WATCH, PLAIN_REPLY, false)];
  }

  // ── What the loop does, told from its turns ──────────────────────────────

  function DeclaresOf(t: Turn): seq<Call> {
    if t.Raised? then [] else Select(Select(t.calls, IsOk), IsDeclare)
  }

  /** The turn lets the loop go on. */
  ghost predicate KeepsGoing(t: Turn) {
    t.Said? && (exists c :: c in t.calls && IsOk(c)) && (DeclaresOf(t) == [] || AnyRejected(DeclaresOf(t), t.replies))
  }

  /** What the turn commits: the first declaration, unless one is rejected. */
  function Committed(t: Turn): Option<Action> {
    if t.Raised? || DeclaresOf(t) == [] || AnyRejected(DeclaresOf(t), t.replies) then None
    else Some(DeclaresOf(t)[0].action)
  }

  /** The look-ups the turn asks for; none beside a declaration. */
  function AsksFor(t: Turn): seq<Call> {
    if t.Raised? || DeclaresOf(t) != [] then [] else Select(Select(t.calls, IsOk), IsReadOnly)
  }

  function TurnAt(turns: seq<Turn>, i: nat): Turn { if i < |turns| then turns[i] else Raised }

  function RestOf(turns: seq<Turn>): seq<Turn> { if turns == [] then [] else turns[1..] }

  /** The look-ups the first `n` turns ask for. */
  function Asked(turns: seq<Turn>, n: nat): nat
    decreases n
  {
    if n == 0 then 0 else |AsksFor(TurnAt(turns, 0))| + Asked(RestOf(turns), n - 1)
  }

  function Min(a: nat, b: nat): nat { if a < b then a else b }

  /** Within the budget look-ups are run, in order, and past it none. */
  lemma {:induction false} LookupsCount(o: Outcome, cs: seq<Call>, replies: seq<Reply>, budget: nat)
    requires o.lookups <= budget
    ensures var r := Lookups(o, cs, replies, budget);
            r.lookups == Min(budget, o.lookups + |cs|) && r.ran == o.ran + cs[..r.lookups - o.lookups]
  {
    hide Dispatched, Notes;
    if cs == [] {
      assert o.ran + cs[..0] == o.ran;
    } else {
      var n := |cs| - 1;
      LookupsCount(o, cs[..n], replies, budget);
      var before := Lookups(o, cs[..n], replies, budget);
      var k := before.lookups - o.lookups;
      assert cs[..n][..k] == cs[..k];
      if before.lookups < budget {
        assert k == n && o.ran + cs[..n] + [cs[n]] == o.ran + cs[..n + 1];
      }
    }
  }

  lemma DeclaredFirst(cs: seq<Call>)
    requires cs != [] && IsDeclare(cs[0])
    ensures DeclaredAction(cs) == Some(cs[0].action)
  {
  }

  lemma TurnMeans(o: Outcome, t: Turn, budget: nat)
    requires o.lookups <= budget && o.action.None?
    ensures var (r, more) := AfterTurn(o, t, budget);
            && (more <==> KeepsGoing(t)) && r.action == Committed(t)
            && r.modelCalls == o.modelCalls + 1 && r.lookups == Min(budget, o.lookups + |AsksFor(t)|)
  {
    GoesOnIff(o, t, budget);
    hide Select, Rejected, AnyRejected, Lookups, DeclaredAction, Dispatched, Feedback, Notes;
    if t.Said? {
      var ok := Select(t.calls, IsOk);
      var declares, queries := Select(ok, IsDeclare), Select(ok, IsReadOnly);
      RejectedIff(declares, t.replies);
      var heard := o.(
        out := o.out + [AI(t.calls, t.prose, false)] + Feedback(Select(t.calls, IsFailed)) + Notes(Select(ok, IsWatch)),
        modelCalls := o.modelCalls + 1);
      LookupsCount(heard, queries, t.replies, budget);
      LookupsKeep(heard, queries, t.replies, budget);
      if declares != [] {
        assert declares[0] in declares;
        DeclaredFirst(declares);
      }
    }
  }

  lemma {:induction false} LookupsKeep(o: Outcome, cs: seq<Call>, replies: seq<Reply>, budget: nat)
    ensures var r := Lookups(o, cs, replies, budget); r.modelCalls == o.modelCalls && r.action == o.action
  {
    hide Dispatched, Notes;
    if cs != [] {
      LookupsKeep(o, cs[..|cs| - 1], replies, budget);
    }
  }

  lemma CommitStops(t: Turn)
    ensures Committed(t).Some? ==> !KeepsGoing(t)
  {
    hide AnyRejected, DeclaresOf;
  }

  lemma {:induction false} LoopMeans(o: Outcome, turns: seq<Turn>, iterations: nat, budget: nat)
    requires iterations > 0 && o.lookups <= budget && o.action.None?
    ensures var r := Loop(o, turns, iterations, budget);
            var n := r.modelCalls - o.modelCalls;
            && 1 <= n <= iterations
            && (forall i :: 0 <= i < n - 1 ==> KeepsGoing(TurnAt(turns, i)))
            && (n < iterations ==> !KeepsGoing(TurnAt(turns, n - 1)))
            && r.action == Committed(TurnAt(turns, n - 1))
            && r.lookups == Min(budget, o.lookups + Asked(turns, n))
    decreases iterations
  {
    hide AfterTurn, KeepsGoing, Committed, AsksFor;
    var t := TurnAt(turns, 0);
    TurnMeans(o, t, budget);
    CommitStops(t);
    var (next, more) := AfterTurn(o, t, budget);
    if more && iterations > 1 {
      LoopMeans(next, RestOf(turns), iterations - 1, budget);
      var m := Loop(next, RestOf(turns), iterations - 1, budget).modelCalls - next.modelCalls;
      assert forall i: nat :: TurnAt(turns, i + 1) == TurnAt(RestOf(turns), i);
      forall i | 0 <= i < m
        ensures KeepsGoing(TurnAt(turns, i))
      {
        if i > 0 {
          assert TurnAt(turns, i) == TurnAt(RestOf(turns), i - 1);
        }
      }
    } else {
      LoopStops(next, RestOf(turns), iterations - 1, budget, more);
      assert Asked(turns, 1) == |AsksFor(t)| + Asked(RestOf(turns), 0);
    }
  }

  lemma LoopStops(o: Outcome, turns: seq<Turn>, iterations: nat, budget: nat, more: bool)
    requires !more || iterations == 0
    ensures (if more then Loop(o, turns, iterations, budget) else o) == o
  {
  }

  /** What the node does, told from the Judge's replies: it takes turns up to the first that does not keep the
      loop going, and at most `budget + 2`; it leaves what the last of them commits, and else a stated HOLD;
      and it runs the look-ups asked for until the budget is used up. */
  lemma JudgeMeans(turns: seq<Turn>, budget: nat)
    ensures var o := Deliberated(turns, budget);
            var n := o.modelCalls;
            && 1 <= n <= budget + 2
            && (forall i :: 0 <= i < n - 1 ==> KeepsGoing(TurnAt(turns, i)))
            && (n < budget + 2 ==> !KeepsGoing(TurnAt(turns, n - 1)))
            && o.lookups == Min(budget, Asked(turns, n))
            && var last := Committed(TurnAt(turns, n - 1));
               Verdict(o) == if last.Some? then Decision(last.value, JudgeDeclared) else Decision(HOLD, DebateHold)
  {
    hide Loop, KeepsGoing, Committed, Asked;
    LoopMeans(NOTHING, turns, budget + 2, budget);
  }

  /** A turn is followed by answers to its calls, except that look-ups beside a declaration get none. */
  lemma TurnAnswers(o: Outcome, t: Turn, budget: nat)
    requires t.Said?
    ensures var ok := Select(t.calls, IsOk);
            var r := AfterTurn(o, t, budget).0;
            && o.out <= r.out
            && AnswerIds(r.out[|o.out|..]) ==
               CallIds(Select(t.calls, IsFailed)) + CallIds(Select(ok, IsWatch))
               + CallIds(if DeclaresOf(t) != [] then DeclaresOf(t) else Select(ok, IsReadOnly))
  {
    hide Select, Rejected, DeclaredAction, Dispatched, Feedback, Notes, AnswerIds, CallIds, Lookups;
    var ok := Select(t.calls, IsOk);
    var failed, watches := Select(t.calls, IsFailed), Select(ok, IsWatch);
    var said := [AI(t.calls, t.prose, false)];
    var heard := o.(out := o.out + said + Feedback(failed) + Notes(watches), modelCalls := o.modelCalls + 1);
    var a, b := Feedback(failed), Notes(watches);
    OneAnswerEach(failed, a);
    OneAnswerEach(watches, b);
    assert heard.out[|o.out|..] == said + a + b;
    assert AnswerIds(said) == multiset{} by { SaidAnswersNone(t.calls, t.prose); }
    AnswersJoin(said, a);
    AnswersJoin(said + a, b);
    if DeclaresOf(t) != [] {
      var c := Dispatched(DeclaresOf(t), t.replies);
      OneAnswerEach(DeclaresOf(t), c);
      AnswersJoin(said + a + b, c);
      assert (heard.out + c)[|o.out|..] == said + a + b + c;
    } else {
      var queries := Select(ok, IsReadOnly);
      LookupsAnswer(heard, queries, t.replies, budget);
      var r := Lookups(heard, queries, t.replies, budget);
      var c := r.out[|heard.out|..];
      AnswersJoin(said + a + b, c);
      assert r.out[|o.out|..] == heard.out[|o.out|..] + c;
      NoReadOnly(queries);
    }
  }

  lemma NoReadOnly(cs: seq<Call>)
    ensures cs == [] ==> CallIds(cs) == multiset{} && AnswerIds([]) == multiset{}
  {
  }

  lemma SaidAnswersNone(calls: seq<Call>, prose: bool)
    ensures AnswerIds([AI(calls, prose, false)]) == multiset{}
  {
    assert [AI(calls, prose, false)][..0] == [];
  }

  /** The last look-up adds one answer, to it. */
  lemma LastAnswered(o: Outcome, cs: seq<Call>, replies: seq<Reply>, budget: nat)
    requires cs != []
    ensures var n := |cs| - 1;
            var before, r := Lookups(o, cs[..n], replies, budget), Lookups(o, cs, replies, budget);
            && |r.out| == |before.out| + 1 && r.out[..|before.out|] == before.out
            && r.out[|before.out|].Tool? && r.out[|before.out|].id == cs[n].id
  {
  }

  lemma OneId(c: Call)
    ensures CallIds([c]) == multiset{c.id}
  {
    assert [c][..0] == [];
  }

  lemma {:induction false} LookupsAnswer(o: Outcome, cs: seq<Call>, replies: seq<Reply>, budget: nat)
    ensures var r := Lookups(o, cs, replies, budget);
            o.out <= r.out && AnswerIds(r.out[|o.out|..]) == CallIds(cs)
  {
    hide Dispatched, Notes, AnswerIds;
    if cs == [] {
      assert o.out[|o.out|..] == [];
      NoReadOnly([]);
    } else {
      var n := |cs| - 1;
      LookupsAnswer(o, cs[..n], replies, budget);
      LastAnswered(o, cs, replies, budget);
      hide Lookups;
      var before, r := Lookups(o, cs[..n], replies, budget), Lookups(o, cs, replies, budget);
      var answer := [r.out[|before.out|]];
      OneAnswerEach([cs[n]], answer);
      OneId(cs[n]);
      AnswersJoin(before.out[|o.out|..], answer);
      assert r.out[|o.out|..] == before.out[|o.out|..] + answer;
    }
  }

  // ── Bounds ───────────────────────────────────────────────────────────────

  /** How many of the calls are read-only look-ups. */
  function ReadOnlyCount(cs: seq<Call>): nat {
    if cs == [] then 0 else ReadOnlyCount(cs[..|cs| - 1]) + if IsReadOnly(cs[|cs| - 1]) then 1 else 0
  }

  /** Within budget, and never a watch. */
  predicate Bounded(o: Outcome, budget: nat) {
    && o.lookups <= budget && ReadOnlyCount(o.ran) == o.lookups
    && forall i :: 0 <= i < |o.ran| ==> !IsWatch(o.ran[i]) && IsOk(o.ran[i])
  }

  lemma {:induction false} LookupsBounded(o: Outcome, cs: seq<Call>, replies: seq<Reply>, budget: nat)
    requires Bounded(o, budget) && forall i :: 0 <= i < |cs| ==> IsReadOnly(cs[i]) && IsOk(cs[i])
    ensures var r := Lookups(o, cs, replies, budget);
            Bounded(r, budget) && r.modelCalls == o.modelCalls && r.action == o.action
  {
    hide Dispatched, Notes;
    if cs != [] {
      var n := |cs| - 1;
      LookupsBounded(o, cs[..n], replies, budget);
      var before := Lookups(o, cs[..n], replies, budget);
      assert (before.ran + [cs[n]])[..|before.ran|] == before.ran;
    }
  }

  lemma {:induction false} DeclaresUncounted(ran: seq<Call>, cs: seq<Call>)
    requires forall i :: 0 <= i < |cs| ==> IsDeclare(cs[i])
    ensures ReadOnlyCount(ran + cs) == ReadOnlyCount(ran)
  {
    if cs == [] {
      assert ran + cs == ran;
    } else {
      var n := |cs| - 1;
      DeclaresUncounted(ran, cs[..n]);
      assert (ran + cs)[..|ran + cs| - 1] == ran + cs[..n];
    }
  }

  lemma TurnBounded(o: Outcome, t: Turn, budget: nat)
    requires Bounded(o, budget)
    ensures Bounded(AfterTurn(o, t, budget).0, budget)
    ensures AfterTurn(o, t, budget).0.modelCalls == o.modelCalls + 1
  {
    hide Lookups, Rejected, DeclaredAction, ReadOnlyCount, Dispatched, Notes, Feedback;
    if t.Said? {
      var ok := Select(t.calls, IsOk);
      var declares, queries := Select(ok, IsDeclare), Select(ok, IsReadOnly);
      var heard := o.(
        out := o.out + [AI(t.calls, t.prose, false)] + Feedback(Select(t.calls, IsFailed)) + Notes(Select(ok, IsWatch)),
        modelCalls := o.modelCalls + 1);
      ControlsDiffer();
      DeclaresUncounted(o.ran, declares);
      LookupsBounded(heard, queries, t.replies, budget);
    }
  }

  lemma {:induction false} LoopBounded(o: Outcome, turns: seq<Turn>, iterations: nat, budget: nat)
    requires Bounded(o, budget)
    ensures var r := Loop(o, turns, iterations, budget);
            Bounded(r, budget) && r.modelCalls <= o.modelCalls + iterations
    decreases iterations
  {
    hide AfterTurn, Bounded;
    if iterations > 0 {
      TurnBounded(o, if turns == [] then Raised else turns[0], budget);
      var (next, more) := AfterTurn(o, if turns == [] then Raised else turns[0], budget);
      LoopBounded(next, if turns == [] then [] else turns[1..], iterations - 1, budget);
    }
  }

  /** A committed action is the first declaration of the last turn, none of whose declarations the
      validator rejected. */
  ghost predicate Validated(o: Outcome) {
    o.action.Some? ==>
      exists declares: seq<Call>, replies: seq<Reply>, before: seq<Msg> ::
        && o.out == before + Dispatched(declares, replies) && !Rejected(Dispatched(declares, replies))
        && declares != [] && (forall c :: c in declares ==> IsDeclare(c) && IsOk(c))
        && o.action == DeclaredAction(declares)
  }

  lemma DeclaringTurn(heard: Outcome, declares: seq<Call>, replies: seq<Reply>)
    requires declares != [] && (forall c :: c in declares ==> IsDeclare(c) && IsOk(c))
    requires !Rejected(Dispatched(declares, replies))
    ensures Validated(heard.(out := heard.out + Dispatched(declares, replies), ran := heard.ran + declares,
                             action := DeclaredAction(declares)))
  {
    hide Rejected, DeclaredAction, Dispatched, IsDeclare, IsOk;
    var o := heard.(out := heard.out + Dispatched(declares, replies), ran := heard.ran + declares,
                    action := DeclaredAction(declares));
    assert o.out == heard.out + Dispatched(declares, replies);
  }

  lemma NotDeclaring(o: Outcome)
    requires o.action.None?
    ensures Validated(o)
  {
  }

  lemma TurnValidated(o: Outcome, t: Turn, budget: nat)
    requires o.action.None?
    ensures var (r, more) := AfterTurn(o, t, budget); Validated(r) && (more ==> r.action.None?)
  {
    hide Rejected, DeclaredAction, Dispatched, Notes, Feedback, Select, Validated, Lookups;
    var r := AfterTurn(o, t, budget).0;
    if t.Said? {
      var ok := Select(t.calls, IsOk);
      var declares, queries := Select(ok, IsDeclare), Select(ok, IsReadOnly);
      var heard := o.(
        out := o.out + [AI(t.calls, t.prose, false)] + Feedback(Select(t.calls, IsFailed)) + Notes(Select(ok, IsWatch)),
        modelCalls := o.modelCalls + 1);
      LookupsKeep(heard, queries, t.replies, budget);
      if declares != [] && !Rejected(Dispatched(declares, t.replies)) {
        DeclaringTurn(heard, declares, t.replies);
      } else {
        NotDeclaring(r);
      }
    } else {
      NotDeclaring(r);
    }
  }

  lemma {:induction false} LoopValidated(o: Outcome, turns: seq<Turn>, iterations: nat, budget: nat)
    requires o.action.None?
    ensures Validated(Loop(o, turns, iterations, budget))
    decreases iterations
  {
    hide AfterTurn;
    if iterations > 0 {
      var turn := if turns == [] then Raised else turns[0];
      TurnValidated(o, turn, budget);
      var (next, more) := AfterTurn(o, turn, budget);
      if more {
        hide Validated;
        LoopValidated(next, if turns == [] then [] else turns[1..], iterations - 1, budget);
      }
    }
  }

  /** Whatever the Judge model does: at most `budget + 2` model calls, at most `budget` read-only
      executions, never a watch, and a decision at the end. */
  lemma JudgeBounded(turns: seq<Turn>, budget: nat)
    ensures var o := Deliberated(turns, budget);
            && o.modelCalls <= budget + 2
            && ReadOnlyCount(o.ran) <= budget
            && (forall i :: 0 <= i < |o.ran| ==> !IsWatch(o.ran[i]))
            && Validated(o) && (o.action.None? ==> Verdict(o) == Decision(HOLD, DebateHold))
  {
    hide Loop, Validated;
    LoopBounded(NOTHING, turns, budget + 2, budget);
    LoopValidated(NOTHING, turns, budget + 2, budget);
  }
}
