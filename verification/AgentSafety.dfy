/** What every FIND and VERIFY run keeps: one commit at the end, trades only on evidence, one devil's
    advocate; and where the documented bounds do not hold. */
module AgentSafety {
  import opened PyStrings
  import opened Messages
  import opened ToolNode
  import opened AgentRun

  // ── One commit, then the end ─────────────────────────────────────────────

  /** A run that has not ended has committed nothing; one that has ended committed exactly once. */
  ghost predicate CommitFits(s: State) {
    && (s.node == AtEnd <==> s.decision.Some?)
    && s.commits == (if s.node == AtEnd then 1 else 0)
    && (s.mode != DEBATE ==> s.phase == NoPhase && s.node != AtBull && s.node != AtBear && s.node != AtJudge)
    && (s.node == AtTools ==> LastCalls(s.messages) != [])
    && (s.node == AtAgent && s.mode == DEBATE ==> s.phase != Debating)
    && (s.node == AtTools && s.mode == DEBATE ==> s.phase == Research)
  }

  /** What `tool_node` does to the commit bookkeeping. */
  lemma ToolsCommit(c: RawSetup, s: State, inp: Input)
    ensures var s' := UseTools(c, s, inp);
            && (s.phase != Research ==> s'.phase == s.phase)
            && (s'.phase == s.phase || s'.phase == Debating)
            && (s.decision.None? ==> s'.commits == s.commits + if s'.decision.Some? then 1 else 0)
            && (s.phase == Research && s'.decision.Some? ==> s.decision.Some?)
  {
    hide DataAttempted, CoreResolved, Rejected, ResumeOf, Dispatched, Feedback, Notes;
    var calls := LastCalls(s.messages);
    var b := Before(s.messages, s.phase, s.dataSeen, s.heartbeat, s.postmortem);
    var g := Sorted(c.tools, b, inp.outside, calls);
    GatesExclude(c.tools, b, inp.outside, calls);
    if s.phase == Research {
      ResearchRunsNoDeclare(c.tools, b, inp.outside, calls);
      NoDeclareNoAction(g.run);
    }
    hide Select, Held, Passed;
  }

  lemma ResearchRunsNoDeclare(t: Tools, b: Before, o: Outside, calls: seq<Call>)
    requires b.phase == Research
    ensures forall x :: x in Sorted(t, b, o, calls).run ==> !IsDeclare(x)
    ensures Sorted(t, b, o, calls).blocked == []
  {
    hide Sorted, HeartbeatGateUp;
    RunFromCalls(t, b, o, calls);
    forall x | x in Sorted(t, b, o, calls).run
      ensures !IsDeclare(x)
    {
      DispatchedIff(t, b, o, calls, x);
    }
    NoneBlocked(t, b, o, calls);
  }

  lemma NoneBlocked(t: Tools, b: Before, o: Outside, calls: seq<Call>)
    requires b.phase == Research
    ensures Sorted(t, b, o, calls).blocked == []
  {
    hide HeartbeatGateUp, RearmGateUp, Select;
    SelectNone(Passed(true, Select(calls, IsOk), NotDeclare), IsDeclare);
  }

  lemma {:induction false} NoDeclareNoAction(cs: seq<Call>)
    requires forall x :: x in cs ==> !IsDeclare(x)
    ensures DeclaredAction(cs).None?
  {
    if cs != [] {
      NoDeclareNoAction(cs[1..]);
    }
  }

  lemma StepCommits(c: RawSetup, s: State, inp: Input)
    requires ValidSetup(c) && CommitFits(s)
    ensures CommitFits(Step(c, s, inp))
  {
    hide UseTools, ViewHasData, AdvocateDue, HasLiveWatch, Judge.Deliberated, Judge.Verdict, Select, Notes;
    if s.node == AtTools {
      ToolsCommit(c, s, inp);
      UseToolsCounts(c, s, inp);
    }
  }

  lemma {:induction false} RunCommits(c: RawSetup, mode: Mode, opening: seq<Msg>, ins: seq<Input>)
    requires ValidSetup(c)
    ensures CommitFits(Run(c, mode, opening, ins))
  {
    hide Step, CommitFits;
    if ins == [] {
      FreshCommits(mode, opening);
    } else {
      RunCommits(c, mode, opening, ins[..|ins| - 1]);
      StepCommits(c, Run(c, mode, opening, ins[..|ins| - 1]), ins[|ins| - 1]);
    }
  }

  lemma FreshCommits(mode: Mode, opening: seq<Msg>)
    ensures CommitFits(Fresh(mode, opening))
  {
  }

  /** In every run from a fresh thread, in every mode, a decision is there exactly when the run has
      ended, and then it was committed exactly once, by the last step taken. */
  lemma OneCommitAtTheEnd(c: RawSetup, mode: Mode, opening: seq<Msg>, ins: seq<Input>, inp: Input)
    requires ValidSetup(c)
    ensures var s, s' := Run(c, mode, opening, ins), Run(c, mode, opening, ins + [inp]);
            && (s.node == AtEnd <==> s.decision.Some?) && s.commits == (if s.node == AtEnd then 1 else 0)
            && (s'.commits > s.commits ==> s'.node == AtEnd && s.decision.None? && s'.decision.Some?)
            && (s.node == AtEnd ==> s' == s)
  {
    hide Step;
    RunCommits(c, mode, opening, ins);
    RunCommits(c, mode, opening, ins + [inp]);
    assert (ins + [inp])[..|ins|] == ins;
    if Run(c, mode, opening, ins).node == AtEnd {
      EndStays(c, Run(c, mode, opening, ins), inp);
    }
  }

  lemma EndStays(c: RawSetup, s: State, inp: Input)
    requires s.node == AtEnd
    ensures Step(c, s, inp) == s
  {
  }

  // ── Trades rest on evidence ──────────────────────────────────────────────

  predicate IsTrade(d: Decision) { d.action == BUY || d.action == SELL }

  /** What a commit inside `tool_node` means. */
  lemma CommitMeans(t: Tools, b: Before, o: Outside, calls: seq<Call>)
    ensures var u := Answered(t, b, o, calls);
            u.decision.Some? ==>
              || (u.decision.value == Decision(HOLD, DataGating) && !b.dataSeen && DataAttempted(t, b.messages))
              || (&& u.decision.value.source == Declared && b.dataSeen && b.phase != Research && !Rejected(u.out)
                  && exists x :: x in calls && IsOk(x) && IsDeclare(x) && x.action == u.decision.value.action
                                 && (HeartbeatGateUp(t, b, o) ==> x.directional))
  {
    hide DataAttempted, CoreResolved, Rejected, ResumeOf, Dispatched, Feedback, Notes, HeartbeatGateUp;
    var g := Sorted(t, b, o, calls);
    GatesExclude(t, b, o, calls);
    forall x | x in g.run
      ensures x in calls && IsOk(x) && (IsDeclare(x) && HeartbeatGateUp(t, b, o) ==> x.directional)
    {
      RunFromCalls(t, b, o, calls);
      DispatchedIff(t, b, o, calls, x);
    }
    DeclaredIsThere(g.run);
    if b.phase == Research {
      ResearchRunsNoDeclare(t, b, o, calls);
      NoDeclareNoAction(g.run);
    } else if !b.dataSeen {
      BlockedRunsNoDeclare(t, b, o, calls);
      NoDeclareNoAction(g.run);
    }
    hide Sorted, DeclaredAction;
  }

  /** A message whose declaration is committed gets answers and nothing else. */
  lemma DeclaredOnlyAnswers(t: Tools, b: Before, o: Outside, calls: seq<Call>)
    ensures var u := Answered(t, b, o, calls);
            u.decision.Some? && u.decision.value.source == Declared ==> forall i :: 0 <= i < |u.out| ==> u.out[i].Tool?
  {
    hide DataAttempted, Rejected, ResumeOf, DeclaredAction, Sorted;
  }

  lemma BlockedRunsNoDeclare(t: Tools, b: Before, o: Outside, calls: seq<Call>)
    requires !b.dataSeen
    ensures forall x :: x in Sorted(t, b, o, calls).run ==> !IsDeclare(x)
  {
    hide Sorted, HeartbeatGateUp;
    RunFromCalls(t, b, o, calls);
    forall x | x in Sorted(t, b, o, calls).run
      ensures !IsDeclare(x)
    {
      DispatchedIff(t, b, o, calls, x);
    }
  }

  lemma PassedFrom(up: bool, cs: seq<Call>, p: Call -> bool)
    ensures forall x :: x in Passed(up, cs, p) ==> x in cs
  {
    hide Select;
  }

  /** Only well-formed calls of the message are run. */
  lemma RunFromCalls(t: Tools, b: Before, o: Outside, calls: seq<Call>)
    ensures forall x :: x in Sorted(t, b, o, calls).run ==> x in calls && IsOk(x)
  {
    hide HeartbeatGateUp, Passed, Held, Select;
    var ok := Select(calls, IsOk);
    var ok1 := Passed(b.phase == Research, ok, NotDeclare);
    var ok2 := Passed(!b.dataSeen, ok1, NotDeclare);
    var ok3 := Passed(HeartbeatGateUp(t, b, o), ok2, NotStandAside);
    PassedFrom(b.phase == Research, ok, NotDeclare);
    PassedFrom(!b.dataSeen, ok1, NotDeclare);
    PassedFrom(HeartbeatGateUp(t, b, o), ok2, NotStandAside);
    PassedFrom(RearmGateUp(b), ok3, NotRepeat);
  }

  lemma {:induction false} DeclaredIsThere(cs: seq<Call>)
    ensures DeclaredAction(cs).Some? ==> exists x :: x in cs && IsDeclare(x) && x.action == DeclaredAction(cs).value
  {
    if cs != [] {
      DeclaredIsThere(cs[1..]);
      if IsDeclare(cs[0]) {
        assert cs[0] in cs;
      }
    }
  }

  /** Usable market data strictly before position `k`. */
  ghost predicate DataBefore(t: Tools, ms: seq<Msg>, k: nat) {
    exists i :: 0 <= i < k && i < |ms| && IsData(t, ms[i])
  }

  /** The assistant message at `k` declares the action, nothing but answers comes after it, every call on
      it is answered there, none of those answers rejects a declaration, and there was usable market data
      before it. */
  ghost predicate DeclaredAt(t: Tools, ms: seq<Msg>, action: Action, k: nat) {
    && k < |ms|
    && (exists x :: x in CallsOf(ms[k]) && IsOk(x) && IsDeclare(x) && x.action == action)
    && (forall i :: k < i < |ms| ==> ms[i].Tool?)
    && AnswerIds(ms[k + 1..]) == CallIds(CallsOf(ms[k])) && !Rejected(ms[k + 1..])
    && DataBefore(t, ms, k)
  }

  /** The data the run has seen, and the grounds of a committed trade. */
  ghost predicate EvidenceFits(c: RawSetup, s: State) {
    && (s.node == AtTools ==> s.messages != [])
    && (s.dataSeen ==> DataBefore(c.tools, s.messages, if s.node == AtTools then |s.messages| - 1 else |s.messages|))
    && (s.decision.Some? && IsTrade(s.decision.value) ==>
          exists k: nat :: DeclaredAt(c.tools, s.messages, s.decision.value.action, k))
  }

  lemma DataKept(t: Tools, ms: seq<Msg>, more: seq<Msg>, k: nat)
    requires DataBefore(t, ms, k)
    ensures forall j: nat :: j >= k ==> DataBefore(t, ms + more, j)
  {
    var i :| 0 <= i < k && i < |ms| && IsData(t, ms[i]);
    assert (ms + more)[i] == ms[i];
  }

  lemma ModelEvidence(c: RawSetup, s: State, inp: Input)
    requires s.node == AtAgent && EvidenceFits(c, s) && s.decision.None?
    ensures EvidenceFits(c, Step(c, s, inp))
  {
    hide HasLiveWatch, DataSeen, IsData;
    var next := CallModel(c, s, inp);
    var shown := next.messages[..|next.messages| - 1];
    assert next.messages == shown + [AI(inp.calls, inp.prose, false)];
    if s.dataSeen {
      var more := next.messages[|s.messages|..];
      assert next.messages == s.messages + more;
      DataKept(c.tools, s.messages, more, |s.messages|);
    } else if next.dataSeen {
      var i :| 0 <= i < |shown| && i in inp.kept && IsData(c.tools, shown[i]);
      assert next.messages[i] == shown[i];
    }
  }

  lemma ToolsEvidence(c: RawSetup, s: State, inp: Input)
    requires s.node == AtTools && EvidenceFits(c, s) && s.decision.None?
    ensures EvidenceFits(c, Step(c, s, inp))
  {
    hide IsData, Rejected, AnswerIds, CallIds;
    var ms, calls := s.messages, LastCalls(s.messages);
    var b := Before(ms, s.phase, s.dataSeen, s.heartbeat, s.postmortem);
    var u := Answered(c.tools, b, inp.outside, calls);
    CommitMeans(c.tools, b, inp.outside, calls);
    DeclaredOnlyAnswers(c.tools, b, inp.outside, calls);
    EveryCallAnswered(c.tools, b, inp.outside, calls);
    UseToolsCounts(c, s, inp);
    hide ToolNode.Answered;
    var k := |ms| - 1;
    if s.dataSeen {
      DataKept(c.tools, ms, u.out, k);
    }
    var next := UseTools(c, s, inp);
    assert next.messages == ms + u.out;
    assert next.messages[k] == ms[k] && next.messages[k + 1..] == u.out;
    if u.decision.Some? && IsTrade(u.decision.value) {
      assert DeclaredAt(c.tools, next.messages, u.decision.value.action, k);
    }
  }

  lemma StepEvidence(c: RawSetup, s: State, inp: Input)
    requires ValidSetup(c) && s.mode != DEBATE && CommitFits(s) && EvidenceFits(c, s)
    ensures EvidenceFits(c, Step(c, s, inp))
  {
    if s.node == AtAgent {
      ModelEvidence(c, s, inp);
    } else if s.node == AtTools {
      ToolsEvidence(c, s, inp);
    } else if s.node == AtForceHold || s.node == AtForceTerminal {
      hide IsData, DeclaredAt, Select, Notes;
      var s' := Step(c, s, inp);
      if s.dataSeen {
        var more := s'.messages[|s.messages|..];
        assert s'.messages == s.messages + more;
        DataKept(c.tools, s.messages, more, |s.messages|);
      }
    }
  }

  lemma {:induction false} RunEvidence(c: RawSetup, mode: Mode, opening: seq<Msg>, ins: seq<Input>)
    requires ValidSetup(c) && mode != DEBATE
    ensures EvidenceFits(c, Run(c, mode, opening, ins)) && Run(c, mode, opening, ins).mode == mode
  {
    hide Step, EvidenceFits, CommitFits;
    if ins == [] {
      FreshEvidence(c, mode, opening);
    } else {
      var init := ins[..|ins| - 1];
      RunEvidence(c, mode, opening, init);
      RunCommits(c, mode, opening, init);
      StepEvidence(c, Run(c, mode, opening, init), ins[|ins| - 1]);
      ModeKept(c, Run(c, mode, opening, init), ins[|ins| - 1]);
    }
  }

  lemma ModeKept(c: RawSetup, s: State, inp: Input)
    ensures Step(c, s, inp).mode == s.mode
  {
    hide UseTools, ViewHasData, AdvocateDue, HasLiveWatch, Judge.Deliberated, Judge.Verdict, Select, Notes;
    UseToolsCounts(c, s, inp);
  }

  lemma FreshEvidence(c: RawSetup, mode: Mode, opening: seq<Msg>)
    ensures EvidenceFits(c, Fresh(mode, opening))
  {
  }

  /** In a FIND or VERIFY run that ended with BUY or SELL, some assistant message declared that action,
      all its calls were answered without a rejection, only those answers followed it, and a market-data
      answer that passes for usable stood in the history before it. */
  lemma {:induction false} TradesAreGrounded(c: RawSetup, mode: Mode, opening: seq<Msg>, ins: seq<Input>)
    requires ValidSetup(c) && mode != DEBATE
    requires var d := Run(c, mode, opening, ins).decision; d.Some? && IsTrade(d.value)
    ensures var s := Run(c, mode, opening, ins);
            exists k: nat :: DeclaredAt(c.tools, s.messages, s.decision.value.action, k)
  {
    hide Run, DeclaredAt;
    RunEvidence(c, mode, opening, ins);
  }
}
