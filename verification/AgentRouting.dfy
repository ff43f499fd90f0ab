/** Where a run goes next, told from what the model, the tools and the hunt predicates have put in: the
    exact conditions behind the routers, the counters and the latches. */
module AgentRouting {
  import opened PyStrings
  import opened Messages
  import opened ToolNode
  import opened AgentRun
  import opened AgentSafety
  import opened AgentLimits
  import Judge

  // ── The reasoning budget ─────────────────────────────────────────────────

  /** The last input was an agent turn of prose. */
  predicate EndsInProse(c: RawSetup, mode: Mode, opening: seq<Msg>, ins: seq<Input>) {
    ins != [] && Run(c, mode, opening, ins[..|ins| - 1]).node == AtAgent && ins[|ins| - 1].calls == []
  }

  /** How many of the last inputs, without a gap, were agent turns of prose. */
  function ProseStreak(c: RawSetup, mode: Mode, opening: seq<Msg>, ins: seq<Input>): nat {
    if EndsInProse(c, mode, opening, ins) then ProseStreak(c, mode, opening, ins[..|ins| - 1]) + 1 else 0
  }

  /** In the hunt the reasoning counter is that number. */
  ghost predicate StreakFits(s: State, streak: nat) {
    s.node == AtAgent || s.node == AtTools || s.node == AtForceHold ==> s.reasoning == streak
  }

  lemma StreakStep(c: RawSetup, s: State, inp: Input, streak: nat)
    requires ValidSetup(c) && TurnsFit(c, s) && CommitFits(s) && StreakFits(s, streak)
    ensures StreakFits(Step(c, s, inp), if s.node == AtAgent && inp.calls == [] then streak + 1 else 0)
  {
    hide UseTools, ViewHasData, AdvocateDue, HasLiveWatch, Judge.Deliberated, Judge.Verdict, Select, Notes;
    if s.node == AtTools {
      ToolsCommit(c, s, inp);
      UseToolsCounts(c, s, inp);
    }
  }

  lemma {:induction false} RunStreak(c: RawSetup, mode: Mode, opening: seq<Msg>, ins: seq<Input>)
    requires ValidSetup(c)
    ensures StreakFits(Run(c, mode, opening, ins), ProseStreak(c, mode, opening, ins))
  {
    hide Step, StreakFits, TurnsFit, CommitFits;
    if ins == [] {
      FreshStreak(mode, opening);
    } else {
      var init := ins[..|ins| - 1];
      RunStreak(c, mode, opening, init);
      RunTurns(c, mode, opening, init);
      RunCommits(c, mode, opening, init);
      StreakStep(c, Run(c, mode, opening, init), ins[|ins| - 1], ProseStreak(c, mode, opening, init));
    }
  }

  lemma FreshStreak(mode: Mode, opening: seq<Msg>)
    ensures StreakFits(Fresh(mode, opening), 0)
  {
  }

  /** What a streak says about the inputs themselves. */
  lemma {:induction false} StreakMeans(c: RawSetup, mode: Mode, opening: seq<Msg>, ins: seq<Input>)
    ensures var n := ProseStreak(c, mode, opening, ins);
            && n <= |ins|
            && (forall i :: |ins| - n <= i < |ins| ==>
                  Run(c, mode, opening, ins[..i]).node == AtAgent && ins[i].calls == [])
            && (n < |ins| ==>
                  var i := |ins| - n - 1; !(Run(c, mode, opening, ins[..i]).node == AtAgent && ins[i].calls == []))
  {
    hide Run;
    if EndsInProse(c, mode, opening, ins) {
      var init := ins[..|ins| - 1];
      StreakMeans(c, mode, opening, init);
      assert forall i :: 0 <= i < |init| ==> init[..i] == ins[..i] && init[i] == ins[i];
    }
  }

  /** Where an agent turn leads, in every run. With calls: to the tools, or to the forced end if it arms a
      watch past the cap. Without: to the forced end if the session budget is spent, back to the agent while
      the turns of prose in a row are fewer than the reasoning budget, and else to the debate in DEBATE and to
      the forced HOLD in the other modes. */
  lemma NextAfterTurn(c: RawSetup, mode: Mode, opening: seq<Msg>, ins: seq<Input>, inp: Input)
    requires ValidSetup(c) && Run(c, mode, opening, ins).node == AtAgent
    ensures Run(c, mode, opening, ins + [inp]).node ==
            if inp.calls != [] then
              (if inp.capReached && (exists x :: x in inp.calls && IsOk(x) && IsWatch(x)) then AtForceTerminal
               else AtTools)
            else if inp.budgetSpent then AtForceTerminal
            else if ProseStreak(c, mode, opening, ins) + 1 < c.budget then AtAgent
            else if mode == DEBATE then AtBull
            else AtForceHold
  {
    var s := Run(c, mode, opening, ins);
    assert (ins + [inp])[..|ins|] == ins;
    RunStreak(c, mode, opening, ins);
    RunTurns(c, mode, opening, ins);
    RunCommits(c, mode, opening, ins);
    RunMode(c, mode, opening, ins);
    hide Run, ProseStreak, ViewHasData, AdvocateDue, HasLiveWatch;
    var next := CallModel(c, s, inp);
    assert LastCalls(next.messages) == inp.calls;
    LiveWatchIff(inp.calls);
  }

  lemma LiveWatchIff(calls: seq<Call>)
    ensures HasLiveWatch(calls) <==> exists x :: x in calls && IsOk(x) && IsWatch(x)
  {
  }

  /** The step at `j` is forced to hold: `budget` turns of prose in a row, the session budget not spent. */
  predicate OutOfProse(c: RawSetup, mode: Mode, opening: seq<Msg>, ins: seq<Input>) {
    EndsInProse(c, mode, opening, ins) && !ins[|ins| - 1].budgetSpent && ProseStreak(c, mode, opening, ins) == c.budget
  }

  lemma StreakBelow(c: RawSetup, mode: Mode, opening: seq<Msg>, ins: seq<Input>)
    requires ValidSetup(c) && Run(c, mode, opening, ins).node == AtAgent
    ensures ProseStreak(c, mode, opening, ins) < c.budget
  {
    hide Run;
    RunStreak(c, mode, opening, ins);
    RunTurns(c, mode, opening, ins);
  }

  lemma OnlyAgentHolds(c: RawSetup, s: State, inp: Input)
    requires CommitFits(s) && Step(c, s, inp).node == AtForceHold
    ensures s.node == AtAgent
  {
    hide UseTools, CallModel, ShouldContinue, Judge.Deliberated, Judge.Verdict, Select, Notes;
  }

  /** A run stands before its forced HOLD exactly when the last `budget` inputs were turns of prose. */
  lemma ForcedHoldIff(c: RawSetup, mode: Mode, opening: seq<Msg>, ins: seq<Input>)
    requires ValidSetup(c)
    ensures Run(c, mode, opening, ins).node == AtForceHold <==> mode != DEBATE && OutOfProse(c, mode, opening, ins)
  {
    hide Step, CommitFits;
    if ins != [] {
      var init, inp := ins[..|ins| - 1], ins[|ins| - 1];
      assert ins == init + [inp];
      RunCommits(c, mode, opening, init);
      if Run(c, mode, opening, init).node == AtAgent {
        NextAfterTurn(c, mode, opening, init, inp);
        StreakBelow(c, mode, opening, init);
      } else if Run(c, mode, opening, ins).node == AtForceHold {
        OnlyAgentHolds(c, Run(c, mode, opening, init), inp);
      }
    }
  }

  const FORCED_HOLD := Decision(HOLD, ForcedHold)

  /** Which steps leave a forced HOLD behind. */
  lemma HoldStep(c: RawSetup, s: State, inp: Input)
    requires CommitFits(s)
    ensures Step(c, s, inp).decision == Some(FORCED_HOLD) <==> s.decision == Some(FORCED_HOLD) || s.node == AtForceHold
  {
    hide ViewHasData, AdvocateDue, ShouldContinue, RouteDebate, Judge.Deliberated, Select, Notes;
    if s.node == AtTools {
      hide ToolNode.Answered, LastCalls;
      CommitMeans(c.tools, Before(s.messages, s.phase, s.dataSeen, s.heartbeat, s.postmortem), inp.outside,
                  LastCalls(s.messages));
    }
  }

  /** A forced HOLD is committed exactly when `budget` turns of prose in a row came just before it. */
  lemma {:induction false} ForcedHoldCommittedIff(c: RawSetup, mode: Mode, opening: seq<Msg>, ins: seq<Input>)
    requires ValidSetup(c)
    ensures Run(c, mode, opening, ins).decision == Some(FORCED_HOLD) <==>
            mode != DEBATE && exists j :: 0 <= j < |ins| && OutOfProse(c, mode, opening, ins[..j])
  {
    hide Step, CommitFits, OutOfProse;
    if ins != [] {
      var init := ins[..|ins| - 1];
      ForcedHoldCommittedIff(c, mode, opening, init);
      RunCommits(c, mode, opening, init);
      HoldStep(c, Run(c, mode, opening, init), ins[|ins| - 1]);
      ForcedHoldIff(c, mode, opening, init);
      assert forall j :: 0 <= j < |init| ==> init[..j] == ins[..j];
      if exists j :: 0 <= j < |ins| && OutOfProse(c, mode, opening, ins[..j]) {
        var j :| 0 <= j < |ins| && OutOfProse(c, mode, opening, ins[..j]);
        assert j < |init| ==> OutOfProse(c, mode, opening, init[..j]);
      }
      if exists j :: 0 <= j < |init| && OutOfProse(c, mode, opening, init[..j]) {
        var j :| 0 <= j < |init| && OutOfProse(c, mode, opening, init[..j]);
        assert OutOfProse(c, mode, opening, ins[..j]);
      }
    }
  }

  // ── After the tools ──────────────────────────────────────────────────────

  /** The message has a well-formed declaration. */
  ghost predicate Declared(calls: seq<Call>) {
    exists x :: x in calls && IsOk(x) && IsDeclare(x)
  }

  /** Research is handed off exactly by a well-formed declaration. */
  lemma HandOffIff(t: Tools, b: Before, o: Outside, calls: seq<Call>)
    ensures Answered(t, b, o, calls).handOff <==> b.phase == Research && Declared(calls)
  {
    hide DataAttempted, Rejected, ResumeOf, DeclaredAction, HeartbeatGateUp, RearmGateUp, Dispatched, Feedback, Notes,
      Sorted;
    var g := Sorted(t, b, o, calls);
    GatedFromCalls(t, b, o, calls);
    if g.research != [] {
      DispatchedIff(t, b, o, calls, g.research[0]);
    }
    if b.phase == Research && Declared(calls) {
      var x :| x in calls && IsOk(x) && IsDeclare(x);
      DispatchedIff(t, b, o, calls, x);
    }
  }

  /** The data-limitation HOLD is committed exactly for a declaration before any usable data, outside
      research, once a market-data tool has been tried. */
  lemma GatingHoldIff(t: Tools, b: Before, o: Outside, calls: seq<Call>)
    ensures Answered(t, b, o, calls).decision == Some(Decision(HOLD, DataGating)) <==>
            b.phase != Research && !b.dataSeen && DataAttempted(t, b.messages) && Declared(calls)
  {
    hide DataAttempted, Rejected, ResumeOf, DeclaredAction, HeartbeatGateUp, RearmGateUp, Dispatched, Feedback, Notes,
      Sorted;
    var g := Sorted(t, b, o, calls);
    GatedFromCalls(t, b, o, calls);
    GatesExclude(t, b, o, calls);
    if g.blocked != [] {
      DispatchedIff(t, b, o, calls, g.blocked[0]);
    }
    if b.phase != Research && !b.dataSeen && Declared(calls) {
      var x :| x in calls && IsOk(x) && IsDeclare(x);
      DispatchedIff(t, b, o, calls, x);
    }
  }

  function StateFor(s: State): Before {
    Before(s.messages, s.phase, s.dataSeen, s.heartbeat, s.postmortem)
  }

  lemma ToolsRoute(c: RawSetup, s: State, inp: Input)
    requires CommitFits(s) && s.node == AtTools
    ensures var u := Answered(c.tools, StateFor(s), inp.outside, LastCalls(s.messages));
            Step(c, s, inp).node ==
            if u.decision.Some? then AtEnd else if s.phase == Debating || u.handOff then AtBull else AtAgent
  {
    hide ToolNode.Answered, LastCalls;
  }

  /** Where the tools lead, in every run: in DEBATE to the debate exactly when the message declares, and else
      back to the agent; in the other modes to the end exactly when a decision is committed. */
  lemma NextAfterTools(c: RawSetup, mode: Mode, opening: seq<Msg>, ins: seq<Input>, inp: Input)
    requires ValidSetup(c) && Run(c, mode, opening, ins).node == AtTools
    ensures var s, next := Run(c, mode, opening, ins), Run(c, mode, opening, ins + [inp]);
            var calls := LastCalls(s.messages);
            next.node ==
            if mode == DEBATE then (if Declared(calls) then AtBull else AtAgent)
            else if Answered(c.tools, StateFor(s), inp.outside, calls).decision.Some? then AtEnd
            else AtAgent
  {
    assert (ins + [inp])[..|ins|] == ins;
    var s := Run(c, mode, opening, ins);
    RunCommits(c, mode, opening, ins);
    RunMode(c, mode, opening, ins);
    hide Run, Step, ToolNode.Answered, LastCalls, Declared;
    ToolsRoute(c, s, inp);
    HandOffIff(c.tools, StateFor(s), inp.outside, LastCalls(s.messages));
    if mode == DEBATE {
      assert s.phase == Research;
      CommitMeans(c.tools, StateFor(s), inp.outside, LastCalls(s.messages));
      GatingHoldIff(c.tools, StateFor(s), inp.outside, LastCalls(s.messages));
    }
  }

  /** What a step decides: the forced ends a HOLD each, the Judge its verdict, the tools what a declaration or the
      data gate commits; the other nodes decide nothing. */
  lemma StepDecides(c: RawSetup, s: State, inp: Input)
    requires CommitFits(s)
    ensures Step(c, s, inp).decision ==
            match s.node
            case AtForceTerminal => Some(Decision(HOLD, ForcedTerminal))
            case AtForceHold => Some(Decision(HOLD, ForcedHold))
            case AtJudge => Some(Judge.Verdict(Judge.Deliberated(inp.judge, c.judgeBudget)))
            case AtTools => Answered(c.tools, StateFor(s), inp.outside, LastCalls(s.messages)).decision
            case _ => s.decision
  {
    hide ToolNode.Answered, LastCalls, ViewHasData, AdvocateDue, ShouldContinue, RouteDebate, Judge.Deliberated,
      Judge.Verdict, Select, Notes;
  }

  // ── The latches ──────────────────────────────────────────────────────────

  /** The turn at `j` shows the model usable market data. */
  predicate ShowsData(c: RawSetup, s: State, inp: Input) {
    s.node == AtAgent && ViewHasData(c.tools, s.messages, inp.kept)
  }

  lemma SeenStep(c: RawSetup, s: State, inp: Input)
    ensures Step(c, s, inp).dataSeen <==> s.dataSeen || ShowsData(c, s, inp)
  {
    hide UseTools, ShouldContinue, RouteAfterTools, RouteDebate, Judge.Deliberated, Judge.Verdict, Select, Notes,
      AdvocateDue;
    UseToolsCounts(c, s, inp);
    if s.node == AtAgent {
      AdvocateIsNoData(c.tools, s.messages, inp.kept);
    }
  }

  lemma AdvocateIsNoData(t: Tools, ms: seq<Msg>, kept: set<nat>)
    ensures ViewHasData(t, ms + [ADVOCATE], kept) <==> ViewHasData(t, ms, kept)
  {
    var all := ms + [ADVOCATE];
    if ViewHasData(t, ms, kept) {
      var i :| 0 <= i < |ms| && i in kept && IsData(t, ms[i]);
      assert all[i] == ms[i];
    }
    if ViewHasData(t, all, kept) {
      var i :| 0 <= i < |all| && i in kept && IsData(t, all[i]);
      assert all[i] == ms[i];
    }
  }

  /** Data counts as seen from the first agent turn on whose view shows any. */
  lemma {:induction false} DataSeenIff(c: RawSetup, mode: Mode, opening: seq<Msg>, ins: seq<Input>)
    ensures Run(c, mode, opening, ins).dataSeen <==>
            exists j :: 0 <= j < |ins| && ShowsData(c, Run(c, mode, opening, ins[..j]), ins[j])
  {
    hide Step, ShowsData;
    if ins != [] {
      var init := ins[..|ins| - 1];
      DataSeenIff(c, mode, opening, init);
      SeenStep(c, Run(c, mode, opening, init), ins[|ins| - 1]);
      hide Run;
      assert forall j :: 0 <= j < |init| ==> init[..j] == ins[..j] && init[j] == ins[j];
      assert ins[..|init|] == init;
      if j :| 0 <= j < |init| && ShowsData(c, Run(c, mode, opening, init[..j]), init[j]) {
        assert ShowsData(c, Run(c, mode, opening, ins[..j]), ins[j]);
      }
      if j :| 0 <= j < |ins| && ShowsData(c, Run(c, mode, opening, ins[..j]), ins[j]) {
        assert j < |init| ==> ShowsData(c, Run(c, mode, opening, init[..j]), init[j]);
      }
    }
  }

  /** An agent turn of VERIFY that starts with data there. */
  predicate ReadyForAdvocate(c: RawSetup, s: State) {
    s.node == AtAgent && s.mode == VERIFY && (s.dataSeen || DataSeen(c.tools, s.messages))
  }

  lemma AdvocateStep(c: RawSetup, s: State, inp: Input)
    requires AdvocateFits(s)
    ensures Step(c, s, inp).advocates == if s.advocates == 0 && ReadyForAdvocate(c, s) then 1 else s.advocates
  {
    hide UseTools, ViewHasData, DataSeen, ShouldContinue, RouteAfterTools, RouteDebate, Judge.Deliberated,
      Judge.Verdict, Select, Notes, LastCalls;
    UseToolsCounts(c, s, inp);
  }

  /** The devil's advocate speaks, once, exactly when some agent turn of a VERIFY run starts with data there. */
  lemma {:induction false} AdvocateSpeaksIff(c: RawSetup, mode: Mode, opening: seq<Msg>, ins: seq<Input>)
    ensures Run(c, mode, opening, ins).advocates ==
            if exists j :: 0 <= j < |ins| && ReadyForAdvocate(c, Run(c, mode, opening, ins[..j])) then 1 else 0
  {
    hide Step, ReadyForAdvocate, AdvocateFits, AdvocateGrounded;
    if ins != [] {
      var init := ins[..|ins| - 1];
      AdvocateSpeaksIff(c, mode, opening, init);
      AdvocateOnce(c, mode, opening, init);
      AdvocateStep(c, Run(c, mode, opening, init), ins[|ins| - 1]);
      assert forall j :: 0 <= j < |init| ==> init[..j] == ins[..j];
      assert ins[..|init|] == init;
    }
  }

  // ── Wakes ────────────────────────────────────────────────────────────────

  /** A watch result that starts with a resume marker. */
  predicate IsWake(m: Msg) { m.Tool? && m.name == WATCH && !m.reply.marker.NoMarker? }

  /** Message `i` is the first wake. */
  predicate FirstWake(ms: seq<Msg>, i: nat) {
    i < |ms| && IsWake(ms[i]) && forall j :: 0 <= j < i ==> !IsWake(ms[j])
  }

  lemma {:induction false} ResumeMeans(ms: seq<Msg>)
    ensures ResumeOf(ms).NoResume? <==> forall i :: 0 <= i < |ms| ==> !IsWake(ms[i])
    ensures forall i: nat :: FirstWake(ms, i) ==>
              ResumeOf(ms) == if ms[i].reply.marker.Invalidated? then AfterInvalidation else AfterHeartbeat
  {
    if ms != [] && !IsWake(ms[0]) {
      ResumeMeans(ms[1..]);
      forall i: nat | FirstWake(ms, i)
        ensures ResumeOf(ms) == if ms[i].reply.marker.Invalidated? then AfterInvalidation else AfterHeartbeat
      {
        assert FirstWake(ms[1..], i - 1);
      }
      assert forall i :: 1 <= i < |ms| ==> ms[i] == ms[1..][i - 1];
    }
  }

  lemma {:induction false} ResumeJoin(a: seq<Msg>, b: seq<Msg>)
    requires forall i :: 0 <= i < |b| ==> !IsWake(b[i])
    ensures ResumeOf(a + b) == ResumeOf(a)
  {
    if a == [] {
      assert a + b == b;
      ResumeMeans(b);
    } else {
      assert (a + b)[1..] == a[1..] + b;
      ResumeJoin(a[1..], b);
    }
  }

  /** The wake a message's answers bring: that of the first watch result with a marker, if any. */
  lemma WakeMeans(t: Tools, b: Before, o: Outside, calls: seq<Call>)
    ensures var u := Answered(t, b, o, calls);
            && (u.resume.NoResume? <==> forall i :: 0 <= i < |u.out| ==> !IsWake(u.out[i]))
            && forall i: nat :: FirstWake(u.out, i) ==>
                 u.resume == if u.out[i].reply.marker.Invalidated? then AfterInvalidation else AfterHeartbeat
  {
    hide DataAttempted, Rejected, ResumeOf, DeclaredAction, Sorted, Notes, Dispatched, Feedback, FirstWake;
    var g, u := Sorted(t, b, o, calls), Answered(t, b, o, calls);
    var base := Dispatched(g.run, o.replies) + Feedback(g.failed) + Notes(g.repeats);
    NotesNoWake(g.research);
    NotesNoWake(g.blocked);
    NotesNoWake(g.gated);
    ResumeJoin(base, Notes(g.research));
    ResumeJoin(base, Notes(g.blocked));
    ResumeJoin(base, Notes(g.gated));
    ResumeJoin(base + Notes(g.blocked), [CLOSING]);
    ResumeMeans(u.out);
  }

  lemma NotesNoWake(cs: seq<Call>)
    ensures forall i :: 0 <= i < |Notes(cs)| ==> !IsWake(Notes(cs)[i])
  {
  }

  // ── What is appended ─────────────────────────────────────────────────────

  lemma AllTools(ms: seq<Msg>, more: seq<Msg>)
    requires forall m :: m in ms ==> m.Tool?
    requires forall m :: m in more ==> m.Tool?
    ensures forall m :: m in ms + more ==> m.Tool?
  {
  }

  /** The tools node appends tool messages only, except that the data-limitation HOLD ends on a message without
      calls. */
  lemma AppendedAnswers(t: Tools, b: Before, o: Outside, calls: seq<Call>)
    ensures var u := Answered(t, b, o, calls);
            if u.decision == Some(Decision(HOLD, DataGating)) then
              && u.out != [] && u.out[|u.out| - 1] == AI([], true, false)
              && forall m :: m in u.out[..|u.out| - 1] ==> m.Tool?
            else forall m :: m in u.out ==> m.Tool?
  {
    hide DataAttempted, Rejected, ResumeOf, DeclaredAction, Sorted;
    var g, u := Sorted(t, b, o, calls), Answered(t, b, o, calls);
    hide Notes, Dispatched, Feedback;
    forall cs: seq<Call>
      ensures forall m :: m in Notes(cs) ==> m.Tool?
      ensures forall m :: m in Dispatched(cs, o.replies) ==> m.Tool?
      ensures forall m :: m in Feedback(cs) ==> m.Tool?
    {
    }
    var base := Dispatched(g.run, o.replies) + Feedback(g.failed) + Notes(g.repeats);
    AllTools(base, Notes(g.research));
    AllTools(base, Notes(g.blocked));
    AllTools(base, Notes(g.gated));
    var blocked := base + Notes(g.blocked);
    assert (blocked + [CLOSING])[..|blocked|] == blocked;
  }

  /** A debate role appends its words, if it says anything, and else only takes its turn. */
  lemma RoleSpeaks(c: RawSetup, s: State, inp: Input)
    requires s.node == AtBull || s.node == AtBear
    ensures var s' := Step(c, s, inp);
            && s'.messages == (if inp.prose then s.messages + [AI([], true, false)] else s.messages)
            && s'.debateTurns == s.debateTurns + 1 && s'.decision == s.decision && s'.commits == s.commits
            && s'.dataSeen == s.dataSeen && s'.reasoning == s.reasoning
  {
  }

  /** The Judge's messages follow what was there, and end on one without calls unless it declared. */
  lemma JudgeSpeaks(c: RawSetup, s: State, inp: Input)
    requires s.node == AtJudge
    ensures var o := Judge.Deliberated(inp.judge, c.judgeBudget);
            Step(c, s, inp).messages == s.messages + o.out + if o.action.Some? then [] else [AI([], true, false)]
  {
    hide Judge.Deliberated, Judge.Verdict;
  }

  /** When a stand-aside is run: outside research, with data seen, and not while a heartbeat waits for core data
      that no cap has cut short. */
  lemma StandAsideRunIff(t: Tools, b: Before, o: Outside, calls: seq<Call>, x: Call)
    requires x in calls && IsDeclare(x) && !x.directional
    ensures x in Sorted(t, b, o, calls).run <==>
            && IsOk(x) && b.phase != Research && b.dataSeen
            && (b.heartbeat && CoreMissing(t, b.messages) != {} ==> o.capReached)
  {
    hide Sorted, CoreMissing, CoreResolved;
    DispatchedIff(t, b, o, calls, x);
    CoreResolvedIff(t, b.messages);
    ControlsDiffer();
  }

  // ── The forced end ───────────────────────────────────────────────────────

  /** The forced end answers exactly the live watches of the last message, after what was there. */
  lemma ForcedEndAnswers(s: State)
    ensures var s' := ForceTerminal(s);
            && s.messages <= s'.messages
            && AnswerIds(s'.messages[|s.messages|..]) == CallIds(Select(Select(LastCalls(s.messages), IsOk), IsWatch))
  {
    hide Select, LastCalls, AnswerIds, CallIds, Notes;
    var watches := Select(Select(LastCalls(s.messages), IsOk), IsWatch);
    assert ForceTerminal(s).messages[|s.messages|..] == [] + Notes(watches) + [CLOSING];
    NotesAnswer([], watches);
    assert AnswerIds([]) == multiset{} by { NoAnswers(); }
  }

  lemma NoAnswers()
    ensures AnswerIds([]) == multiset{}
  {
  }
}
