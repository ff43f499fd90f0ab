/** What a watch that comes back changes: the gates that a heartbeat and an invalidation put up, over
    whole runs. */
module AgentWakes {
  import opened PyStrings
  import opened Messages
  import opened ToolNode
  import opened AgentRun
  import opened AgentSafety
  import opened AgentLimits
  import Judge

  function StateAt(s: State): Before {
    Before(s.messages, s.phase, s.dataSeen, s.heartbeat, s.postmortem)
  }

  /** How a step found its watch to have come back. */
  function WakeAt(c: RawSetup, s: State, inp: Input): Resume {
    if s.node == AtTools then ToolNode.Answered(c.tools, StateAt(s), inp.outside, LastCalls(s.messages)).resume
    else NoResume
  }

  /** The wakes of a run, oldest first. */
  function Wakes(c: RawSetup, mode: Mode, opening: seq<Msg>, ins: seq<Input>): seq<Resume> {
    if ins == [] then []
    else
      var init := ins[..|ins| - 1];
      Wakes(c, mode, opening, init) + [WakeAt(c, Run(c, mode, opening, init), ins[|ins| - 1])]
  }

  /** The most recent wake of a marked kind; a watch that comes back because its target was reached carries no
      marker and does not count. */
  function LastWake(ws: seq<Resume>): Resume {
    if ws == [] then NoResume
    else if ws[|ws| - 1].NoResume? then LastWake(ws[..|ws| - 1])
    else ws[|ws| - 1]
  }

  lemma StepFlags(c: RawSetup, s: State, inp: Input)
    ensures var s', w := Step(c, s, inp), WakeAt(c, s, inp);
            && s'.heartbeat == (if w.NoResume? then s.heartbeat else w.AfterHeartbeat?)
            && s'.postmortem == (s.postmortem || w.AfterInvalidation?)
  {
    hide ToolNode.Answered, ViewHasData, AdvocateDue, ShouldContinue, RouteAfterTools, RouteDebate, Judge.Deliberated,
      Judge.Verdict, Select, Notes, LastCalls;
    if s.node == AtTools {
      hide CallModel, ForceTerminal, ForceHold, Speak, Judged;
    } else {
      hide UseTools;
    }
  }

  /** The two flags tell of the run's wakes: `heartbeat` that the last one was a heartbeat, `postmortem`
      that any of them, however long ago, was an invalidation. */
  lemma {:induction false} FlagsTellWakes(c: RawSetup, mode: Mode, opening: seq<Msg>, ins: seq<Input>)
    ensures var s, ws := Run(c, mode, opening, ins), Wakes(c, mode, opening, ins);
            && (s.heartbeat <==> LastWake(ws).AfterHeartbeat?)
            && (s.postmortem <==> AfterInvalidation in ws)
  {
    hide Step, WakeAt;
    if ins != [] {
      var init := ins[..|ins| - 1];
      FlagsTellWakes(c, mode, opening, init);
      StepFlags(c, Run(c, mode, opening, init), ins[|ins| - 1]);
      var ws := Wakes(c, mode, opening, ins);
      assert ws[..|ws| - 1] == Wakes(c, mode, opening, init);
    }
  }

  /** In any run, when the tools are next asked: after a heartbeat, a stand-aside is not committed while
      core data is missing and no cap has fired; and once a watch has been invalidated, a well-formed watch
      that repeats the thesis is armed exactly while no consensus report gives an ATR. */
  lemma GatesFollowWakes(c: RawSetup, mode: Mode, opening: seq<Msg>, ins: seq<Input>, inp: Input)
    requires ValidSetup(c)
    ensures var s, ws := Run(c, mode, opening, ins), Wakes(c, mode, opening, ins);
            var calls, next := LastCalls(s.messages), UseTools(c, s, inp);
            s.node == AtTools ==>
              && (LastWake(ws).AfterHeartbeat? && s.dataSeen && !CoreResolved(c.tools, s.messages)
                  && !inp.outside.capReached && next.decision.Some? ==>
                    exists x :: x in calls && IsDeclare(x) && x.directional && x.action == next.decision.value.action)
              && (AfterInvalidation in ws ==>
                    forall x :: x in calls && IsOk(x) && IsRepeat(x) ==>
                      (x in Sorted(c.tools, StateAt(s), inp.outside, calls).run <==> !AtrKnown(s.messages)))
  {
    hide ToolNode.Answered, Run, Wakes, Sorted, CoreResolved, Rejected, DataAttempted;
    var s := Run(c, mode, opening, ins);
    var calls := LastCalls(s.messages);
    FlagsTellWakes(c, mode, opening, ins);
    RunCommits(c, mode, opening, ins);
    CommitMeans(c.tools, StateAt(s), inp.outside, calls);
    ControlsDiffer();
    forall x | x in calls && IsOk(x) && IsRepeat(x)
      ensures x in Sorted(c.tools, StateAt(s), inp.outside, calls).run <==> !RearmGateUp(StateAt(s))
    {
      DispatchedIff(c.tools, StateAt(s), inp.outside, calls, x);
    }
  }

  // ── The post-mortem gate is never taken down ─────────────────────────────

  lemma WakesExtend(c: RawSetup, mode: Mode, opening: seq<Msg>, ins: seq<Input>, more: seq<Input>)
    ensures Wakes(c, mode, opening, ins) <= Wakes(c, mode, opening, ins + more)
  {
    hide WakeAt, Run;
    if more == [] {
      assert ins + more == ins;
    } else {
      var all := ins + more;
      assert all[..|all| - 1] == ins + more[..|more| - 1];
      WakesExtend(c, mode, opening, ins, more[..|more| - 1]);
    }
  }

  /** The flag is documented to be cleared once the gate has served. It is not: after the first invalidation
      the flag is up at every later step of the run, and whatever the gate has held back before, it holds
      back every well-formed repeat it meets while a consensus report gives an ATR. */
  lemma PostmortemNeverCleared(c: RawSetup, mode: Mode, opening: seq<Msg>, ins: seq<Input>, more: seq<Input>)
    requires AfterInvalidation in Wakes(c, mode, opening, ins)
    ensures var s := Run(c, mode, opening, ins + more);
            && s.postmortem
            && forall x, o :: AtrKnown(s.messages) && x in LastCalls(s.messages) && IsOk(x) && IsRepeat(x) ==>
                 var g := Sorted(c.tools, StateAt(s), o, LastCalls(s.messages)); x in g.repeats && x !in g.run
  {
    hide Run, Wakes, Sorted;
    WakesExtend(c, mode, opening, ins, more);
    FlagsTellWakes(c, mode, opening, ins + more);
    var s := Run(c, mode, opening, ins + more);
    forall x, o | AtrKnown(s.messages) && x in LastCalls(s.messages) && IsOk(x) && IsRepeat(x)
      ensures var g := Sorted(c.tools, StateAt(s), o, LastCalls(s.messages)); x in g.repeats && x !in g.run
    {
      DispatchedIff(c.tools, StateAt(s), o, LastCalls(s.messages), x);
    }
  }

  const FETCH := Call("1", CONSENSUS, Ok, OTHER, false, false, PLAIN_REPLY)
  const FIRST_WATCH := Call("2", WATCH, Ok, OTHER, false, false, PLAIN_REPLY)
  const SAME_WATCH := Call("3", WATCH, Ok, OTHER, false, true, PLAIN_REPLY)
  const REPORT := Reply(Usable, false, NoMarker, AtrGiven)
  const INVALIDATED := Reply(Usable, false, Invalidated, Unread)

  /** A consensus report with its ATR, a watch, its invalidation, the same watch again, the gate's answer. */
  function ServedRun(): (r: seq<Input>)
    ensures |r| == 6
  {
    [Saying([FETCH], {}), Saying([], {}).(outside := Outside([REPORT], false)),
     Saying([FIRST_WATCH], {2}), Saying([], {}).(outside := Outside([INVALIDATED], false)),
     Saying([SAME_WATCH], {2}), Saying([], {})]
  }

  const ASKED := [Human, AI([FETCH], true, false)]
  const REPORTED := ASKED + [Tool("1", CONSENSUS, REPORT, true)]
  const WATCHED := REPORTED + [AI([FIRST_WATCH], true, false)]
  const TOLD := WATCHED + [Tool("2", WATCH, INVALIDATED, true)]
  const WATCHED_AGAIN := TOLD + [AI([SAME_WATCH], true, false)]

  lemma AtrSnoc(ms: seq<Msg>, m: Msg)
    ensures AtrKnown(ms + [m]) == if IsReport(m) then m.reply.report == AtrGiven else AtrKnown(ms)
  {
    assert (ms + [m])[..|ms|] == ms;
  }

  /** When the watch is repeated, the report's ATR is still the latest. */
  lemma AtrThen()
    ensures AtrKnown(WATCHED_AGAIN)
  {
    ControlsDiffer();
    assert CONSENSUS[0] != WATCH[0];
    AtrSnoc(ASKED, Tool("1", CONSENSUS, REPORT, true));
    AtrSnoc(REPORTED, AI([FIRST_WATCH], true, false));
    AtrSnoc(WATCHED, Tool("2", WATCH, INVALIDATED, true));
    AtrSnoc(TOLD, AI([SAME_WATCH], true, false));
  }

  /** A single call that is run and declares nothing. */
  lemma LoneAnswer(t: Tools, b: Before, x: Call, reply: Reply)
    requires IsOk(x) && NotDeclare(x) && b.phase == NoPhase && !b.heartbeat && (RearmGateUp(b) ==> NotRepeat(x))
    ensures var out := [Tool(x.id, x.name, reply, true)];
            Answered(t, b, Outside([reply], false), [x]) == Update(out, false, ResumeOf(out), None)
  {
    hide Sorted, ResumeOf, Rejected, RearmGateUp;
    var o := Outside([reply], false);
    SortedReady(t, b, o, x);
    var base := Dispatched([x], o.replies) + Feedback([]) + Notes([]);
    assert base == [Tool(x.id, x.name, reply, true)];
    NoDeclareNoAction([x]);
  }

  lemma SameWatchAnswer(t: Tools, b: Before)
    requires b.phase == NoPhase && !b.heartbeat && RearmGateUp(b)
    ensures Answered(t, b, Outside([], false), [SAME_WATCH]) ==
            Update([Tool("3", WATCH, PLAIN_REPLY, false)], false, NoResume, None)
  {
    hide Sorted, RearmGateUp;
    var o := Outside([], false);
    ControlsDiffer();
    SortedRepeat(t, b, o, SAME_WATCH);
    var base := Dispatched([], o.replies) + Feedback([]) + Notes([SAME_WATCH]);
    assert base == [Tool("3", WATCH, PLAIN_REPLY, false)];
    assert ResumeOf(base[1..]) == NoResume;
  }

  /** A single repeat while the gate is up. */
  lemma SortedRepeat(t: Tools, b: Before, o: Outside, x: Call)
    requires IsOk(x) && IsRepeat(x) && NotDeclare(x) && RearmGateUp(b)
    ensures Sorted(t, b, o, [x]) == Gates([], [], [], [], [x], [])
  {
    hide HeartbeatGateUp, RearmGateUp, Select;
    SelectOne(x, IsOk);
    SelectOne(x, IsFailed);
    SelectOne(x, IsDeclare);
    SelectOne(x, NotDeclare);
    SelectOne(x, IsStandAside);
    SelectOne(x, NotStandAside);
    SelectOne(x, IsRepeat);
    SelectOne(x, NotRepeat);
  }

  predicate Watching(s: State, node: Node, messages: seq<Msg>, postmortem: bool, dataSeen: bool) {
    && s.node == node && s.messages == messages && s.postmortem == postmortem && s.dataSeen == dataSeen
    && s.mode == FIND && s.phase == NoPhase && s.decision.None? && !s.heartbeat
  }

  lemma CallTurn(c: RawSetup, s: State, x: Call, kept: set<nat>)
    requires ValidSetup(c) && Watching(s, AtAgent, s.messages, s.postmortem, s.dataSeen)
    ensures Watching(Step(c, s, Saying([x], kept)), AtTools, s.messages + [AI([x], true, false)], s.postmortem,
                     s.dataSeen || ViewHasData(c.tools, s.messages, kept))
  {
    hide HasLiveWatch, AdvocateDue, ViewHasData;
    assert !AdvocateDue(c, s) by { NoAdvocate(c, s); }
  }

  lemma NoAdvocate(c: RawSetup, s: State)
    requires s.mode == FIND
    ensures !AdvocateDue(c, s)
  {
  }

  /** A tools step of the run: one call, one answer, no decision. */
  lemma ToolStep(c: RawSetup, s: State, inp: Input, x: Call, answer: Msg, wake: Resume)
    requires Watching(s, AtTools, s.messages, s.postmortem, s.dataSeen) && LastCalls(s.messages) == [x]
    requires Answered(c.tools, StateAt(s), inp.outside, [x]) == Update([answer], false, wake, None)
    requires !wake.AfterHeartbeat?
    ensures Watching(Step(c, s, inp), AtAgent, s.messages + [answer],
                         s.postmortem || wake.AfterInvalidation?, s.dataSeen)
  {
    hide ToolNode.Answered, LastCalls;
  }

  lemma LastCallsSnoc(ms: seq<Msg>, x: Call)
    ensures LastCalls(ms + [AI([x], true, false)]) == [x]
  {
  }

  lemma ReportStep(c: RawSetup, s: State)
    requires Watching(s, AtTools, ASKED, false, false)
    ensures Watching(Step(c, s, ServedRun()[1]), AtAgent, REPORTED, false, false)
  {
    hide ToolNode.Answered, Step, AtrKnown, FETCH, REPORT;
    var answer := Tool("1", CONSENSUS, REPORT, true);
    LastCallsSnoc([Human], FETCH);
    assert ASKED == [Human] + [AI([FETCH], true, false)];
    FetchIsPlain();
    LoneAnswer(c.tools, StateAt(s), FETCH, REPORT);
    assert ResumeOf([answer]) == NoResume by {
      assert [answer][1..] == [];
      assert CONSENSUS[0] != WATCH[0];
    }
    ToolStep(c, s, ServedRun()[1], FETCH, answer, NoResume);
  }

  lemma FetchIsPlain()
    ensures IsOk(FETCH) && NotDeclare(FETCH) && NotRepeat(FETCH) && FETCH.id == "1" && FETCH.name == CONSENSUS
  {
    assert CONSENSUS[0] != DECLARE[0] && CONSENSUS[0] != WATCH[0];
  }

  lemma InvalidatedStep(c: RawSetup, s: State)
    requires Watching(s, AtTools, WATCHED, false, true)
    ensures Watching(Step(c, s, ServedRun()[3]), AtAgent, TOLD, true, true)
  {
    hide ToolNode.Answered, Step, AtrKnown, REPORTED;
    var answer := Tool("2", WATCH, INVALIDATED, true);
    LastCallsSnoc(REPORTED, FIRST_WATCH);
    ControlsDiffer();
    LoneAnswer(c.tools, StateAt(s), FIRST_WATCH, INVALIDATED);
    assert ResumeOf([answer]) == AfterInvalidation;
    ToolStep(c, s, ServedRun()[3], FIRST_WATCH, answer, AfterInvalidation);
  }

  lemma ServedStep(c: RawSetup, s: State)
    requires Watching(s, AtTools, WATCHED_AGAIN, true, true)
    ensures Watching(Step(c, s, ServedRun()[5]), AtAgent,
                         WATCHED_AGAIN + [Tool("3", WATCH, PLAIN_REPLY, false)], true, true)
  {
    hide ToolNode.Answered, Step, AtrKnown, TOLD;
    LastCallsSnoc(TOLD, SAME_WATCH);
    AtrThen();
    SameWatchAnswer(c.tools, StateAt(s));
    ToolStep(c, s, ServedRun()[5], SAME_WATCH, Tool("3", WATCH, PLAIN_REPLY, false), NoResume);
  }

  lemma ReportIsData(c: RawSetup)
    requires ValidSetup(c)
    ensures ViewHasData(c.tools, REPORTED, {2})
  {
    assert REPORTED[2] == Tool("1", CONSENSUS, REPORT, true);
    assert IsData(c.tools, REPORTED[2]);
  }

  lemma RunStep(c: RawSetup, mode: Mode, opening: seq<Msg>, ins: seq<Input>, i: nat)
    requires i < |ins|
    ensures Run(c, mode, opening, ins[..i + 1]) == Step(c, Run(c, mode, opening, ins[..i]), ins[i])
  {
    hide Step;
    assert ins[..i + 1][..i] == ins[..i];
  }

  /** A run in which the gate has served and is still up: the consensus report gives an ATR, the watch is
      invalidated, and the same watch is answered without being armed. */
  lemma ServedAndStillUp(c: RawSetup)
    requires ValidSetup(c)
    ensures var s := Run(c, FIND, [Human], ServedRun());
            && s.messages == [Human, AI([FETCH], true, false), Tool("1", CONSENSUS, REPORT, true),
                              AI([FIRST_WATCH], true, false), Tool("2", WATCH, INVALIDATED, true),
                              AI([SAME_WATCH], true, false), Tool("3", WATCH, PLAIN_REPLY, false)]
            && s.node == AtAgent && s.postmortem && RearmGateUp(StateAt(s))
  {
    hide Step, ToolNode.Answered, AtrKnown, Run;
    ServedStates(c);
    AtrThen();
    AtrSnoc(WATCHED_AGAIN, Tool("3", WATCH, PLAIN_REPLY, false));
    assert !IsReport(Tool("3", WATCH, PLAIN_REPLY, false));
  }

  lemma ServedStates(c: RawSetup)
    requires ValidSetup(c)
    ensures Watching(Run(c, FIND, [Human], ServedRun()), AtAgent,
                         WATCHED_AGAIN + [Tool("3", WATCH, PLAIN_REPLY, false)],
                     true, true)
  {
    hide Step, ASKED, REPORTED, WATCHED, TOLD, WATCHED_AGAIN, ViewHasData, FETCH, FIRST_WATCH, SAME_WATCH;
    var ins := ServedRun();
    var s0 := Fresh(FIND, [Human]);
    assert ins[..0] == [] && ins[..6] == ins;
    RunStep(c, FIND, [Human], ins, 0);
    RunStep(c, FIND, [Human], ins, 1);
    RunStep(c, FIND, [Human], ins, 2);
    RunStep(c, FIND, [Human], ins, 3);
    RunStep(c, FIND, [Human], ins, 4);
    RunStep(c, FIND, [Human], ins, 5);
    HistoriesGrow();
    NothingSeen(c);
    hide Run;
    CallTurn(c, s0, FETCH, {});
    ReportStep(c, Step(c, s0, ins[0]));
    var s2 := Run(c, FIND, [Human], ins[..2]);
    ReportIsData(c);
    CallTurn(c, s2, FIRST_WATCH, {2});
    InvalidatedStep(c, Step(c, s2, ins[2]));
    var s4 := Run(c, FIND, [Human], ins[..4]);
    CallTurn(c, s4, SAME_WATCH, {2});
    ServedStep(c, Step(c, s4, ins[4]));
  }

  lemma HistoriesGrow()
    ensures ASKED == [Human] + [AI([FETCH], true, false)] && WATCHED == REPORTED + [AI([FIRST_WATCH], true, false)]
    ensures WATCHED_AGAIN == TOLD + [AI([SAME_WATCH], true, false)]
  {
    hide FETCH, REPORTED, TOLD;
  }

  lemma NothingSeen(c: RawSetup)
    ensures !ViewHasData(c.tools, [Human], {})
  {
  }
}
