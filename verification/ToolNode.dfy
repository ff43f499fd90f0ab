/** `graph.tool_node`: four gates that hold calls back, one execution of what is left, and the
    decision a declaration commits. */
module ToolNode {
  import opened PyStrings
  import opened Messages

  datatype Phase = NoPhase | Research | Debating

  datatype Source = Declared | DataGating | ForcedHold | ForcedTerminal | JudgeDeclared | DebateHold

  datatype Decision = Decision(action: Action, source: Source)

  /** The state `tool_node` reads. */
  datatype Before = Before(
    messages: seq<Msg>, phase: Phase, dataSeen: bool, heartbeat: bool, postmortem: bool)

  /** What the environment adds: the tools' replies, and whether a bounded-hunt cap has fired. */
  datatype Outside = Outside(replies: seq<Reply>, capReached: bool)

  datatype Resume = NoResume | AfterInvalidation | AfterHeartbeat

  /** The state update: the appended messages, the phase change, the kind of watch resume, and the
      decision to finalize. */
  datatype Update = Update(out: seq<Msg>, handOff: bool, resume: Resume, decision: Option<Decision>)

  predicate IsStandAside(c: Call) { IsDeclare(c) && !c.directional }

  predicate NotStandAside(c: Call) { !IsStandAside(c) }

  predicate IsRepeat(c: Call) { IsWatch(c) && c.sameThesis }

  predicate NotRepeat(c: Call) { !IsRepeat(c) }

  /** The calls each gate holds back, and those that are run. */
  datatype Gates = Gates(
    failed: seq<Call>, research: seq<Call>, blocked: seq<Call>, gated: seq<Call>, repeats: seq<Call>, run: seq<Call>)

  /** Calls of one assistant message, split at a gate that is up or not. */
  function Held(up: bool, cs: seq<Call>, p: Call -> bool): seq<Call> {
    if up then Select(cs, p) else []
  }

  function Passed(up: bool, cs: seq<Call>, notP: Call -> bool): seq<Call> {
    if up then Select(cs, notP) else cs
  }

  predicate HeartbeatGateUp(t: Tools, s: Before, o: Outside) {
    s.heartbeat && !CoreResolved(t, s.messages) && !o.capReached
  }

  /** The post-mortem gate: it can tell a repeat only with an ATR to measure by. */
  predicate RearmGateUp(s: Before) { s.postmortem && AtrKnown(s.messages) }

  function Sorted(t: Tools, s: Before, o: Outside, calls: seq<Call>): Gates {
    var ok := Select(calls, IsOk);
    var research := s.phase == Research;
    var ok1 := Passed(research, ok, NotDeclare);
    var ok2 := Passed(!s.dataSeen, ok1, NotDeclare);
    var up := HeartbeatGateUp(t, s, o);
    var ok3 := Passed(up, ok2, NotStandAside);
    Gates(
      Select(calls, IsFailed), Held(research, ok, IsDeclare), Held(!s.dataSeen, ok1, IsDeclare),
      Held(up, ok2, IsStandAside), Held(RearmGateUp(s), ok3, IsRepeat), Passed(RearmGateUp(s), ok3, NotRepeat))
  }

  /** `_declare_was_rejected` */
  predicate Rejected(ms: seq<Msg>) {
    exists i :: 0 <= i < |ms| && ms[i].Tool? && ms[i].name == DECLARE && ms[i].reply.rejected
  }

  /** `_decision_from_declare`: the first declaration's action. */
  function DeclaredAction(cs: seq<Call>): Option<Action> {
    if cs == [] then None
    else if IsDeclare(cs[0]) then Some(cs[0].action)
    else DeclaredAction(cs[1..])
  }

  /** The first watch result that starts with a resume marker. */
  function ResumeOf(ms: seq<Msg>): Resume {
    if ms == [] then NoResume
    else if ms[0].Tool? && ms[0].name == WATCH && ms[0].reply.marker.Invalidated? then
      AfterInvalidation
    else if ms[0].Tool? && ms[0].name == WATCH && ms[0].reply.marker.Heartbeat? then AfterHeartbeat
    else ResumeOf(ms[1..])
  }

  const CLOSING := AI([], true, false)

  function UpdateFrom(t: Tools, s: Before, o: Outside, g: Gates): Update {
    var base := Dispatched(g.run, o.replies) + Feedback(g.failed) + Notes(g.repeats);
    var resume := ResumeOf(base);
    if g.research != [] then Update(base + Notes(g.research), true, resume, None)
    else if g.blocked != [] then
      (if DataAttempted(t, s.messages)
       then Update(base + Notes(g.blocked) + [CLOSING], false, resume, Some(Decision(HOLD, DataGating)))
       else Update(base + Notes(g.blocked), false, resume, None))
    else if g.gated != [] then Update(base + Notes(g.gated), false, resume, None)
    else
      var action := DeclaredAction(g.run);
      Update(base, false, resume,
             if action.Some? && !Rejected(base) then Some(Decision(action.value, Declared)) else None)
  }

  /** `tool_node` as a function of the calls on the last message. */
  function Answered(t: Tools, s: Before, o: Outside, calls: seq<Call>): Update {
    UpdateFrom(t, s, o, Sorted(t, s, o, calls))
  }

  // ── The node, loop for loop ──────────────────────────────────────────────

  /** One gate's loop over the calls. */
  method Gate(up: bool, cs: seq<Call>, p: Call -> bool, notP: Call -> bool)
    returns (held: seq<Call>, retained: seq<Call>)
    requires forall c :: p(c) != notP(c)
    ensures held == Held(up, cs, p) && retained == Passed(up, cs, notP)
  {
    held, retained := [], cs;
    if up {
      retained := [];
      for i := 0 to |cs|
        invariant held == Select(cs[..i], p) && retained == Select(cs[..i], notP)
      {
        assert cs[..i + 1][..i] == cs[..i];
        if p(cs[i]) {
          held := held + [cs[i]];
        } else {
          retained := retained + [cs[i]];
        }
      }
      assert cs[..|cs|] == cs;
    }
  }

  /** Scans the new messages for a resume marker, stopping at the first. */
  method FindResume(ms: seq<Msg>) returns (r: Resume)
    ensures r == ResumeOf(ms)
  {
    for i := 0 to |ms|
      invariant ResumeOf(ms) == ResumeOf(ms[i..])
    {
      var m := ms[i];
      assert ms[i..][1..] == ms[i + 1..];
      if m.Tool? && m.name == WATCH {
        if m.reply.marker.Invalidated? {
          return AfterInvalidation;
        }
        if m.reply.marker.Heartbeat? {
          return AfterHeartbeat;
        }
      }
    }
    return NoResume;
  }

  method Answer(t: Tools, s: Before, o: Outside, calls: seq<Call>) returns (u: Update)
    ensures u == Answered(t, s, o, calls)
  {
    hide DataAttempted, CoreResolved, Rejected, ResumeOf, DeclaredAction;
    var ok, failed := Select(calls, IsOk), Select(calls, IsFailed);
    var research, blocked, gated, repeats;
    research, ok := Gate(s.phase == Research, ok, IsDeclare, NotDeclare);
    blocked, ok := Gate(!s.dataSeen, ok, IsDeclare, NotDeclare);
    gated, ok := Gate(HeartbeatGateUp(t, s, o), ok, IsStandAside, NotStandAside);
    repeats, ok := Gate(RearmGateUp(s), ok, IsRepeat, NotRepeat);
    assert Gates(failed, research, blocked, gated, repeats, ok) == Sorted(t, s, o, calls);
    hide Sorted;
    var out := Dispatched(ok, o.replies) + Feedback(failed) + Notes(repeats);
    var resume := FindResume(out);
    if research != [] {
      return Update(out + Notes(research), true, resume, None);
    }
    if blocked != [] {
      if DataAttempted(t, s.messages) {
        return Update(out + Notes(blocked) + [CLOSING], false, resume, Some(Decision(HOLD, DataGating)));
      }
      return Update(out + Notes(blocked), false, resume, None);
    }
    if gated != [] {
      return Update(out + Notes(gated), false, resume, None);
    }
    var action := DeclaredAction(ok);
    if action.Some? && Rejected(out) {
      action := None;
    }
    return Update(out, false, resume, if action.Some? then Some(Decision(action.value, Declared)) else None);
  }

  // ── Every call is answered exactly once ──────────────────────────────────

  lemma GateSplits(up: bool, cs: seq<Call>, p: Call -> bool, notP: Call -> bool)
    requires forall c :: p(c) != notP(c)
    ensures CallIds(Held(up, cs, p)) + CallIds(Passed(up, cs, notP)) == CallIds(cs)
  {
    hide Select;
    SelectSplits(cs, p, notP);
  }

  /** No two of the declaration gates ever hold calls back together, so the early returns drop none. */
  lemma GatesExclude(t: Tools, s: Before, o: Outside, calls: seq<Call>)
    ensures var g := Sorted(t, s, o, calls);
            && (g.research != [] ==> g.blocked == [] && g.gated == [])
            && (g.blocked != [] ==> g.gated == [])
  {
    hide HeartbeatGateUp;
    var ok := Select(calls, IsOk);
    var ok1 := Passed(s.phase == Research, ok, NotDeclare);
    var ok2 := Passed(!s.dataSeen, ok1, NotDeclare);
    if s.phase == Research {
      SelectNone(ok1, IsDeclare);
      assert forall c :: c in ok2 ==> c in ok1;
      SelectNone(ok2, IsStandAside);
    }
    if !s.dataSeen {
      SelectNone(ok2, IsStandAside);
    }
  }

  lemma HeldAndPassed(up: bool, cs: seq<Call>, p: Call -> bool, notP: Call -> bool, x: Call)
    requires p(x) != notP(x)
    ensures x in Held(up, cs, p) <==> x in cs && up && p(x)
    ensures x in Passed(up, cs, notP) <==> x in cs && !(up && p(x))
  {
    hide Select;
  }

  /** Which gate holds a call back, and which calls are run: a well-formed call that is not a
      declaration during research, not a declaration before data was seen, not a stand-aside while a
      heartbeat's core data is missing, and not a repeat of the invalidated thesis while an ATR is known. */
  lemma DispatchedIff(t: Tools, s: Before, o: Outside, calls: seq<Call>, x: Call)
    requires x in calls
    ensures var g := Sorted(t, s, o, calls);
            && (x in g.failed <==> IsFailed(x))
            && (x in g.research <==> IsOk(x) && IsDeclare(x) && s.phase == Research)
            && (x in g.blocked <==> IsOk(x) && IsDeclare(x) && s.phase != Research && !s.dataSeen)
            && (x in g.gated <==>
                  IsOk(x) && IsStandAside(x) && s.phase != Research && s.dataSeen && HeartbeatGateUp(t, s, o))
            && (x in g.repeats <==> IsOk(x) && IsRepeat(x) && RearmGateUp(s))
            && (x in g.run <==>
                  && IsOk(x)
                  && (IsDeclare(x) ==>
                        s.phase != Research && s.dataSeen && (HeartbeatGateUp(t, s, o) ==> x.directional))
                  && !(IsRepeat(x) && RearmGateUp(s)))
  {
    hide HeartbeatGateUp, Held, Passed, Select;
    var ok := Select(calls, IsOk);
    SelectedIff(calls, IsOk, x);
    SelectedIff(calls, IsFailed, x);
    var ok1 := Passed(s.phase == Research, ok, NotDeclare);
    var ok2 := Passed(!s.dataSeen, ok1, NotDeclare);
    var up := HeartbeatGateUp(t, s, o);
    var ok3 := Passed(up, ok2, NotStandAside);
    HeldAndPassed(s.phase == Research, ok, IsDeclare, NotDeclare, x);
    HeldAndPassed(!s.dataSeen, ok1, IsDeclare, NotDeclare, x);
    HeldAndPassed(up, ok2, IsStandAside, NotStandAside, x);
    HeldAndPassed(RearmGateUp(s), ok3, IsRepeat, NotRepeat, x);
    ControlsDiffer();
  }

  lemma ControlsDiffer()
    ensures DECLARE != WATCH
  {
    assert DECLARE[0] == 'd' && WATCH[0] == 'w';
  }

  lemma SelectedIff(cs: seq<Call>, p: Call -> bool, x: Call)
    ensures x in Select(cs, p) <==> x in cs && p(x)
  {
  }

  lemma SortedIds(t: Tools, s: Before, o: Outside, calls: seq<Call>)
    ensures var g := Sorted(t, s, o, calls);
            CallIds(g.failed) + CallIds(g.research) + CallIds(g.blocked) + CallIds(g.gated) +
            CallIds(g.repeats) + CallIds(g.run)
            == CallIds(calls)
  {
    hide Held, Passed, Select, CallIds, HeartbeatGateUp;
    var ok := Select(calls, IsOk);
    var ok1 := Passed(s.phase == Research, ok, NotDeclare);
    var ok2 := Passed(!s.dataSeen, ok1, NotDeclare);
    var ok3 := Passed(HeartbeatGateUp(t, s, o), ok2, NotStandAside);
    SelectSplits(calls, IsOk, IsFailed);
    GateSplits(s.phase == Research, ok, IsDeclare, NotDeclare);
    GateSplits(!s.dataSeen, ok1, IsDeclare, NotDeclare);
    GateSplits(HeartbeatGateUp(t, s, o), ok2, IsStandAside, NotStandAside);
    GateSplits(RearmGateUp(s), ok3, IsRepeat, NotRepeat);
  }

  lemma BaseAnswers(g: Gates, replies: seq<Reply>)
    ensures AnswerIds(Dispatched(g.run, replies) + Feedback(g.failed) + Notes(g.repeats)) ==
            CallIds(g.run) + CallIds(g.failed) + CallIds(g.repeats)
  {
    var a, b, c := Dispatched(g.run, replies), Feedback(g.failed), Notes(g.repeats);
    OneAnswerEach(g.run, a);
    OneAnswerEach(g.failed, b);
    OneAnswerEach(g.repeats, c);
    hide Dispatched, Feedback, Notes, CallIds, AnswerIds;
    AnswersJoin(a, b);
    AnswersJoin(a + b, c);
  }

  lemma NotesAnswer(base: seq<Msg>, cs: seq<Call>)
    ensures AnswerIds(base + Notes(cs)) == AnswerIds(base) + CallIds(cs)
    ensures AnswerIds(base + Notes(cs) + [CLOSING]) == AnswerIds(base) + CallIds(cs)
  {
    OneAnswerEach(cs, Notes(cs));
    AnswersJoin(base, Notes(cs));
    AnswersJoin(base + Notes(cs), [CLOSING]);
    assert AnswerIds([CLOSING]) == multiset{};
  }

  /** `tool_node` answers every call id of the assistant message exactly once, whatever mix of calls
      it carries and whichever gates are up. */
  lemma EveryCallAnswered(t: Tools, s: Before, o: Outside, calls: seq<Call>)
    ensures AnswerIds(Answered(t, s, o, calls).out) == CallIds(calls)
  {
    hide DataAttempted, Rejected, ResumeOf, DeclaredAction, Sorted, AnswerIds, CallIds, Dispatched, Feedback, Notes;
    var g := Sorted(t, s, o, calls);
    SortedIds(t, s, o, calls);
    GatesExclude(t, s, o, calls);
    BaseAnswers(g, o.replies);
    NoIds();
    var base := Dispatched(g.run, o.replies) + Feedback(g.failed) + Notes(g.repeats);
    NotesAnswer(base, g.research);
    NotesAnswer(base, g.blocked);
    NotesAnswer(base, g.gated);
  }

  lemma NoIds()
    ensures CallIds([]) == multiset{}
  {
  }
}
