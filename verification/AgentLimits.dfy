/** Where the documented guarantees of the analysis loop stop: data that was never returned, and a
    session budget that does not end a run that keeps calling tools. */
module AgentLimits {
  import opened PyStrings
  import opened Messages
  import opened ToolNode
  import opened AgentRun
  import opened AgentSafety
  import Judge

  // ── Is the evidence real? ────────────────────────────────────────────────

  /** What the calls that cannot be run may look like: their name, and how the feedback to them reads. */
  predicate FailWithin(calls: seq<Call>, bad: set<(string, Tag)>) {
    forall i :: 0 <= i < |calls| && IsFailed(calls[i]) ==> (calls[i].name, calls[i].feedback.tag) in bad
  }

  predicate RunFailsWithin(ins: seq<Input>, bad: set<(string, Tag)>) {
    forall j :: 0 <= j < |ins| ==> FailWithin(ins[j].calls, bad)
  }

  /** No call that fails names a market-data tool and gets feedback that passes for usable data. */
  predicate Harmless(t: Tools, bad: set<(string, Tag)>) {
    forall name :: name in t.marketData ==> (name, Usable) !in bad
  }

  /** Usable market data comes from the tools themselves. */
  ghost predicate DataIsReal(t: Tools, ms: seq<Msg>) {
    forall i :: 0 <= i < |ms| ==> (IsData(t, ms[i]) ==> ms[i].ran)
  }

  ghost predicate RealFits(c: RawSetup, s: State, bad: set<(string, Tag)>) {
    && DataIsReal(c.tools, s.messages)
    && (s.node == AtTools ==> FailWithin(LastCalls(s.messages), bad))
  }

  lemma RealJoin(t: Tools, a: seq<Msg>, b: seq<Msg>)
    requires DataIsReal(t, a) && DataIsReal(t, b)
    ensures DataIsReal(t, a + b)
  {
  }

  lemma NotesReal(t: Tools, cs: seq<Call>)
    requires ValidTools(t) && forall i :: 0 <= i < |cs| ==> IsDeclare(cs[i]) || IsWatch(cs[i])
    ensures DataIsReal(t, Notes(cs))
  {
  }

  lemma FeedbackReal(t: Tools, cs: seq<Call>, bad: set<(string, Tag)>)
    requires ValidTools(t) && Harmless(t, bad) && FailWithin(cs, bad) && forall i :: 0 <= i < |cs| ==> IsFailed(cs[i])
    ensures DataIsReal(t, Feedback(cs))
  {
    var ms := Feedback(cs);
    forall i | 0 <= i < |ms|
      ensures !IsData(t, ms[i])
    {
      assert (cs[i].name, cs[i].feedback.tag) in bad;
    }
  }

  /** The gates hold back declarations and watches only; what fails is among the calls. */
  lemma HeldAreControl(t: Tools, b: Before, o: Outside, calls: seq<Call>)
    ensures var g := Sorted(t, b, o, calls);
            && (forall x :: x in g.failed ==> x in calls && IsFailed(x))
            && (forall i :: 0 <= i < |g.repeats| ==> IsWatch(g.repeats[i]))
            && (forall i :: 0 <= i < |g.research| ==> IsDeclare(g.research[i]))
            && (forall i :: 0 <= i < |g.blocked| ==> IsDeclare(g.blocked[i]))
            && (forall i :: 0 <= i < |g.gated| ==> IsDeclare(g.gated[i]))
  {
    hide HeartbeatGateUp;
  }

  lemma AnswersReal(t: Tools, b: Before, o: Outside, calls: seq<Call>, bad: set<(string, Tag)>)
    requires ValidTools(t) && Harmless(t, bad) && FailWithin(calls, bad)
    ensures DataIsReal(t, Answered(t, b, o, calls).out)
  {
    hide DataAttempted, Rejected, ResumeOf, DeclaredAction, Sorted, Notes, Feedback,
      Dispatched, DataIsReal, ValidTools, Harmless;
    var g := Sorted(t, b, o, calls);
    HeldAreControl(t, b, o, calls);
    forall i | 0 <= i < |g.failed|
      ensures IsFailed(g.failed[i]) && (g.failed[i].name, g.failed[i].feedback.tag) in bad
    {
      assert g.failed[i] in g.failed;
    }
    NotesReal(t, g.repeats);
    NotesReal(t, g.research);
    NotesReal(t, g.blocked);
    NotesReal(t, g.gated);
    DispatchedReal(t, g.run, o.replies);
    FeedbackReal(t, g.failed, bad);
    var base := Dispatched(g.run, o.replies) + Feedback(g.failed) + Notes(g.repeats);
    RealJoin(t, Dispatched(g.run, o.replies), Feedback(g.failed));
    RealJoin(t, Dispatched(g.run, o.replies) + Feedback(g.failed), Notes(g.repeats));
    RealJoin(t, base, Notes(g.research));
    RealJoin(t, base, Notes(g.blocked));
    RealJoin(t, base, Notes(g.gated));
    RealJoin(t, base + Notes(g.blocked), [CLOSING]);
  }

  lemma DispatchedReal(t: Tools, cs: seq<Call>, replies: seq<Reply>)
    ensures DataIsReal(t, Dispatched(cs, replies)) && DataIsReal(t, [CLOSING])
  {
  }

  lemma ToolsReal(c: RawSetup, s: State, inp: Input, bad: set<(string, Tag)>)
    requires ValidSetup(c) && Harmless(c.tools, bad) && RealFits(c, s, bad) && s.node == AtTools
    ensures RealFits(c, Step(c, s, inp), bad)
  {
    hide DataIsReal, ToolNode.Answered, Harmless, FailWithin;
    var b := Before(s.messages, s.phase, s.dataSeen, s.heartbeat, s.postmortem);
    AnswersReal(c.tools, b, inp.outside, LastCalls(s.messages), bad);
    RealJoin(c.tools, s.messages, Answered(c.tools, b, inp.outside, LastCalls(s.messages)).out);
  }

  lemma ModelReal(c: RawSetup, s: State, inp: Input, bad: set<(string, Tag)>)
    requires ValidSetup(c) && RealFits(c, s, bad) && s.node == AtAgent && FailWithin(inp.calls, bad)
    ensures RealFits(c, Step(c, s, inp), bad)
  {
    hide HasLiveWatch, ViewHasData, AdvocateDue, FailWithin;
    assert DataIsReal(c.tools, [AI(inp.calls, inp.prose, false)]) && DataIsReal(c.tools, [ADVOCATE]);
    RealJoin(c.tools, s.messages, [ADVOCATE]);
    RealJoin(c.tools, s.messages, [AI(inp.calls, inp.prose, false)]);
    RealJoin(c.tools, s.messages + [ADVOCATE], [AI(inp.calls, inp.prose, false)]);
    hide DataIsReal;
  }

  lemma StepReal(c: RawSetup, s: State, inp: Input, bad: set<(string, Tag)>)
    requires ValidSetup(c) && Harmless(c.tools, bad) && s.mode != DEBATE && CommitFits(s) && RealFits(c, s, bad)
    requires FailWithin(inp.calls, bad)
    ensures RealFits(c, Step(c, s, inp), bad)
  {
    if s.node == AtTools {
      ToolsReal(c, s, inp, bad);
    } else if s.node == AtAgent {
      ModelReal(c, s, inp, bad);
    } else {
      hide Select, Notes, DataIsReal, Harmless, FailWithin;
      var notes := Notes(Select(Select(LastCalls(s.messages), IsOk), IsWatch));
      NotesReal(c.tools, Select(Select(LastCalls(s.messages), IsOk), IsWatch));
      DispatchedReal(c.tools, [], []);
      RealJoin(c.tools, s.messages, [CLOSING]);
      RealJoin(c.tools, s.messages, notes);
      RealJoin(c.tools, s.messages + notes, [CLOSING]);
    }
  }

  lemma {:induction false} RunReal(c: RawSetup, mode: Mode, opening: seq<Msg>, ins: seq<Input>, bad: set<(string, Tag)>)
    requires ValidSetup(c) && Harmless(c.tools, bad) && mode != DEBATE && RunFailsWithin(ins, bad) && IsOpening(opening)
    ensures RealFits(c, Run(c, mode, opening, ins), bad)
  {
    hide Step, CommitFits, RealFits, Harmless, FailWithin;
    if ins == [] {
      FreshReal(c, mode, opening, bad);
    } else {
      var init := ins[..|ins| - 1];
      RunReal(c, mode, opening, init, bad);
      RunCommits(c, mode, opening, init);
      RunMode(c, mode, opening, init);
      StepReal(c, Run(c, mode, opening, init), ins[|ins| - 1], bad);
    }
  }

  lemma {:induction false} RunMode(c: RawSetup, mode: Mode, opening: seq<Msg>, ins: seq<Input>)
    ensures Run(c, mode, opening, ins).mode == mode
  {
    hide Step;
    if ins != [] {
      RunMode(c, mode, opening, ins[..|ins| - 1]);
      ModeKept(c, Run(c, mode, opening, ins[..|ins| - 1]), ins[|ins| - 1]);
    }
  }

  lemma FreshReal(c: RawSetup, mode: Mode, opening: seq<Msg>, bad: set<(string, Tag)>)
    requires IsOpening(opening)
    ensures RealFits(c, Fresh(mode, opening), bad)
  {
  }

  /** A market-data tool itself returned usable data before position `k`. */
  ghost predicate RealDataBefore(t: Tools, ms: seq<Msg>, k: nat) {
    exists i :: 0 <= i < k && i < |ms| && IsData(t, ms[i]) && ms[i].ran
  }

  /** Every run whose failing calls stay within `bad` and that ends in a trade had a market-data tool
      return usable data first. */
  ghost predicate TradesOnRealData(c: RawSetup, bad: set<(string, Tag)>) {
    forall mode, opening, ins ::
      mode != DEBATE && IsOpening(opening) && RunFailsWithin(ins, bad) ==>
        var s := Run(c, mode, opening, ins);
        s.decision.Some? && IsTrade(s.decision.value) ==>
          exists k: nat :: DeclaredAt(c.tools, s.messages, s.decision.value.action, k)
              && RealDataBefore(c.tools, s.messages, k)
  }

  // A run whose only market-data message is the feedback to a call that did not parse.

  function Unreadable(name: string): Call {
    Call("1", name, ParseFailure, OTHER, false, false, PLAIN_REPLY)
  }

  const DECLARE_BUY := Call("2", DECLARE, Ok, BUY, true, false, PLAIN_REPLY)

  function Saying(calls: seq<Call>, kept: set<nat>): Input {
    Input(calls, true, kept, false, false, Outside([], false), [])
  }

  function UnreadableRun(name: string): (r: seq<Input>)
    ensures |r| == 4
  {
    [Saying([Unreadable(name)], {}), Saying([], {}), Saying([DECLARE_BUY], {1}), Saying([], {})]
  }

  lemma SelectOne(x: Call, p: Call -> bool)
    ensures Select([x], p) == (if p(x) then [x] else []) && Select([], p) == []
  {
    assert [x][..0] == [];
  }

  /** A single call that cannot be run. */
  lemma SortedFailed(t: Tools, b: Before, o: Outside, x: Call)
    requires IsFailed(x)
    ensures Sorted(t, b, o, [x]) == Gates([x], [], [], [], [], [])
  {
    hide HeartbeatGateUp, Select;
    SelectOne(x, IsOk);
    SelectOne(x, IsFailed);
    SelectOne(x, IsDeclare);
    SelectOne(x, NotDeclare);
    SelectOne(x, IsStandAside);
    SelectOne(x, NotStandAside);
    SelectOne(x, IsRepeat);
    SelectOne(x, NotRepeat);
  }

  /** A single call that no gate holds back. */
  lemma SortedReady(t: Tools, b: Before, o: Outside, x: Call)
    requires IsOk(x)
    requires b.phase == Research || !b.dataSeen ==> NotDeclare(x)
    requires HeartbeatGateUp(t, b, o) ==> NotStandAside(x)
    requires RearmGateUp(b) ==> NotRepeat(x)
    ensures Sorted(t, b, o, [x]) == Gates([], [], [], [], [], [x])
  {
    hide HeartbeatGateUp, Select;
    SelectOne(x, IsOk);
    SelectOne(x, IsFailed);
    SelectOne(x, IsDeclare);
    SelectOne(x, NotDeclare);
    SelectOne(x, IsStandAside);
    SelectOne(x, NotStandAside);
    SelectOne(x, IsRepeat);
    SelectOne(x, NotRepeat);
  }

  lemma UnreadableCallAnswer(t: Tools, b: Before, name: string)
    requires name in t.marketData && name != "" && name != DECLARE && name != WATCH
    requires !b.dataSeen && b.phase == NoPhase && !b.heartbeat && !b.postmortem
    ensures Answered(t, b, Outside([], false), [Unreadable(name)]) ==
            Update([Tool("1", name, PLAIN_REPLY, false)], false, NoResume, None)
  {
    hide Sorted;
    var cs := [Unreadable(name)];
    SortedFailed(t, b, Outside([], false), Unreadable(name));
    var base := Dispatched([], []) + Feedback(cs) + Notes([]);
    assert base == [Tool("1", name, PLAIN_REPLY, false)];
    assert ResumeOf(base[1..]) == NoResume;
  }

  lemma DeclareAnswer(t: Tools, b: Before)
    requires b.dataSeen && b.phase == NoPhase && !b.heartbeat && !b.postmortem
    ensures var u := Answered(t, b, Outside([], false), [DECLARE_BUY]);
            u.decision == Some(Decision(BUY, Declared)) && u.out == [Tool("2", DECLARE, PLAIN_REPLY, true)]
  {
    hide Sorted, ResumeOf;
    var cs := [DECLARE_BUY];
    ControlsDiffer();
    SortedReady(t, b, Outside([], false), DECLARE_BUY);
    var base := Dispatched(cs, []) + Feedback([]) + Notes([]);
    assert base == [Tool("2", DECLARE, PLAIN_REPLY, true)];
  }

  /** Four steps: a call that does not parse, its feedback, a declaration, its commit. */
  lemma UnreadableRunTrades(c: RawSetup, name: string)
    requires ValidSetup(c) && name in c.tools.marketData
    ensures var s := Run(c, FIND, [], UnreadableRun(name));
            && s.decision == Some(Decision(BUY, Declared))
            && s.messages == [AI([Unreadable(name)], true, false), Tool("1", name, PLAIN_REPLY, false),
                              AI([DECLARE_BUY], true, false), Tool("2", DECLARE, PLAIN_REPLY, true)]
  {
    hide Step, UnreadableRun;
    var ins := UnreadableRun(name);
    var s0 := Fresh(FIND, []);
    RunFour(c, FIND, [], ins);
    FirstTurn(c, name);
    var s1 := Step(c, s0, ins[0]);
    SecondStep(c, s1, name);
    var s2 := Step(c, s1, ins[1]);
    ThirdTurn(c, s2, name);
    FourthStep(c, Step(c, s2, ins[2]), name);
  }

  lemma RunFour(c: RawSetup, mode: Mode, opening: seq<Msg>, ins: seq<Input>)
    requires |ins| == 4
    ensures Run(c, mode, opening, ins) ==
            Step(c, Step(c, Step(c, Step(c, Fresh(mode, opening), ins[0]), ins[1]), ins[2]), ins[3])
  {
    hide Step;
    assert ins[..3][..2] == ins[..2] && ins[..2][..1] == ins[..1] && ins[..1][..0] == [];
    assert Run(c, mode, opening, ins[..1]) == Step(c, Run(c, mode, opening, ins[..1][..0]), ins[0]);
    assert Run(c, mode, opening, ins[..2]) == Step(c, Run(c, mode, opening, ins[..2][..1]), ins[1]);
    assert Run(c, mode, opening, ins[..3]) == Step(c, Run(c, mode, opening, ins[..3][..2]), ins[2]);
  }

  /** What the example's steps leave in the fields that matter to it. */
  predicate Shape(s: State, node: Node, messages: seq<Msg>, dataSeen: bool) {
    && s.node == node && s.messages == messages && s.dataSeen == dataSeen
    && s.mode == FIND && s.phase == NoPhase && s.decision.None? && !s.heartbeat && !s.postmortem
  }

  lemma FirstTurn(c: RawSetup, name: string)
    requires ValidSetup(c)
    ensures Shape(Step(c, Fresh(FIND, []), UnreadableRun(name)[0]), AtTools,
                      [AI([Unreadable(name)], true, false)], false)
  {
    hide Unreadable;
  }

  lemma SecondStep(c: RawSetup, s: State, name: string)
    requires ValidSetup(c) && name in c.tools.marketData && name != ""
    requires Shape(s, AtTools, [AI([Unreadable(name)], true, false)], false)
    ensures Shape(Step(c, s, UnreadableRun(name)[1]), AtAgent,
                  [AI([Unreadable(name)], true, false), Tool("1", name, PLAIN_REPLY, false)], false)
  {
    hide ToolNode.Answered, Unreadable;
    UnreadableCallAnswer(c.tools, Before(s.messages, s.phase, s.dataSeen, s.heartbeat, s.postmortem), name);
    assert LastCalls(s.messages) == [Unreadable(name)];
  }

  lemma ThirdTurn(c: RawSetup, s: State, name: string)
    requires ValidSetup(c) && name in c.tools.marketData
    requires Shape(s, AtAgent, [AI([Unreadable(name)], true, false), Tool("1", name, PLAIN_REPLY, false)], false)
    ensures Shape(Step(c, s, UnreadableRun(name)[2]), AtTools,
                  [AI([Unreadable(name)], true, false), Tool("1", name, PLAIN_REPLY, false),
                   AI([DECLARE_BUY], true, false)],
                  true)
  {
    hide Unreadable;
    assert IsData(c.tools, s.messages[1]);
    var next := CallModel(c, s, UnreadableRun(name)[2]);
    assert next.dataSeen;
    assert LastCalls(next.messages) == [DECLARE_BUY];
  }

  lemma FourthStep(c: RawSetup, s: State, name: string)
    requires ValidSetup(c) && name in c.tools.marketData
    requires Shape(s, AtTools,
                   [AI([Unreadable(name)], true, false), Tool("1", name, PLAIN_REPLY, false),
                    AI([DECLARE_BUY], true, false)],
                   true)
    ensures var s' := Step(c, s, UnreadableRun(name)[3]);
            s'.decision == Some(Decision(BUY, Declared)) &&
            s'.messages == s.messages + [Tool("2", DECLARE, PLAIN_REPLY, true)]
  {
    hide ToolNode.Answered, Unreadable, DECLARE_BUY;
    DeclareAnswer(c.tools, Before(s.messages, s.phase, s.dataSeen, s.heartbeat, s.postmortem));
    assert LastCalls(s.messages) == [DECLARE_BUY];
  }

  lemma UnreadableWithin(name: string, bad: set<(string, Tag)>)
    requires (name, Usable) in bad
    ensures RunFailsWithin(UnreadableRun(name), bad)
  {
  }

  /** Whatever calls may fail, and however the feedback to them may read: trades rest on data a tool really
      returned exactly when no call that fails both names a market-data tool and gets feedback that passes
      for usable. (The text "Tool-call error: could not parse .." does pass: it has no error marker.) */
  lemma RealDataIff(c: RawSetup, bad: set<(string, Tag)>)
    requires ValidSetup(c)
    ensures TradesOnRealData(c, bad) <==> Harmless(c.tools, bad)
  {
    hide Run, DeclaredAt, DataIsReal, RunFailsWithin, IsOpening;
    if Harmless(c.tools, bad) {
      forall mode, opening, ins | mode != DEBATE && IsOpening(opening) && RunFailsWithin(ins, bad)
        ensures var s := Run(c, mode, opening, ins);
                s.decision.Some? && IsTrade(s.decision.value) ==>
                  exists k: nat :: DeclaredAt(c.tools, s.messages, s.decision.value.action, k)
                      && RealDataBefore(c.tools, s.messages, k)
      {
        var s := Run(c, mode, opening, ins);
        if s.decision.Some? && IsTrade(s.decision.value) {
          TradesAreGrounded(c, mode, opening, ins);
          RunReal(c, mode, opening, ins, bad);
          var k: nat :| DeclaredAt(c.tools, s.messages, s.decision.value.action, k);
          GroundsAreReal(c.tools, s.messages, s.decision.value.action, k);
        }
      }
    } else {
      var name :| name in c.tools.marketData && (name, Usable) in bad;
      UnreadableRunTrades(c, name);
      UnreadableWithin(name, bad);
      NothingIsOpening();
      var s := Run(c, FIND, [], UnreadableRun(name));
      forall k: nat
        ensures !RealDataBefore(c.tools, s.messages, k)
      {
        NoRealData(c.tools, name, k);
      }
    }
  }

  lemma NothingIsOpening()
    ensures IsOpening([])
  {
  }

  lemma GroundsAreReal(t: Tools, ms: seq<Msg>, action: Action, k: nat)
    requires DeclaredAt(t, ms, action, k) && DataIsReal(t, ms)
    ensures RealDataBefore(t, ms, k)
  {
    hide Rejected, AnswerIds, CallIds;
  }

  lemma NoRealData(t: Tools, name: string, k: nat)
    requires ValidTools(t)
    ensures !RealDataBefore(t, [AI([Unreadable(name)], true, false), Tool("1", name, PLAIN_REPLY, false),
                                AI([DECLARE_BUY], true, false), Tool("2", DECLARE, PLAIN_REPLY, true)], k)
  {
    hide Unreadable, DECLARE_BUY;
  }

  // ── What counts as a rejection ───────────────────────────────────────────

  /** The well-formed declarations of a message, in order. */
  function Declares(calls: seq<Call>): seq<Call> { Select(Select(calls, IsOk), IsDeclare) }

  /** A gate holds one of the declarations back. */
  ghost predicate DeclareHeld(t: Tools, b: Before, o: Outside, calls: seq<Call>) {
    exists x :: x in calls && IsOk(x) && IsDeclare(x) &&
                (b.phase == Research || !b.dataSeen || (HeartbeatGateUp(t, b, o) && !x.directional))
  }

  function ReplyAt(replies: seq<Reply>, j: nat): Reply {
    if j < |replies| then replies[j] else PLAIN_REPLY
  }

  /** A declaration that was run is answered with the rejection marker. */
  ghost predicate MarkerAnswered(run: seq<Call>, replies: seq<Reply>) {
    exists j :: 0 <= j < |run| && IsDeclare(run[j]) && ReplyAt(replies, j).rejected
  }

  /** The feedback to a declaration that could not be read echoes the rejection marker. */
  ghost predicate MarkerEchoed(failed: seq<Call>) {
    exists i :: 0 <= i < |failed| && IsDeclare(failed[i]) && failed[i].feedback.rejected
  }

  lemma RejectedJoin(a: seq<Msg>, b: seq<Msg>)
    ensures Rejected(a + b) <==> Rejected(a) || Rejected(b)
  {
    if Rejected(a) {
      var i :| 0 <= i < |a| && a[i].Tool? && a[i].name == DECLARE && a[i].reply.rejected;
      assert (a + b)[i] == a[i];
    }
    if Rejected(b) {
      var i :| 0 <= i < |b| && b[i].Tool? && b[i].name == DECLARE && b[i].reply.rejected;
      assert (a + b)[|a| + i] == b[i];
    }
  }

  lemma DispatchedRejects(cs: seq<Call>, replies: seq<Reply>)
    ensures Rejected(Dispatched(cs, replies)) <==> MarkerAnswered(cs, replies)
  {
    var ms := Dispatched(cs, replies);
    assert forall j :: 0 <= j < |cs| ==> ms[j] == Tool(cs[j].id, cs[j].name, ReplyAt(replies, j), true);
    if MarkerAnswered(cs, replies) {
      var j :| 0 <= j < |cs| && IsDeclare(cs[j]) && ReplyAt(replies, j).rejected;
      assert ms[j].name == DECLARE;
    }
  }

  lemma FeedbackRejects(cs: seq<Call>)
    ensures Rejected(Feedback(cs)) <==> MarkerEchoed(cs)
  {
    var ms := Feedback(cs);
    assert DECLARE != "" && DECLARE[0] != UNKNOWN_TOOL[0];
    if MarkerEchoed(cs) {
      var i :| 0 <= i < |cs| && IsDeclare(cs[i]) && cs[i].feedback.rejected;
      assert ms[i].name == DECLARE && ms[i].reply.rejected;
    }
  }

  lemma BaseRejects(g: Gates, replies: seq<Reply>)
    ensures Rejected(Dispatched(g.run, replies) + Feedback(g.failed) + Notes(g.repeats)) <==>
            MarkerAnswered(g.run, replies) || MarkerEchoed(g.failed)
  {
    hide Rejected, MarkerAnswered, MarkerEchoed, Dispatched, Feedback, Notes;
    RejectedJoin(Dispatched(g.run, replies) + Feedback(g.failed), Notes(g.repeats));
    RejectedJoin(Dispatched(g.run, replies), Feedback(g.failed));
    DispatchedRejects(g.run, replies);
    FeedbackRejects(g.failed);
    assert !Rejected(Notes(g.repeats)) by { NotesAccept(g.repeats); }
  }

  lemma NotesAccept(cs: seq<Call>)
    ensures !Rejected(Notes(cs))
  {
  }

  lemma {:induction false} DeclaredSnoc(cs: seq<Call>, x: Call)
    ensures DeclaredAction(cs + [x]) ==
            if DeclaredAction(cs).Some? then DeclaredAction(cs) else if IsDeclare(x) then Some(x.action) else None
  {
    if cs == [] {
      assert ([] + [x])[1..] == [];
    } else {
      assert (cs + [x])[1..] == cs[1..] + [x];
      DeclaredSnoc(cs[1..], x);
    }
  }

  /** Leaving out other calls leaves the declared action. */
  lemma {:induction false} DeclaredSelect(cs: seq<Call>, p: Call -> bool)
    requires forall x :: x in cs && IsDeclare(x) ==> p(x)
    ensures DeclaredAction(Select(cs, p)) == DeclaredAction(cs)
  {
    hide DeclaredAction;
    if cs != [] {
      var init, last := cs[..|cs| - 1], cs[|cs| - 1];
      DeclaredSelect(init, p);
      DeclaredSnoc(init, last);
      DeclaredSnoc(Select(init, p), last);
      assert cs == init + [last] && Select(init, p) + [] == Select(init, p);
    }
  }

  lemma DeclaredPassed(up: bool, cs: seq<Call>, notP: Call -> bool)
    requires up ==> forall x :: x in cs && IsDeclare(x) ==> notP(x)
    ensures DeclaredAction(Passed(up, cs, notP)) == DeclaredAction(cs)
  {
    hide DeclaredAction, Select;
    if up {
      DeclaredSelect(cs, notP);
    }
  }

  lemma DeclaredIsFirst(calls: seq<Call>)
    ensures DeclaredAction(Select(calls, IsOk)) ==
            if Declares(calls) == [] then None else Some(Declares(calls)[0].action)
  {
    hide Select;
    DeclaredSelect(Select(calls, IsOk), IsDeclare);
  }

  /** With no declaration held back, the calls that are run declare what the message does. */
  lemma RunDeclares(t: Tools, b: Before, o: Outside, calls: seq<Call>)
    requires !DeclareHeld(t, b, o, calls)
    ensures DeclaredAction(Sorted(t, b, o, calls).run) ==
            if Declares(calls) == [] then None else Some(Declares(calls)[0].action)
  {
    hide Select, DeclaredAction, HeartbeatGateUp, Passed, Declares;
    var ok := Select(calls, IsOk);
    var ok1 := Passed(b.phase == Research, ok, NotDeclare);
    var ok2 := Passed(!b.dataSeen, ok1, NotDeclare);
    var up := HeartbeatGateUp(t, b, o);
    var ok3 := Passed(up, ok2, NotStandAside);
    PassedFrom(b.phase == Research, ok, NotDeclare);
    PassedFrom(!b.dataSeen, ok1, NotDeclare);
    PassedFrom(up, ok2, NotStandAside);
    DeclaredPassed(b.phase == Research, ok, NotDeclare);
    DeclaredPassed(!b.dataSeen, ok1, NotDeclare);
    DeclaredPassed(up, ok2, NotStandAside);
    ControlsDiffer();
    DeclaredPassed(RearmGateUp(b), ok3, NotRepeat);
    DeclaredIsFirst(calls);
  }

  /** The declaration gates hold something back exactly when a declaration is held. */
  lemma HeldIff(t: Tools, b: Before, o: Outside, calls: seq<Call>)
    ensures var g := Sorted(t, b, o, calls);
            DeclareHeld(t, b, o, calls) <==> g.research != [] || g.blocked != [] || g.gated != []
  {
    hide HeartbeatGateUp, Sorted, DeclareHeld;
    var g := Sorted(t, b, o, calls);
    GatedFromCalls(t, b, o, calls);
    if g.research != [] {
      DispatchedIff(t, b, o, calls, g.research[0]);
      IsHeld(t, b, o, calls, g.research[0]);
    }
    if g.blocked != [] {
      DispatchedIff(t, b, o, calls, g.blocked[0]);
      IsHeld(t, b, o, calls, g.blocked[0]);
    }
    if g.gated != [] {
      DispatchedIff(t, b, o, calls, g.gated[0]);
      IsHeld(t, b, o, calls, g.gated[0]);
    }
    if DeclareHeld(t, b, o, calls) {
      var x := HeldCall(t, b, o, calls);
      DispatchedIff(t, b, o, calls, x);
    }
  }

  lemma IsHeld(t: Tools, b: Before, o: Outside, calls: seq<Call>, x: Call)
    requires x in calls && IsOk(x) && IsDeclare(x)
    requires b.phase == Research || !b.dataSeen || (HeartbeatGateUp(t, b, o) && !x.directional)
    ensures DeclareHeld(t, b, o, calls)
  {
  }

  lemma HeldCall(t: Tools, b: Before, o: Outside, calls: seq<Call>) returns (x: Call)
    requires DeclareHeld(t, b, o, calls)
    ensures x in calls && IsOk(x) && IsDeclare(x)
    ensures b.phase == Research || !b.dataSeen || (HeartbeatGateUp(t, b, o) && !x.directional)
  {
    x :| x in calls && IsOk(x) && IsDeclare(x) &&
         (b.phase == Research || !b.dataSeen || (HeartbeatGateUp(t, b, o) && !x.directional));
  }

  lemma GatedFromCalls(t: Tools, b: Before, o: Outside, calls: seq<Call>)
    ensures var g := Sorted(t, b, o, calls);
            forall x :: x in g.research || x in g.blocked || x in g.gated ==> x in calls
  {
    hide HeartbeatGateUp, Passed, Select;
    var ok := Select(calls, IsOk);
    PassedFrom(b.phase == Research, ok, NotDeclare);
    var ok1 := Passed(b.phase == Research, ok, NotDeclare);
    PassedFrom(!b.dataSeen, ok1, NotDeclare);
  }

  /** What a message's declarations come to, whatever else it carries: the first well-formed one is
      committed exactly when no gate holds a declaration back, no declaration that was run is answered
      with the rejection marker, and no unreadable declaration's echo contains it. How the tools' answers
      read otherwise does not matter: one that failed outright commits like one that accepted. */
  lemma OnlyTheMarkerRejects(t: Tools, b: Before, o: Outside, calls: seq<Call>)
    ensures var u, g := Answered(t, b, o, calls), Sorted(t, b, o, calls);
            && (u.decision.Some? && u.decision.value.source == Declared <==>
                  && Declares(calls) != [] && !DeclareHeld(t, b, o, calls)
                  && !MarkerAnswered(g.run, o.replies) && !MarkerEchoed(Select(calls, IsFailed)))
            && (u.decision.Some? && u.decision.value.source == Declared ==>
                  u.decision.value.action == Declares(calls)[0].action)
  {
    hide HeartbeatGateUp, ResumeOf, DataAttempted, Rejected, Select, DeclaredAction, Declares, DeclareHeld,
      MarkerAnswered, MarkerEchoed, Dispatched, Feedback, Notes;
    var g := Sorted(t, b, o, calls);
    assert g.failed == Select(calls, IsFailed);
    hide Sorted;
    HeldIff(t, b, o, calls);
    BaseRejects(g, o.replies);
    if !DeclareHeld(t, b, o, calls) {
      RunDeclares(t, b, o, calls);
    }
  }

  const DECLARE_SELL := Call("3", DECLARE, Ok, SELL, true, false, PLAIN_REPLY)
  const ECHO := Reply(Usable, true, NoMarker, Unread)
  const UNREADABLE_DECLARE := Call("4", DECLARE, ParseFailure, OTHER, false, false, ECHO)

  /** A declaration whose tool failed outright is committed. */
  lemma FailedToolCommits(t: Tools, b: Before)
    requires b.dataSeen && b.phase == NoPhase && !b.heartbeat
    ensures Answered(t, b, Outside([Reply(Error, false, NoMarker, Unread)], false), [DECLARE_BUY]).decision ==
            Some(Decision(BUY, Declared))
  {
    hide Sorted, ResumeOf, RearmGateUp;
    var o := Outside([Reply(Error, false, NoMarker, Unread)], false);
    ControlsDiffer();
    SortedReady(t, b, o, DECLARE_BUY);
    var base := Dispatched([DECLARE_BUY], o.replies) + Feedback([]) + Notes([]);
    assert base == [Tool("2", DECLARE, Reply(Error, false, NoMarker, Unread), true)];
  }

  lemma SelectTwo(x: Call, y: Call, p: Call -> bool)
    ensures Select([x, y], p) == (if p(x) then [x] else []) + if p(y) then [y] else []
  {
    assert [x, y][..1] == [x];
    SelectOne(x, p);
  }

  /** An accepted declaration is not committed beside an unreadable one whose echo contains the marker. */
  lemma EchoBlocks(t: Tools, b: Before, o: Outside)
    ensures var u := Answered(t, b, o, [DECLARE_BUY, UNREADABLE_DECLARE]);
            !(u.decision.Some? && u.decision.value.source == Declared)
  {
    hide ToolNode.Answered, Sorted, Select, DeclareHeld, MarkerAnswered;
    var calls := [DECLARE_BUY, UNREADABLE_DECLARE];
    SelectTwo(DECLARE_BUY, UNREADABLE_DECLARE, IsFailed);
    assert Select(calls, IsFailed) == [UNREADABLE_DECLARE];
    assert MarkerEchoed([UNREADABLE_DECLARE]) by { EchoIsThere(); }
    OnlyTheMarkerRejects(t, b, o, calls);
  }

  lemma EchoIsThere()
    ensures MarkerEchoed([UNREADABLE_DECLARE])
  {
    var x := [UNREADABLE_DECLARE][0];
    assert IsDeclare(x) && x.feedback.rejected;
  }

  /** Of two declarations, one that is rejected keeps the other from being committed. */
  lemma RejectedTakesBoth(t: Tools, b: Before, first: Reply, second: Reply)
    requires first.rejected || second.rejected
    ensures var u := Answered(t, b, Outside([first, second], false), [DECLARE_BUY, DECLARE_SELL]);
            !(u.decision.Some? && u.decision.value.source == Declared)
  {
    hide ToolNode.Answered, Select, DeclareHeld, MarkerEchoed, HeartbeatGateUp, RearmGateUp;
    var o, calls := Outside([first, second], false), [DECLARE_BUY, DECLARE_SELL];
    OnlyTheMarkerRejects(t, b, o, calls);
    if !DeclareHeld(t, b, o, calls) {
      NotHeldRun(t, b, o);
      assert ReplyAt(o.replies, 0) == first && ReplyAt(o.replies, 1) == second;
      assert IsDeclare(calls[0]) && IsDeclare(calls[1]);
      assert MarkerAnswered(calls, o.replies);
    }
  }

  lemma NotHeldRun(t: Tools, b: Before, o: Outside)
    requires !DeclareHeld(t, b, o, [DECLARE_BUY, DECLARE_SELL])
    ensures Sorted(t, b, o, [DECLARE_BUY, DECLARE_SELL]).run == [DECLARE_BUY, DECLARE_SELL]
  {
    hide Select, HeartbeatGateUp, RearmGateUp;
    var calls := [DECLARE_BUY, DECLARE_SELL];
    ControlsDiffer();
    assert DECLARE_BUY in calls && IsDeclare(DECLARE_BUY) && IsOk(DECLARE_BUY);
    assert b.phase != Research && b.dataSeen;
    SelectTwo(DECLARE_BUY, DECLARE_SELL, IsOk);
    SelectTwo(DECLARE_BUY, DECLARE_SELL, NotStandAside);
    SelectTwo(DECLARE_BUY, DECLARE_SELL, NotRepeat);
    assert [DECLARE_BUY] + [DECLARE_SELL] == calls;
    assert Select(calls, IsOk) == calls && Select(calls, NotStandAside) == calls && Select(calls, NotRepeat) == calls;
  }

  // ── The session budget ───────────────────────────────────────────────────

  /** At an agent turn with both hunt predicates firing, the run leaves the loop exactly when the turn
      made no call or armed a watch. */
  lemma BudgetBitesIff(c: RawSetup, s: State, inp: Input)
    requires s.node == AtAgent && s.decision.None? && inp.capReached && inp.budgetSpent
    ensures Step(c, s, inp).node == AtForceTerminal <==> inp.calls == [] || HasLiveWatch(inp.calls)
    ensures Step(c, s, inp).node != AtForceTerminal ==> Step(c, s, inp).node == AtTools
  {
    hide ViewHasData, AdvocateDue, HasLiveWatch;
    var next := CallModel(c, s, inp);
    assert LastCalls(next.messages) == inp.calls;
  }

  /** One more data fetch, with every hunt predicate firing. */
  function Fetching(name: string): Input {
    Input([Call("1", name, Ok, OTHER, false, false, PLAIN_REPLY)], true, {}, true, true, Outside([], true), [])
  }

  function Endless(name: string, n: nat): (ins: seq<Input>)
    ensures |ins| == 2 * n && forall i :: 0 <= i < |ins| ==> ins[i] == Fetching(name)
  {
    seq(2 * n, i => Fetching(name))
  }

  lemma FetchAnswer(t: Tools, b: Before, o: Outside, x: Call)
    requires IsOk(x) && NotDeclare(x) && !IsWatch(x) && b.phase == NoPhase && o.replies == []
    ensures var u := Answered(t, b, o, [x]); u.decision.None? && !u.handOff
  {
    hide HeartbeatGateUp, ResumeOf, DataAttempted, Rejected, Sorted, Dispatched, Feedback, Notes;
    SortedReady(t, b, o, x);
    NoDeclareNoAction([x]);
  }

  predicate StillHunting(s: State) {
    s.node == AtAgent && s.decision.None? && s.mode == FIND && s.phase == NoPhase
  }

  lemma FetchRound(c: RawSetup, s: State, name: string)
    requires ValidSetup(c) && name != DECLARE && name != WATCH && StillHunting(s)
    ensures StillHunting(Step(c, Step(c, s, Fetching(name)), Fetching(name)))
  {
    var inp := Fetching(name);
    var x := inp.calls[0];
    assert !HasLiveWatch(inp.calls);
    BudgetBitesIff(c, s, inp);
    var s1 := Step(c, s, inp);
    AfterFetchTurn(c, s, inp);
    FetchAnswer(c.tools, Before(s1.messages, s1.phase, s1.dataSeen, s1.heartbeat, s1.postmortem), inp.outside, x);
    hide ToolNode.Answered, CallModel, ShouldContinue, Fetching;
    assert inp.calls == [x];
    UseToolsCounts(c, s1, inp);
  }

  lemma AfterFetchTurn(c: RawSetup, s: State, inp: Input)
    requires StillHunting(s) && inp.calls != []
    ensures var s1 := Step(c, s, inp);
            LastCalls(s1.messages) == inp.calls && s1.decision.None? && s1.mode == FIND && s1.phase == NoPhase
  {
    hide ViewHasData, AdvocateDue, HasLiveWatch, ShouldContinue;
  }

  /** The session budget is not a hard bound: a model that keeps fetching data stays in the loop for
      any number of turns while the watch cap and the session budget report exhaustion throughout. */
  lemma {:induction false} BudgetDoesNotEndFetching(c: RawSetup, name: string, n: nat)
    requires ValidSetup(c) && name != DECLARE && name != WATCH
    ensures StillHunting(Run(c, FIND, [], Endless(name, n)))
    decreases n
  {
    hide Step, Fetching, Endless;
    var ins := Endless(name, n);
    if n > 0 {
      BudgetDoesNotEndFetching(c, name, n - 1);
      var init := Endless(name, n - 1);
      assert ins[..2 * n - 1][..2 * n - 2] == init;
      FetchRound(c, Run(c, FIND, [], init), name);
      LastTwo(c, ins);
    }
  }

  lemma LastTwo(c: RawSetup, ins: seq<Input>)
    requires |ins| >= 2
    ensures var n := |ins|;
            Run(c, FIND, [], ins) == Step(c, Step(c, Run(c, FIND, [], ins[..n - 1][..n - 2]), ins[n - 2]), ins[n - 1])
  {
    hide Step;
    var n := |ins|;
    var most := ins[..n - 1];
    assert Run(c, FIND, [], ins) == Step(c, Run(c, FIND, [], most), ins[n - 1]);
    assert most[|most| - 1] == ins[n - 2];
  }

  // ── The devil's advocate ─────────────────────────────────────────────────

  ghost predicate AdvocateFits(s: State) {
    s.advocates == (if s.advocateDone then 1 else 0) && (s.mode != VERIFY ==> !s.advocateDone)
  }

  lemma StepAdvocate(c: RawSetup, s: State, inp: Input)
    requires AdvocateFits(s)
    ensures AdvocateFits(Step(c, s, inp))
    ensures Step(c, s, inp).advocates > s.advocates ==>
              s.mode == VERIFY && s.node == AtAgent && (s.dataSeen || DataSeen(c.tools, s.messages))
  {
    hide UseTools, ViewHasData, DataSeen, ShouldContinue, RouteAfterTools, RouteDebate,
      Judge.Deliberated, Judge.Verdict, Select, Notes, LastCalls;
    UseToolsCounts(c, s, inp);
  }

  /** The devil's advocate has spoken, with usable market data in the history before it. */
  ghost predicate AdvocateGrounded(t: Tools, ms: seq<Msg>) {
    exists k :: 0 <= k < |ms| && ms[k] == ADVOCATE && DataBefore(t, ms, k)
  }

  lemma GroundedGrows(t: Tools, ms: seq<Msg>, more: seq<Msg>)
    requires AdvocateGrounded(t, ms)
    ensures AdvocateGrounded(t, ms + more)
  {
    hide IsData, ADVOCATE;
    var k :| 0 <= k < |ms| && ms[k] == ADVOCATE && DataBefore(t, ms, k);
    DataKept(t, ms, more, k);
    assert (ms + more)[k] == ADVOCATE;
  }

  lemma StepGrows(c: RawSetup, s: State, inp: Input)
    ensures s.messages <= Step(c, s, inp).messages
  {
    hide ToolNode.Answered, ViewHasData, AdvocateDue, ShouldContinue, RouteAfterTools, RouteDebate,
      Judge.Deliberated, Judge.Verdict, Select, Notes, LastCalls;
    if s.node == AtTools {
      hide CallModel, ForceTerminal, ForceHold, Speak, Judged;
    } else if s.node == AtAgent {
      hide UseTools, ForceTerminal, ForceHold, Speak, Judged;
    } else {
      hide UseTools, CallModel;
    }
  }

  /** When the devil's advocate speaks, data is already there. */
  lemma SpeakingGrounded(c: RawSetup, s: State, inp: Input)
    requires EvidenceFits(c, s) && s.node == AtAgent && Step(c, s, inp).advocates > s.advocates
    ensures AdvocateGrounded(c.tools, Step(c, s, inp).messages)
  {
    hide ViewHasData, ShouldContinue, IsData;
    var ms, next := s.messages, Step(c, s, inp).messages;
    assert AdvocateDue(c, s);
    var more := [ADVOCATE] + [AI(inp.calls, inp.prose, false)];
    assert next == ms + more && next[|ms|] == ADVOCATE;
    assert DataBefore(c.tools, ms, |ms|);
    DataKept(c.tools, ms, more, |ms|);
  }

  lemma StepGrounded(c: RawSetup, s: State, inp: Input)
    requires AdvocateFits(s) && EvidenceFits(c, s)
    requires s.advocates > 0 ==> AdvocateGrounded(c.tools, s.messages)
    ensures Step(c, s, inp).advocates > 0 ==> AdvocateGrounded(c.tools, Step(c, s, inp).messages)
  {
    hide Step, AdvocateGrounded, EvidenceFits;
    StepAdvocate(c, s, inp);
    if Step(c, s, inp).advocates > s.advocates {
      SpeakingGrounded(c, s, inp);
    } else if s.advocates > 0 {
      StepGrows(c, s, inp);
      var next := Step(c, s, inp).messages;
      assert next == s.messages + next[|s.messages|..];
      GroundedGrows(c.tools, s.messages, next[|s.messages|..]);
    }
  }

  /** The devil's advocate speaks at most once in a run, only in VERIFY, and only after usable market data
      came in. */
  lemma {:induction false} AdvocateOnce(c: RawSetup, mode: Mode, opening: seq<Msg>, ins: seq<Input>)
    ensures AdvocateFits(Run(c, mode, opening, ins))
    ensures Run(c, mode, opening, ins).advocates <= if mode == VERIFY then 1 else 0
    ensures ValidSetup(c) && Run(c, mode, opening, ins).advocates > 0 ==>
              AdvocateGrounded(c.tools, Run(c, mode, opening, ins).messages)
  {
    hide Step, AdvocateGrounded, EvidenceFits;
    RunMode(c, mode, opening, ins);
    if ins != [] {
      var init := ins[..|ins| - 1];
      AdvocateOnce(c, mode, opening, init);
      StepAdvocate(c, Run(c, mode, opening, init), ins[|ins| - 1]);
      if ValidSetup(c) && mode != DEBATE {
        RunEvidence(c, mode, opening, init);
        StepGrounded(c, Run(c, mode, opening, init), ins[|ins| - 1]);
      }
    }
  }
}
