/** The Q&A sub-loop: `qa_node`, `qa_tool_node` and `qa_should_continue`, which answer questions about
    a committed trade and may not touch it. */
module TradeQa {
  import opened PyStrings
  import opened Messages
  import opened ToolNode
  import opened History

  const MAX_QA_TURNS := 8
  const RUN_DEBATE := "run_debate"
  const RERUN_ANALYSIS := "rerun_analysis"

  /** The status a Q&A turn gives a call; the trade-changing tools are refused. */
  datatype QaStatus = Allowed | Forbidden | Failed

  predicate IsForbidden(c: Call) { IsDeclare(c) || IsWatch(c) }

  predicate IsSubagent(c: Call) { c.name == RUN_DEBATE || c.name == RERUN_ANALYSIS }

  predicate NotSubagent(c: Call) { !IsSubagent(c) }

  function Classified(c: Call): QaStatus {
    if IsFailed(c) then Failed else if IsForbidden(c) then QaStatus.Forbidden else Allowed
  }

  /** The statuses are kept by call id, so the last call with an id decides for all of them. */
  function StatusFor(cs: seq<Call>, id: string): QaStatus {
    if cs == [] then Allowed
    else if cs[|cs| - 1].id == id then Classified(cs[|cs| - 1])
    else StatusFor(cs[..|cs| - 1], id)
  }

  function AllowedIn(cs: seq<Call>): Call -> bool { (c: Call) => StatusFor(cs, c.id) == Allowed }

  function RefusedIn(cs: seq<Call>): Call -> bool { (c: Call) => StatusFor(cs, c.id) != Allowed }

  /** The calls sent to the tools. */
  function Sent(cs: seq<Call>): seq<Call> { Select(Select(cs, AllowedIn(cs)), NotSubagent) }

  /** `qa_tool_node`'s new messages. */
  function QaAnswers(cs: seq<Call>, replies: seq<Reply>): seq<Msg> {
    Dispatched(Sent(cs), replies) + Notes(Select(Select(cs, AllowedIn(cs)), IsSubagent)) +
    Notes(Select(cs, RefusedIn(cs)))
  }

  /** `qa_tool_node`, with its three lists. */
  method AnswerQa(cs: seq<Call>, replies: seq<Reply>) returns (out: seq<Msg>)
    ensures out == QaAnswers(cs, replies)
  {
    hide StatusFor, Dispatched, Notes;
    var others, ok := Gate(true, cs, RefusedIn(cs), AllowedIn(cs));
    var subagents;
    subagents, ok := Gate(true, ok, IsSubagent, NotSubagent);
    out := [];
    if ok != [] {
      out := Dispatched(ok, replies);
    } else {
      NothingDispatched(replies);
    }
    out := out + Notes(subagents);
    out := out + Notes(others);
  }

  lemma NothingDispatched(replies: seq<Reply>)
    ensures Dispatched([], replies) == []
  {
  }

  /** Every call of a Q&A message is answered exactly once. */
  lemma {:induction false} EveryQuestionCallAnswered(cs: seq<Call>, replies: seq<Reply>)
    ensures AnswerIds(QaAnswers(cs, replies)) == CallIds(cs)
  {
    hide Select, StatusFor, AnswerIds, CallIds, Dispatched, Notes;
    var allowed := Select(cs, AllowedIn(cs));
    SelectSplits(cs, AllowedIn(cs), RefusedIn(cs));
    SelectSplits(allowed, NotSubagent, IsSubagent);
    var a, b, r := Dispatched(Sent(cs), replies), Notes(Select(allowed, IsSubagent)), Notes(Select(cs, RefusedIn(cs)));
    OneAnswerEach(Sent(cs), a);
    AnswersOfNotes(Select(allowed, IsSubagent));
    AnswersOfNotes(Select(cs, RefusedIn(cs)));
    AnswersJoin(a, b);
    AnswersJoin(a + b, r);
  }

  lemma AnswersOfNotes(cs: seq<Call>)
    ensures AnswerIds(Notes(cs)) == CallIds(cs)
  {
    OneAnswerEach(cs, Notes(cs));
  }

  /** No call after `j` has its id. */
  predicate IsLast(cs: seq<Call>, j: nat)
    requires j < |cs|
  {
    forall k :: j < k < |cs| ==> cs[k].id != cs[j].id
  }

  /** A forbidden call whose id a later, allowed call decides for. */
  predicate Overridden(cs: seq<Call>, i: nat, j: nat) {
    i < j < |cs| && cs[i].id == cs[j].id && IsForbidden(cs[i]) && Classified(cs[j]) == Allowed && IsLast(cs, j)
  }

  lemma SentIff(cs: seq<Call>, x: Call)
    requires x in cs
    ensures x in Sent(cs) <==> StatusFor(cs, x.id) == Allowed && NotSubagent(x)
  {
    hide StatusFor, IsSubagent;
  }

  /** Which calls are sent: those whose id belongs, at its last use, to a well-formed call that neither declares
      nor arms a watch, and that do not start a debate or another analysis. */
  lemma SentMeans(cs: seq<Call>, x: Call, j: nat)
    requires x in cs && j < |cs| && IsLast(cs, j) && cs[j].id == x.id
    ensures x in Sent(cs) <==>
            && cs[j].status == Ok && cs[j].name != DECLARE && cs[j].name != WATCH
            && x.name != "run_debate" && x.name != "rerun_analysis"
  {
    hide Sent, StatusFor;
    SentIff(cs, x);
    StatusIsLast(cs, j);
  }

  lemma SentFromCalls(cs: seq<Call>)
    ensures forall x :: x in Sent(cs) ==> x in cs
  {
  }

  /** A declaration or watch reaches the tools exactly when a later allowed call shares its id; so with
      distinct ids none ever does. */
  lemma ForbiddenSentIff(cs: seq<Call>)
    ensures (exists x :: x in Sent(cs) && (IsDeclare(x) || IsWatch(x))) <==>
            (exists i: nat, j: nat :: Overridden(cs, i, j))
  {
    hide Sent, StatusFor, Classified, IsDeclare, IsWatch;
    SentFromCalls(cs);
    if x :| x in Sent(cs) && IsForbidden(x) {
      SentIff(cs, x);
      var i :| 0 <= i < |cs| && cs[i] == x;
      var j := LastWith(cs, x.id);
      ForbiddenNotAllowed(x);
      assert Overridden(cs, i, j);
    }
    if i: nat, j: nat :| Overridden(cs, i, j) {
      StatusIsLast(cs, j);
      ForbiddenNotAllowed(cs[i]);
      SentIff(cs, cs[i]);
    }
  }

  lemma ForbiddenNotAllowed(x: Call)
    requires IsForbidden(x)
    ensures Classified(x) != Allowed && NotSubagent(x)
  {
    assert DECLARE[0] == 'd' && WATCH[0] == 'w' && RUN_DEBATE[0] == 'r' && RERUN_ANALYSIS[0] == 'r';
  }

  /** The position of the last call with an id. */
  lemma LastWith(cs: seq<Call>, id: string) returns (j: nat)
    requires exists i :: 0 <= i < |cs| && cs[i].id == id
    ensures j < |cs| && cs[j].id == id && IsLast(cs, j)
    ensures StatusFor(cs, id) == Classified(cs[j])
  {
    var n := |cs| - 1;
    if cs[n].id == id {
      j := n;
    } else {
      var i :| 0 <= i < |cs| && cs[i].id == id;
      assert cs[..n][i].id == id;
      j := LastWith(cs[..n], id);
      assert forall k :: j < k < n ==> cs[k] == cs[..n][k];
    }
  }

  lemma {:induction false} StatusIsLast(cs: seq<Call>, j: nat)
    requires j < |cs| && IsLast(cs, j)
    ensures StatusFor(cs, cs[j].id) == Classified(cs[j])
  {
    if j < |cs| - 1 {
      StatusIsLast(cs[..|cs| - 1], j);
    }
  }

  const SHARED_DECLARE := Call("1", DECLARE, Ok, BUY, true, false, PLAIN_REPLY)
  const SHARED_FETCH := Call("1", "get_candles", Ok, OTHER, false, false, PLAIN_REPLY)

  /** A declaration that a look-up with the same id follows is sent to the tools. */
  lemma SharedIdSends()
    ensures SHARED_DECLARE in Sent([SHARED_DECLARE, SHARED_FETCH]) && IsForbidden(SHARED_DECLARE)
  {
    hide Sent;
    var cs := [SHARED_DECLARE, SHARED_FETCH];
    assert StatusFor(cs, "1") == Classified(SHARED_FETCH);
    assert Classified(SHARED_FETCH) == Allowed by {
      assert "get_candles"[0] == 'g' && DECLARE[0] == 'd' && WATCH[0] == 'w';
    }
    ForbiddenNotAllowed(SHARED_DECLARE);
    SentIff(cs, SHARED_DECLARE);
  }

  // ── The sub-loop ─────────────────────────────────────────────────────────

  datatype Place = Asking | Fetching | Done

  /** A Q&A run on a thread: `turns` counts this run's passes through `qa_node`. */
  datatype State = State(place: Place, messages: seq<Msg>, qaTurns: nat, decision: Option<Decision>, turns: nat)

  /** What one step brings: whether the personalisation guardrail refuses, the model's calls, and the
      tools' replies. */
  datatype Input = Input(refused: bool, calls: seq<Call>, prose: bool, replies: seq<Reply>)

  function LastCalls(ms: seq<Msg>): seq<Call> {
    if ms == [] then [] else CallsOf(ms[|ms| - 1])
  }

  function Step(s: State, inp: Input): State {
    match s.place
    case Asking =>
      var calls := if inp.refused then [] else inp.calls;
      var next := s.(messages := s.messages + [AI(calls, inp.refused || inp.prose, false)],
                     qaTurns := s.qaTurns + 1, turns := s.turns + 1);
      next.(place := if calls != [] && next.qaTurns < MAX_QA_TURNS then Fetching else Done)
    case Fetching => s.(place := Asking, messages := s.messages + QaAnswers(LastCalls(s.messages), inp.replies))
    case Done => s
  }

  function Run(s: State, ins: seq<Input>): State {
    if ins == [] then s else Step(Run(s, ins[..|ins| - 1]), ins[|ins| - 1])
  }

  /** A question put to a thread whose messages so far are `before`. */
  function Question(before: seq<Msg>, qaTurns: nat, decision: Option<Decision>): State {
    State(Asking, before, qaTurns, decision, 0)
  }

  function Max(a: int, b: int): int { if a < b then b else a }

  /** The calls and answers this run has added, and the turns it has taken. */
  ghost predicate RunFits(s: State, before: seq<Msg>, qaTurns: nat, decision: Option<Decision>) {
    && s.decision == decision && before <= s.messages
    && s.qaTurns == qaTurns + s.turns
    && (s.place != Done ==> s.turns == 0 || s.qaTurns < MAX_QA_TURNS)
    && (s.place == Asking ==> s.turns == 0 || qaTurns < MAX_QA_TURNS)
    && s.turns <= Max(1, MAX_QA_TURNS - qaTurns)
    && (s.place == Asking ==> s.turns < Max(1, MAX_QA_TURNS - qaTurns))
    && (s.place != Asking ==> |s.messages| > |before|)
    && (s.place == Done && LastCalls(s.messages) != [] ==> s.qaTurns >= MAX_QA_TURNS)
    && var added := s.messages[|before|..];
       AllCallIds(added) == AnswerIds(added) + if s.place == Asking then multiset{} else CallIds(LastCalls(s.messages))
  }

  lemma StepFits(s: State, inp: Input, before: seq<Msg>, qaTurns: nat, decision: Option<Decision>)
    requires RunFits(s, before, qaTurns, decision)
    ensures RunFits(Step(s, inp), before, qaTurns, decision)
  {
    hide QaAnswers, AnswerIds, AllCallIds, CallIds;
    var added, next := s.messages[|before|..], Step(s, inp);
    if s.place == Asking {
      var m := next.messages[|next.messages| - 1];
      assert next.messages[|before|..] == added + [m];
      CallsJoin(added, [m]);
      AnswersJoin(added, [m]);
      OneMessage(m);
    } else if s.place == Fetching {
      var out := QaAnswers(LastCalls(s.messages), inp.replies);
      assert next.messages[|before|..] == added + out;
      CallsJoin(added, out);
      AnswersJoin(added, out);
      EveryQuestionCallAnswered(LastCalls(s.messages), inp.replies);
      OnlyToolMessages(LastCalls(s.messages), inp.replies);
    }
  }

  lemma OneMessage(m: Msg)
    requires m.AI?
    ensures AllCallIds([m]) == CallIds(CallsOf(m)) && AnswerIds([m]) == multiset{}
  {
    assert [m][..0] == [];
  }

  lemma OnlyToolMessages(cs: seq<Call>, replies: seq<Reply>)
    ensures AllCallIds(QaAnswers(cs, replies)) == multiset{}
  {
    hide Select, StatusFor;
    NoCalls(QaAnswers(cs, replies));
  }

  lemma {:induction false} NoCalls(ms: seq<Msg>)
    requires forall i :: 0 <= i < |ms| ==> ms[i].Tool?
    ensures AllCallIds(ms) == multiset{}
  {
    if ms != [] {
      NoCalls(ms[..|ms| - 1]);
      assert CallIds([]) == multiset{};
    }
  }

  lemma {:induction false} RunsFit(before: seq<Msg>, qaTurns: nat, decision: Option<Decision>, ins: seq<Input>)
    ensures RunFits(Run(Question(before, qaTurns, decision), ins), before, qaTurns, decision)
  {
    hide Step, RunFits;
    if ins == [] {
      QuestionFits(before, qaTurns, decision);
    } else {
      RunsFit(before, qaTurns, decision, ins[..|ins| - 1]);
      StepFits(Run(Question(before, qaTurns, decision), ins[..|ins| - 1]), ins[|ins| - 1], before, qaTurns, decision);
    }
  }

  lemma QuestionFits(before: seq<Msg>, qaTurns: nat, decision: Option<Decision>)
    ensures RunFits(Question(before, qaTurns, decision), before, qaTurns, decision)
  {
    assert before[|before|..] == [];
  }

  /** Over any Q&A run: the committed decision stays, messages are only added, there are at most
      max(1, 8 - q0) passes through `qa_node`, and every call made is answered once, save those on the
      closing message, which can be left open only when the turn budget is used up. */
  lemma QaKeepsTheTrade(before: seq<Msg>, qaTurns: nat, decision: Option<Decision>, ins: seq<Input>)
    ensures var s := Run(Question(before, qaTurns, decision), ins);
            && s.decision == decision && before <= s.messages
            && s.turns <= Max(1, 8 - qaTurns)
            && (s.place == Done ==>
                  var added := s.messages[|before|..];
                  && AllCallIds(added) == AnswerIds(added) + CallIds(LastCalls(s.messages))
                  && (LastCalls(s.messages) != [] ==> s.qaTurns >= 8))
  {
    hide Run;
    RunsFit(before, qaTurns, decision, ins);
  }

  /** The calls a turn of the sub-loop ends on. */
  function TurnCalls(inp: Input): seq<Call> { if inp.refused then [] else inp.calls }

  lemma TurnStep(s: State, inp: Input)
    requires s.place == Asking
    ensures var s' := Step(s, inp);
            && s'.messages ==
               s.messages + [if inp.refused then AI([], true, false) else AI(inp.calls, inp.prose, false)]
            && LastCalls(s'.messages) == TurnCalls(inp)
            && (s'.place == Done <==> TurnCalls(inp) == [] || s.qaTurns + 1 >= MAX_QA_TURNS)
  {
  }

  /** Calls are left unanswered at the end. */
  ghost predicate ClosesOpen(s: State, before: seq<Msg>) {
    s.place == Done && before <= s.messages && AllCallIds(s.messages[|before|..]) != AnswerIds(s.messages[|before|..])
  }

  lemma {:induction false} NoIdsIffNone(cs: seq<Call>)
    ensures CallIds(cs) == multiset{} <==> cs == []
  {
    if cs != [] {
      assert cs[|cs| - 1].id in CallIds(cs);
    }
  }

  /** A turn closes the run and leaves calls unanswered exactly when it makes calls and uses up the turn
      budget; a turn that closes it otherwise leaves none. */
  lemma ClosesOpenIff(before: seq<Msg>, qaTurns: nat, decision: Option<Decision>, ins: seq<Input>, inp: Input)
    requires Run(Question(before, qaTurns, decision), ins).place == Asking
    ensures var s := Run(Question(before, qaTurns, decision), ins);
            ClosesOpen(Step(s, inp), before) <==> TurnCalls(inp) != [] && s.qaTurns + 1 >= MAX_QA_TURNS
  {
    hide Run, Step, CallIds, AllCallIds, AnswerIds;
    var s := Run(Question(before, qaTurns, decision), ins);
    RunsFit(before, qaTurns, decision, ins);
    StepFits(s, inp, before, qaTurns, decision);
    TurnStep(s, inp);
    NoIdsIffNone(TurnCalls(inp));
  }

  /** A model that always asks for one more look-up. */
  function Insisting(n: nat): (ins: seq<Input>)
    ensures |ins| == 2 * n && forall i :: 0 <= i < |ins| ==> ins[i] == ONE_MORE
  {
    seq(2 * n, i => ONE_MORE)
  }

  const ONE_MORE := Input(false, [Call("1", "get_candles", Ok, OTHER, false, false, PLAIN_REPLY)], true, [])

  lemma {:induction false} InsistingAsks(before: seq<Msg>, qaTurns: nat, decision: Option<Decision>, n: nat)
    requires n == 0 || qaTurns + n < MAX_QA_TURNS
    ensures var s := Run(Question(before, qaTurns, decision), Insisting(n));
                s.place == Asking && s.qaTurns == qaTurns + n
    decreases n
  {
    hide QaAnswers, Insisting;
    if n > 0 {
      var ins := Insisting(n);
      InsistingAsks(before, qaTurns, decision, n - 1);
      assert ins[..2 * n - 1][..2 * n - 2] == Insisting(n - 1);
      TurnStep(Run(Question(before, qaTurns, decision), Insisting(n - 1)), ONE_MORE);
      assert Run(Question(before, qaTurns, decision), ins[..2 * n - 1]) ==
             Step(Run(Question(before, qaTurns, decision), Insisting(n - 1)), ONE_MORE);
    }
  }

  /** Whatever the thread's turn count was, a model that insists on tools closes its run on an unanswered
      call. */
  lemma CanCloseOpen(before: seq<Msg>, qaTurns: nat, decision: Option<Decision>)
    ensures exists ins :: ClosesOpen(Run(Question(before, qaTurns, decision), ins), before)
  {
    hide ClosesOpen, Step;
    var n := Max(1, MAX_QA_TURNS - qaTurns) - 1;
    var ins := Insisting(n);
    InsistingAsks(before, qaTurns, decision, n);
    ClosesOpenIff(before, qaTurns, decision, ins, ONE_MORE);
    assert (ins + [ONE_MORE])[..|ins|] == ins;
    assert ClosesOpen(Run(Question(before, qaTurns, decision), ins + [ONE_MORE]), before);
  }

  /** A run is over after at most 2·max(1, 8 - q0) steps. */
  lemma {:induction false} QaEnds(before: seq<Msg>, qaTurns: nat, decision: Option<Decision>, ins: seq<Input>)
    requires |ins| >= 2 * Max(1, MAX_QA_TURNS - qaTurns)
    ensures Run(Question(before, qaTurns, decision), ins).place == Done
  {
    StepsCount(before, qaTurns, decision, ins);
    RunsFit(before, qaTurns, decision, ins);
  }

  lemma {:induction false} StepsCount(before: seq<Msg>, qaTurns: nat, decision: Option<Decision>, ins: seq<Input>)
    ensures var s := Run(Question(before, qaTurns, decision), ins);
            || s.place == Done
            || (s.place == Asking && |ins| == 2 * s.turns)
            || (s.place == Fetching && |ins| == 2 * s.turns - 1)
  {
    hide QaAnswers;
    if ins != [] {
      StepsCount(before, qaTurns, decision, ins[..|ins| - 1]);
    }
  }
}
