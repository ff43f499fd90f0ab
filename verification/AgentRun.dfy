/** The agent graph as a step machine: the model, the tools, the bounded-hunt predicates and the
    context pruning are inputs chosen by an adversary, the nodes and routers are the code's. */
module AgentRun {
  import opened PyStrings
  import opened Messages
  import opened ToolNode
  import Judge

  /** Any other mode string behaves as FIND. */
  datatype Mode = FIND | VERIFY | DEBATE

  datatype Node = AtAgent | AtTools | AtForceHold | AtForceTerminal | AtBull | AtBear | AtJudge | AtEnd

  /** What is fixed over a run: the tool sets, the reasoning budget and the debate configuration. */
  datatype RawSetup = Setup(tools: Tools, budget: nat, rounds: nat, maxTurns: nat, judgeBudget: nat)

  predicate ValidSetup(c: RawSetup) {
    ValidTools(c.tools) && c.budget >= 1 && 1 <= c.rounds && 2 * c.rounds + 1 <= c.maxTurns
  }

  /** The thread's state, where the run stands, and counters of what has happened. */
  datatype State = State(
    node: Node, mode: Mode, messages: seq<Msg>, phase: Phase, decision: Option<Decision>,
    reasoning: nat, dataSeen: bool, heartbeat: bool, postmortem: bool, advocateDone: bool,
    debateTurns: nat, debateRound: nat,
    commits: nat, turns: nat, callTurns: nat, advocates: nat, bulls: nat, bears: nat, judges: nat)

  /** What the adversary supplies for one step: the model's calls, which messages pruning leaves it
      to see, the two hunt predicates, the tools' replies, and the Judge's turns. */
  datatype Input = Input(
    calls: seq<Call>, prose: bool, kept: set<nat>, capReached: bool, budgetSpent: bool,
    outside: Outside, judge: seq<Judge.Turn>)

  /** The devil's advocate speaks once, in VERIFY, when there is data. */
  predicate AdvocateDue(c: RawSetup, s: State) {
    s.mode == VERIFY && !s.advocateDone && (s.dataSeen || DataSeen(c.tools, s.messages))
  }

  /** The messages pruning leaves include usable market data. */
  predicate ViewHasData(t: Tools, ms: seq<Msg>, kept: set<nat>) {
    exists i :: 0 <= i < |ms| && i in kept && IsData(t, ms[i])
  }

  const ADVOCATE := AI([], true, true)

  /** `call_model` */
  function CallModel(c: RawSetup, s: State, inp: Input): State {
    var due := AdvocateDue(c, s);
    var shown := if due then s.messages + [ADVOCATE] else s.messages;
    s.(messages := shown + [AI(inp.calls, inp.prose, false)],
       reasoning := if inp.calls != [] then 0 else s.reasoning + 1,
       dataSeen := s.dataSeen || ViewHasData(c.tools, shown, inp.kept),
       advocateDone := s.advocateDone || due,
       phase := if s.mode == DEBATE && s.phase == NoPhase then Research else s.phase,
       turns := s.turns + 1,
       callTurns := s.callTurns + if inp.calls != [] then 1 else 0,
       advocates := s.advocates + if due then 1 else 0)
  }

  predicate HasLiveWatch(cs: seq<Call>) {
    exists i :: 0 <= i < |cs| && IsOk(cs[i]) && IsWatch(cs[i])
  }

  function LastCalls(ms: seq<Msg>): seq<Call> {
    if ms == [] then [] else CallsOf(ms[|ms| - 1])
  }

  /** `should_continue` */
  function ShouldContinue(c: RawSetup, s: State, inp: Input): Node {
    var calls := LastCalls(s.messages);
    if calls != [] then
      (if HasLiveWatch(calls) && inp.capReached then AtForceTerminal else AtTools)
    else if s.decision.Some? then AtEnd
    else if inp.budgetSpent then AtForceTerminal
    else if s.reasoning < c.budget then AtAgent
    else if s.phase != NoPhase then AtBull
    else AtForceHold
  }

  /** Finalizing a decision. */
  function Commit(s: State, d: Decision): State {
    s.(decision := Some(d), commits := s.commits + 1)
  }

  /** `tool_node` */
  function UseTools(c: RawSetup, s: State, inp: Input): State {
    var u := ToolNode.Answered(c.tools, Before(s.messages, s.phase, s.dataSeen, s.heartbeat, s.postmortem),
                          inp.outside, LastCalls(s.messages));
    var next := s.(
      messages := s.messages + u.out,
      phase := if u.handOff then Debating else s.phase,
      heartbeat := if u.resume.NoResume? then s.heartbeat else u.resume.AfterHeartbeat?,
      postmortem := s.postmortem || u.resume.AfterInvalidation?);
    if u.decision.Some? then Commit(next, u.decision.value) else next
  }

  /** `route_after_tools` */
  function RouteAfterTools(s: State): Node {
    if s.decision.Some? then AtEnd else if s.phase == Debating then AtBull else AtAgent
  }

  /** `force_terminal`: answers the live watches and stands aside. */
  function ForceTerminal(s: State): State {
    var watches := Select(Select(LastCalls(s.messages), IsOk), IsWatch);
    Commit(s.(messages := s.messages + Notes(watches) + [CLOSING]), Decision(HOLD, ForcedTerminal))
  }

  /** `force_hold` */
  function ForceHold(s: State): State {
    Commit(s.(messages := s.messages + [CLOSING]), Decision(HOLD, ForcedHold))
  }

  /** `bull_node` and `bear_node`; a role that fails or says nothing appends no message. */
  function Speak(s: State, inp: Input): State {
    s.(debateTurns := s.debateTurns + 1, phase := Debating,
       messages := if inp.prose then s.messages + [CLOSING] else s.messages)
  }

  /** `route_debate` */
  function RouteDebate(c: RawSetup, s: State): Node {
    if s.debateRound < c.rounds && s.debateTurns < c.maxTurns then AtBull else AtJudge
  }

  /** `judge_node` */
  function Judged(c: RawSetup, s: State, inp: Input): State {
    var o := Judge.Deliberated(inp.judge, c.judgeBudget);
    Commit(s.(debateTurns := s.debateTurns + 1, phase := Debating, judges := s.judges + 1,
              messages := s.messages + o.out + if o.action.Some? then [] else [CLOSING]),
           Judge.Verdict(o))
  }

  /** One node of the graph and the edge it takes. */
  function Step(c: RawSetup, s: State, inp: Input): State {
    match s.node
    case AtAgent => var next := CallModel(c, s, inp); next.(node := ShouldContinue(c, next, inp))
    case AtTools => var next := UseTools(c, s, inp); next.(node := RouteAfterTools(next))
    case AtForceHold => ForceHold(s).(node := AtEnd)
    case AtForceTerminal => ForceTerminal(s).(node := AtEnd)
    case AtBull => Speak(s.(debateRound := s.debateTurns / 2 + 1), inp).(node := AtBear, bulls := s.bulls + 1)
    case AtBear => var next := Speak(s, inp).(bears := s.bears + 1); next.(node := RouteDebate(c, next))
    case AtJudge => Judged(c, s, inp).(node := AtEnd)
    case AtEnd => s
  }

  /** A fresh thread: some opening messages, nothing decided, nothing counted. */
  function Fresh(mode: Mode, opening: seq<Msg>): State {
    State(AtAgent, mode, opening, NoPhase, None, 0, false, false, false, false, 0, 0, 0, 0, 0, 0, 0, 0, 0)
  }

  /** Opening messages come from the user or the system. */
  predicate IsOpening(ms: seq<Msg>) {
    forall i :: 0 <= i < |ms| ==> ms[i].System? || ms[i].Human?
  }

  /** The state after the inputs `ins`; a run that has ended stays as it is. */
  function Run(c: RawSetup, mode: Mode, opening: seq<Msg>, ins: seq<Input>): State {
    if ins == [] then Fresh(mode, opening)
    else Step(c, Run(c, mode, opening, ins[..|ins| - 1]), ins[|ins| - 1])
  }

  // ── Turn bound ───────────────────────────────────────────────────────────

  /** Turns so far, told from the turns that made calls and the reasoning counter. */
  ghost predicate TurnsFit(c: RawSetup, s: State) {
    && s.turns <= s.callTurns * c.budget + s.reasoning
    && s.reasoning <= c.budget
    && (s.node == AtAgent || s.node == AtTools ==> s.reasoning < c.budget)
    && (s.node == AtTools ==> s.reasoning == 0)
  }

  lemma UseToolsCounts(c: RawSetup, s: State, inp: Input)
    ensures var s' := UseTools(c, s, inp);
            && s'.turns == s.turns && s'.callTurns == s.callTurns && s'.reasoning == s.reasoning
            && s'.mode == s.mode && s'.dataSeen == s.dataSeen && s'.node == s.node
            && s'.advocates == s.advocates && s'.advocateDone == s.advocateDone
            && s'.debateTurns == s.debateTurns && s'.debateRound == s.debateRound
            && s'.bulls == s.bulls && s'.bears == s.bears && s'.judges == s.judges
  {
    hide ToolNode.Answered;
  }

  lemma CallTurnGrows(k: nat, b: nat)
    ensures (k + 1) * b == k * b + b
  {
  }

  lemma StepTurns(c: RawSetup, s: State, inp: Input)
    requires ValidSetup(c) && TurnsFit(c, s)
    ensures TurnsFit(c, Step(c, s, inp))
  {
    hide UseTools, ViewHasData, AdvocateDue, HasLiveWatch, Judge.Deliberated, Judge.Verdict;
    CallTurnGrows(s.callTurns, c.budget);
    if s.node == AtTools {
      UseToolsCounts(c, s, inp);
    }
  }

  lemma {:induction false} RunTurns(c: RawSetup, mode: Mode, opening: seq<Msg>, ins: seq<Input>)
    requires ValidSetup(c)
    ensures TurnsFit(c, Run(c, mode, opening, ins))
  {
    hide Step, TurnsFit;
    if ins == [] {
      FreshTurns(c, mode, opening);
    } else {
      RunTurns(c, mode, opening, ins[..|ins| - 1]);
      StepTurns(c, Run(c, mode, opening, ins[..|ins| - 1]), ins[|ins| - 1]);
    }
  }

  lemma FreshTurns(c: RawSetup, mode: Mode, opening: seq<Msg>)
    requires ValidSetup(c)
    ensures TurnsFit(c, Fresh(mode, opening))
  {
  }

  /** A run with N turns that made calls has at most (N + 1)·B agent turns, in every mode and
      whatever the hunt predicates say. */
  lemma TurnBound(c: RawSetup, mode: Mode, opening: seq<Msg>, ins: seq<Input>)
    requires ValidSetup(c)
    ensures var s := Run(c, mode, opening, ins); s.turns <= (s.callTurns + 1) * c.budget
  {
    hide Run;
    RunTurns(c, mode, opening, ins);
    CallTurnGrows(Run(c, mode, opening, ins).callTurns, c.budget);
  }
}
