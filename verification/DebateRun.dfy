/** DEBATE runs: research, then Bull and Bear in turn, then the Judge; under every setting of the
    debate's environment variables (`debate.resolve_debate_config`). */
module DebateRun {
  import opened PyStrings
  import opened Messages
  import opened ToolNode
  import opened AgentRun
  import opened AgentSafety
  import Judge

  const MAX_ROUNDS := 5
  const MAX_TURNS_CAP := 11
  const JUDGE_CALLS_CAP := 5

  /** The environment's integers; None is unset, blank or not a number. */
  datatype Environment = Environment(rounds: Option<int>, maxTurns: Option<int>, judgeCalls: Option<int>)

  /** `_resolve_int_in_range` */
  function InRange(raw: Option<int>, default: int, low: int, high: int): int {
    if raw.Some? && low <= raw.value <= high then raw.value else default
  }

  /** The setup of a run under this environment. */
  function SetupOf(tools: Tools, budget: nat, env: Environment): (c: RawSetup)
    ensures 1 <= c.rounds <= MAX_ROUNDS && 2 * c.rounds + 1 <= c.maxTurns <= MAX_TURNS_CAP
    ensures c.judgeBudget <= JUDGE_CALLS_CAP && c.tools == tools && c.budget == budget
  {
    var rounds := InRange(env.rounds, 1, 1, MAX_ROUNDS);
    Setup(tools, budget, rounds, InRange(env.maxTurns, 2 * rounds + 1, 2 * rounds + 1, MAX_TURNS_CAP),
          InRange(env.judgeCalls, 2, 0, JUDGE_CALLS_CAP))
  }

  /** A setting within its range counts; an unset one, one that is no number and one out of range do not, and
      the default is taken: one round, just the turns the rounds need, two look-ups. */
  lemma SetupMeans(tools: Tools, budget: nat, env: Environment)
    ensures var c := SetupOf(tools, budget, env);
            && (forall n :: env.rounds == Some(n) && 1 <= n <= 5 ==> c.rounds == n)
            && ((forall n :: env.rounds == Some(n) ==> n < 1 || n > 5) ==> c.rounds == 1)
            && (forall n :: env.maxTurns == Some(n) && 2 * c.rounds + 1 <= n <= 11 ==> c.maxTurns == n)
            && ((forall n :: env.maxTurns == Some(n) ==> n < 2 * c.rounds + 1 || n > 11) ==>
                  c.maxTurns == 2 * c.rounds + 1)
            && (forall n :: env.judgeCalls == Some(n) && 0 <= n <= 5 ==> c.judgeBudget == n)
            && ((forall n :: env.judgeCalls == Some(n) ==> n < 0 || n > 5) ==> c.judgeBudget == 2)
  {
  }

  // ── The invariant of a debate ────────────────────────────────────────────

  ghost predicate DebateFits(c: RawSetup, s: State) {
    s.mode == DEBATE &&
    match s.node
    case AtAgent => Silent(s)
    case AtTools => Silent(s)
    case AtForceTerminal => Silent(s)
    case AtForceHold => false
    case AtBull => s.debateTurns == 2 * s.bulls && s.bulls == s.bears < c.rounds && s.judges == 0
    case AtBear =>
      s.debateTurns == 2 * s.bears + 1 && s.bulls == s.bears + 1 <= c.rounds &&
      s.debateRound == s.bulls && s.judges == 0
    case AtJudge => s.debateTurns == 2 * c.rounds && s.bulls == s.bears == c.rounds && s.judges == 0
    case AtEnd =>
      && s.decision.Some?
      && (s.judges == 0 ==> s.decision.value == Decision(HOLD, ForcedTerminal) && Silent(s))
      && (s.judges > 0 ==> s.judges == 1 && s.bulls == s.bears == c.rounds && s.debateTurns == 2 * c.rounds + 1)
  }

  /** No debate role has spoken yet. */
  predicate Silent(s: State) {
    s.debateTurns == 0 && s.bulls == 0 && s.bears == 0 && s.judges == 0
  }

  lemma ResearchStep(c: RawSetup, s: State, inp: Input)
    requires ValidSetup(c) && DebateFits(c, s) && CommitFits(s)
    requires s.node == AtAgent || s.node == AtTools || s.node == AtForceTerminal
    ensures DebateFits(c, Step(c, s, inp))
  {
    hide UseTools, ViewHasData, AdvocateDue, HasLiveWatch, Select, Notes;
    if s.node == AtTools {
      ToolsCommit(c, s, inp);
      UseToolsCounts(c, s, inp);
    }
  }

  lemma RoleStep(c: RawSetup, s: State, inp: Input)
    requires ValidSetup(c) && DebateFits(c, s)
    requires s.node == AtBull || s.node == AtBear || s.node == AtJudge
    ensures DebateFits(c, Step(c, s, inp))
    ensures s.node == AtBull ==> Step(c, s, inp).node == AtBear
    ensures s.node == AtBear ==> Step(c, s, inp).node == if s.bulls < c.rounds then AtBull else AtJudge
    ensures s.node == AtJudge ==> Step(c, s, inp).node == AtEnd
  {
    hide Judge.Deliberated, Judge.Verdict;
  }

  lemma {:induction false} RunDebates(c: RawSetup, opening: seq<Msg>, ins: seq<Input>)
    requires ValidSetup(c)
    ensures DebateFits(c, Run(c, DEBATE, opening, ins))
  {
    hide Step, DebateFits, CommitFits;
    if ins == [] {
      FreshDebate(c, opening);
    } else {
      var init := ins[..|ins| - 1];
      var s := Run(c, DEBATE, opening, init);
      RunDebates(c, opening, init);
      RunCommits(c, DEBATE, opening, init);
      match s.node {
        case AtBull => RoleStep(c, s, ins[|ins| - 1]);
        case AtBear => RoleStep(c, s, ins[|ins| - 1]);
        case AtJudge => RoleStep(c, s, ins[|ins| - 1]);
        case AtEnd => EndStays(c, s, ins[|ins| - 1]);
        case AtForceHold => NeverForcedHold(c, s);
        case _ => ResearchStep(c, s, ins[|ins| - 1]);
      }
    }
  }

  lemma NeverForcedHold(c: RawSetup, s: State)
    requires DebateFits(c, s)
    ensures s.node != AtForceHold
  {
  }

  lemma FreshDebate(c: RawSetup, opening: seq<Msg>)
    ensures DebateFits(c, Fresh(DEBATE, opening))
  {
  }

  // ── What a debate guarantees ─────────────────────────────────────────────

  /** However the environment is set, nothing but a stand-aside is committed before the Judge, and a
      run the Judge ended had exactly `rounds` Bull turns, as many Bear turns and one Judge turn,
      within the turn limits. */
  lemma DebateEnds(tools: Tools, budget: nat, env: Environment, opening: seq<Msg>, ins: seq<Input>)
    requires ValidTools(tools) && budget >= 1
    ensures var c := SetupOf(tools, budget, env);
            var s := Run(c, DEBATE, opening, ins);
            && (s.decision.Some? && IsTrade(s.decision.value) ==> s.judges == 1)
            && (s.judges == 0 && s.decision.Some? ==> s.decision.value == Decision(HOLD, ForcedTerminal))
            && (s.judges > 0 ==>
                  && s.node == AtEnd && s.decision.Some? && s.judges == 1 && s.bulls == s.bears == c.rounds
                  && s.debateTurns == 2 * c.rounds + 1 <= c.maxTurns <= MAX_TURNS_CAP)
  {
    hide Run;
    var c := SetupOf(tools, budget, env);
    RunDebates(c, opening, ins);
    RunCommits(c, DEBATE, opening, ins);
  }

  /** The step that ends the hunt without a debate: an agent turn that spends the session budget in prose,
      or arms a watch past the cap. */
  predicate HuntEnds(s: State, inp: Input) {
    && s.node == AtAgent
    && if inp.calls == [] then inp.budgetSpent else HasLiveWatch(inp.calls) && inp.capReached
  }

  ghost predicate HuntEnded(c: RawSetup, opening: seq<Msg>, ins: seq<Input>) {
    exists j :: 0 <= j < |ins| && HuntEnds(Run(c, DEBATE, opening, ins[..j]), ins[j])
  }

  lemma AgentStep(c: RawSetup, s: State, inp: Input)
    requires CommitFits(s) && s.node == AtAgent
    ensures Step(c, s, inp).node == AtForceTerminal <==> HuntEnds(s, inp)
    ensures Step(c, s, inp).node != AtEnd
  {
    hide ViewHasData, AdvocateDue, HasLiveWatch;
    assert LastCalls(CallModel(c, s, inp).messages) == inp.calls;
  }

  lemma HuntEndedStep(c: RawSetup, opening: seq<Msg>, ins: seq<Input>)
    requires ins != []
    ensures var init := ins[..|ins| - 1];
            HuntEnded(c, opening, ins) <==>
            HuntEnded(c, opening, init) || HuntEnds(Run(c, DEBATE, opening, init), ins[|ins| - 1])
  {
    hide Run, HuntEnds;
    var init := ins[..|ins| - 1];
    assert forall j :: 0 <= j < |init| ==> ins[..j] == init[..j] && ins[j] == init[j];
    if HuntEnds(Run(c, DEBATE, opening, init), ins[|ins| - 1]) {
      assert ins[..|init|] == init;
    }
  }

  /** No Judge has been, and none will be. */
  predicate Judgeless(s: State) { s.node == AtForceTerminal || (s.node == AtEnd && s.judges == 0) }

  lemma HuntGoesOn(c: RawSetup, s: State, inp: Input)
    requires DebateFits(c, s) && CommitFits(s) && s.node == AtTools
    ensures Step(c, s, inp).node == AtAgent || Step(c, s, inp).node == AtBull
  {
    hide UseTools;
    ToolsCommit(c, s, inp);
    UseToolsCounts(c, s, inp);
  }

  lemma ForcedEnd(c: RawSetup, s: State, inp: Input)
    requires DebateFits(c, s) && s.node == AtForceTerminal
    ensures Step(c, s, inp).node == AtEnd && Step(c, s, inp).judges == 0
  {
    hide Select, Notes;
  }

  lemma JudgelessStep(c: RawSetup, s: State, inp: Input)
    requires ValidSetup(c) && DebateFits(c, s) && CommitFits(s)
    ensures Judgeless(Step(c, s, inp)) <==> Judgeless(s) || HuntEnds(s, inp)
  {
    hide Step;
    match s.node {
      case AtAgent => AgentStep(c, s, inp);
      case AtTools => HuntGoesOn(c, s, inp);
      case AtForceTerminal => ForcedEnd(c, s, inp);
      case AtEnd => EndStays(c, s, inp);
      case AtForceHold => NeverForcedHold(c, s);
      case _ =>
        RoleStep(c, s, inp);
        JudgeCounts(c, s, inp);
    }
  }

  lemma JudgeCounts(c: RawSetup, s: State, inp: Input)
    requires s.node == AtBull || s.node == AtBear || s.node == AtJudge
    ensures Step(c, s, inp).judges == s.judges + if s.node == AtJudge then 1 else 0
  {
    hide Judge.Deliberated, Judge.Verdict;
  }

  lemma {:induction false} JudgelessRun(c: RawSetup, opening: seq<Msg>, ins: seq<Input>)
    requires ValidSetup(c)
    ensures Judgeless(Run(c, DEBATE, opening, ins)) <==> HuntEnded(c, opening, ins)
  {
    hide Step, DebateFits, CommitFits, HuntEnds, HuntEnded;
    if ins == [] {
      NotYetEnded(c, opening);
    } else {
      var init := ins[..|ins| - 1];
      JudgelessRun(c, opening, init);
      RunDebates(c, opening, init);
      RunCommits(c, DEBATE, opening, init);
      JudgelessStep(c, Run(c, DEBATE, opening, init), ins[|ins| - 1]);
      HuntEndedStep(c, opening, ins);
    }
  }

  lemma NotYetEnded(c: RawSetup, opening: seq<Msg>)
    ensures !HuntEnded(c, opening, [])
  {
  }

  /** A DEBATE run that is over never had its Judge exactly when a step of its research ended the hunt, and
      for every setting there are such runs: one turn of prose with the session budget spent is enough. */
  lemma JudgeSkippedIff(c: RawSetup, opening: seq<Msg>, ins: seq<Input>)
    requires ValidSetup(c) && Run(c, DEBATE, opening, ins).node == AtEnd
    ensures Run(c, DEBATE, opening, ins).judges == 0 <==> HuntEnded(c, opening, ins)
  {
    hide Run, HuntEnded;
    JudgelessRun(c, opening, ins);
  }

  /** The turn of prose, and the step of the forced stand-aside. */
  function SpentRun(): seq<Input> {
    var inp := Input([], true, {}, false, true, Outside([], false), []);
    [inp, inp]
  }

  lemma JudgeCanBeSkipped(c: RawSetup, opening: seq<Msg>)
    requires ValidSetup(c)
    ensures var s := Run(c, DEBATE, opening, SpentRun());
            s.node == AtEnd && s.judges == 0 && s.decision == Some(Decision(HOLD, ForcedTerminal))
  {
    hide ViewHasData, AdvocateDue, HasLiveWatch, Select, Notes;
    var ins := SpentRun();
    assert ins[..1][..0] == [];
    var s0 := Fresh(DEBATE, opening);
    assert Run(c, DEBATE, opening, ins[..1]) == Step(c, s0, ins[0]);
    FreshCommits(DEBATE, opening);
    AgentStep(c, s0, ins[0]);
  }

  /** The state after further inputs. */
  function Continue(c: RawSetup, s: State, ins: seq<Input>): State {
    if ins == [] then s else Step(c, Continue(c, s, ins[..|ins| - 1]), ins[|ins| - 1])
  }

  /** Who is due after `i` steps of a debate of `rounds` rounds. */
  function Due(rounds: nat, i: nat): Node {
    if i > 2 * rounds then AtEnd else if i == 2 * rounds then AtJudge else if i % 2 == 0 then AtBull else AtBear
  }

  ghost predicate OnSchedule(c: RawSetup, s: State, i: nat) {
    DebateFits(c, s) && s.node == Due(c.rounds, i) && (i <= 2 * c.rounds ==> s.debateTurns == i)
  }

  lemma ScheduleStep(c: RawSetup, s: State, i: nat, inp: Input)
    requires ValidSetup(c) && OnSchedule(c, s, i) && CommitFits(s)
    ensures OnSchedule(c, Step(c, s, inp), i + 1)
  {
    if i > 2 * c.rounds {
      EndStays(c, s, inp);
    } else {
      RoleStep(c, s, inp);
      TurnCounts(c, s, inp);
    }
  }

  lemma TurnCounts(c: RawSetup, s: State, inp: Input)
    requires s.node == AtBull || s.node == AtBear || s.node == AtJudge
    ensures Step(c, s, inp).debateTurns == s.debateTurns + 1
  {
    hide Judge.Deliberated, Judge.Verdict;
  }

  /** From the hand-off on, Bull and Bear strictly alternate for exactly `rounds` rounds, then the Judge
      speaks once, and after 2·rounds + 1 steps the run has ended, whatever the models say. */
  lemma {:induction false} DebateSchedule(c: RawSetup, s: State, ins: seq<Input>)
    requires ValidSetup(c) && DebateFits(c, s) && CommitFits(s) && s.node == AtBull && s.debateTurns == 0
    ensures Continue(c, s, ins).node == Due(c.rounds, |ins|)
    ensures OnSchedule(c, Continue(c, s, ins), |ins|) && CommitFits(Continue(c, s, ins))
  {
    hide Step, CommitFits, OnSchedule;
    if ins == [] {
      assert OnSchedule(c, s, 0) by { HandOffOnSchedule(c, s); }
    } else {
      var init := ins[..|ins| - 1];
      DebateSchedule(c, s, init);
      ScheduleStep(c, Continue(c, s, init), |init|, ins[|ins| - 1]);
      StepCommits(c, Continue(c, s, init), ins[|ins| - 1]);
    }
    ScheduleNode(c, Continue(c, s, ins), |ins|);
  }

  lemma {:induction false} RunContinues(c: RawSetup, opening: seq<Msg>, ins: seq<Input>, more: seq<Input>)
    ensures Run(c, DEBATE, opening, ins + more) == Continue(c, Run(c, DEBATE, opening, ins), more)
    decreases |more|
  {
    hide Step;
    if more == [] {
      assert ins + more == ins;
    } else {
      var all := ins + more;
      assert all[..|all| - 1] == ins + more[..|more| - 1];
      RunContinues(c, opening, ins, more[..|more| - 1]);
    }
  }

  /** So it is in every DEBATE run, from the step at which its research hands off. */
  lemma ScheduleFromHandOff(c: RawSetup, opening: seq<Msg>, ins: seq<Input>, more: seq<Input>)
    requires ValidSetup(c)
    requires var s := Run(c, DEBATE, opening, ins); s.node == AtBull && s.debateTurns == 0
    ensures Run(c, DEBATE, opening, ins + more).node == Due(c.rounds, |more|)
  {
    hide Run, Continue;
    RunDebates(c, opening, ins);
    RunCommits(c, DEBATE, opening, ins);
    RunContinues(c, opening, ins, more);
    DebateSchedule(c, Run(c, DEBATE, opening, ins), more);
  }

  lemma HandOffOnSchedule(c: RawSetup, s: State)
    requires ValidSetup(c) && DebateFits(c, s) && s.node == AtBull && s.debateTurns == 0
    ensures OnSchedule(c, s, 0)
  {
  }

  lemma ScheduleNode(c: RawSetup, s: State, i: nat)
    requires OnSchedule(c, s, i)
    ensures s.node == Due(c.rounds, i)
  {
  }
}
