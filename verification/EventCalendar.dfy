/** `event_calendar.get_calendar` as a state machine: any number of threads, one shared-variable
    access per step, an upstream that answers or fails as it likes, and a clock that never runs
    backwards. The purposes setting is fixed. */
module EventCalendar {
  import opened PyStrings

  /** `normalise` is `normalise_rows` under the fixed purposes; `unfiltered` says those purposes are
      the empty tuple, which is also what the cache starts with. */
  datatype RawConfig<!Raw, Row> = Config(ttl: real, grace: real, unfiltered: bool, normalise: Raw -> seq<Row>)

  predicate ValidConfig<Raw, Row>(cfg: RawConfig<Raw, Row>) { cfg.ttl > 0.0 && cfg.grace > 0.0 }

  /** What a call returns, with what it was answered from: the number of fetches published by then,
      and the clock reading it was judged by. */
  datatype Answer<Row> =
    | Fresh(rows: seq<Row>, fetches: nat, now: real)
    | Stale(rows: seq<Row>, fetches: nat, now: real)
    | Unavailable

  /** Where a thread stands in `get_calendar`; `held` says it is past the lock. */
  datatype Pc<Raw, Row> =
    | Idle
    | CheckRows(now: real, force: bool, held: bool)
    | CheckPurposes(now: real, force: bool, held: bool)
    | CheckAge(now: real, force: bool, held: bool)
    | CopyRows(now: real, held: bool)
    | Waiting(force: bool)
    | Acquired(force: bool)
    | Fetching(force: bool, started: real)
    | Failed
    | StoreRows(raw: Raw)
    | StoreTime(raw: Raw)
    | StorePurposes(raw: Raw)
    | Returned(answer: Answer<Row>)

  /** A published fetch; its time is stored one step after its rows. */
  datatype Fetch<Raw> = Fetch(raw: Raw, at: Option<real>)

  datatype State<Raw, Row> = State(
    clock: real, rows: Option<seq<Row>>, at: real, samePurposes: bool,
    lock: Option<nat>, threads: map<nat, Pc<Raw, Row>>, log: seq<Fetch<Raw>>)

  datatype Event<Raw> = Tick(seconds: real) | Call(thread: nat, force: bool) | Go(thread: nat, fetched: Option<Raw>)

  function At<Raw, Row>(s: State<Raw, Row>, t: nat): Pc<Raw, Row> {
    if t in s.threads then s.threads[t] else Idle
  }

  function Move<Raw, Row>(s: State<Raw, Row>, t: nat, pc: Pc<Raw, Row>): State<Raw, Row> {
    s.(threads := s.threads[t := pc])
  }

  /** The thread returns, leaving the lock if it holds it. */
  function Return<Raw, Row>(s: State<Raw, Row>, t: nat, answer: Answer<Row>, held: bool): State<Raw, Row> {
    Move(if held then s.(lock := None) else s, t, Returned(answer))
  }

  /** The cache will not do: wait for the lock, or fetch if past it. */
  function Miss<Raw, Row>(s: State<Raw, Row>, t: nat, force: bool, held: bool): State<Raw, Row> {
    Move(s, t, if held then Fetching(force, s.clock) else Waiting(force))
  }

  /** One step of `get_calendar` in thread `t`; `fetched` is the upstream's answer, if asked. */
  function Advance<Raw, Row>(cfg: RawConfig<Raw, Row>, s: State<Raw, Row>,
                  t: nat, fetched: Option<Raw>): State<Raw, Row> {
    match At(s, t)
    case CheckRows(now, force, held) =>
      if s.rows.None? then Miss(s, t, force, held) else Move(s, t, CheckPurposes(now, force, held))
    case CheckPurposes(now, force, held) =>
      if !s.samePurposes then Miss(s, t, force, held) else Move(s, t, CheckAge(now, force, held))
    case CheckAge(now, force, held) =>
      if now - s.at < cfg.ttl && !force then Move(s, t, CopyRows(now, held)) else Miss(s, t, force, held)
    case CopyRows(now, held) =>
      Return(s, t, Fresh(if s.rows.Some? then s.rows.value else [], |s.log|, now), held)
    case Waiting(force) =>
      if s.lock.None? then Move(s.(lock := Some(t)), t, Acquired(force)) else s
    case Acquired(force) => Move(s, t, CheckRows(s.clock, force, true))
    case Fetching(_, _) => Move(s, t, if fetched.Some? then StoreRows(fetched.value) else Failed)
    case Failed =>
      var age := s.clock - s.at;
      Return(s, t, if s.rows.Some? && s.samePurposes && age <= cfg.grace then Stale(s.rows.value, |s.log|, s.clock)
                   else Unavailable, true)
    case StoreRows(raw) =>
      Move(s.(rows := Some(cfg.normalise(raw)), log := s.log + [Fetch(raw, None)]), t, StoreTime(raw))
    case StoreTime(raw) =>
      Move(s.(at := s.clock, log := if s.log == [] then [] else s.log[..|s.log| - 1] + [Fetch(raw, Some(s.clock))]),
           t, StorePurposes(raw))
    case StorePurposes(raw) =>
      Return(s.(samePurposes := true), t, Fresh(cfg.normalise(raw), |s.log|, s.at), true)
    case Idle => s
    case Returned(_) => s
  }

  function Step<Raw, Row>(cfg: RawConfig<Raw, Row>, s: State<Raw, Row>, e: Event<Raw>): State<Raw, Row> {
    match e
    case Tick(d) => if d >= 0.0 then s.(clock := s.clock + d) else s
    case Call(t, force) =>
      if At(s, t).Idle? || At(s, t).Returned? then Move(s, t, CheckRows(s.clock, force, false)) else s
    case Go(t, fetched) => Advance(cfg, s, t, fetched)
  }

  function Start<Raw, Row>(cfg: RawConfig<Raw, Row>, clock: real): State<Raw, Row> {
    State(clock, None, 0.0, cfg.unfiltered, None, map[], [])
  }

  /** The state after a history of events from a fresh process. */
  function Run<Raw, Row>(cfg: RawConfig<Raw, Row>, clock: real, es: seq<Event<Raw>>): State<Raw, Row> {
    if es == [] then Start(cfg, clock) else Step(cfg, Run(cfg, clock, es[..|es| - 1]), es[|es| - 1])
  }

  // ── The invariant ────────────────────────────────────────────────────────

  predicate Holds<Raw, Row>(pc: Pc<Raw, Row>) {
    match pc
    case CheckRows(_, _, held) => held
    case CheckPurposes(_, _, held) => held
    case CheckAge(_, _, held) => held
    case CopyRows(_, held) => held
    case Acquired(_) => true
    case Fetching(_, _) => true
    case Failed => true
    case StoreRows(_) => true
    case StoreTime(_) => true
    case StorePurposes(_) => true
    case _ => false
  }

  /** The lock is held by exactly the thread that is past it. */
  ghost predicate LockFits<Raw, Row>(s: State<Raw, Row>) {
    forall t: nat :: Holds(At(s, t)) <==> s.lock == Some(t)
  }

  /** Some thread has stored rows but not yet their time. */
  ghost predicate Storing<Raw, Row>(s: State<Raw, Row>) {
    s.lock.Some? && At(s, s.lock.value).StoreTime?
  }

  ghost predicate Labelling<Raw, Row>(s: State<Raw, Row>) {
    s.lock.Some? && At(s, s.lock.value).StorePurposes?
  }

  /** The shared variables tell of the latest published fetch. */
  ghost predicate CacheFits<Raw, Row>(cfg: RawConfig<Raw, Row>, s: State<Raw, Row>) {
    var n := |s.log|;
    && s.rows == (if n == 0 then None else Some(cfg.normalise(s.log[n - 1].raw)))
    && 0.0 <= s.at <= s.clock
    && (forall i :: 0 <= i < n - 1 ==> s.log[i].at.Some?)
    && (n > 0 ==> (s.log[n - 1].at.None? <==> Storing(s)))
    && (n > 0 && !Storing(s) ==> s.log[n - 1].at == Some(s.at))
    && (n > 0 && !Storing(s) && !Labelling(s) ==> s.samePurposes)
    && ((Storing(s) || Labelling(s)) ==> n > 0)
  }

  /** What an answer's rows are: those of the fetch it was answered from, recent enough. */
  ghost predicate AnswerFits<Raw, Row>(cfg: RawConfig<Raw, Row>, s: State<Raw, Row>, a: Answer<Row>) {
    match a
    case Fresh(rows, k, now) =>
      && 0 < k <= |s.log| && rows == cfg.normalise(s.log[k - 1].raw) && now <= s.clock
      && (s.log[k - 1].at.Some? ==> now - s.log[k - 1].at.value < cfg.ttl)
    case Stale(rows, k, now) =>
      && 0 < k <= |s.log| && rows == cfg.normalise(s.log[k - 1].raw)
      && s.log[k - 1].at.Some? && now - s.log[k - 1].at.value <= cfg.grace
    case Unavailable => true
  }

  /** What a thread may rely on where it stands. */
  ghost predicate ThreadFits<Raw, Row>(cfg: RawConfig<Raw, Row>, s: State<Raw, Row>, pc: Pc<Raw, Row>) {
    match pc
    case CheckRows(now, _, _) => now <= s.clock
    case CheckPurposes(now, _, _) => now <= s.clock && s.log != []
    case CheckAge(now, _, _) => now <= s.clock && s.log != []
    case CopyRows(now, _) => now <= s.clock && s.log != [] && now - s.at < cfg.ttl
    case Fetching(force, started) => started <= s.clock && (force || s.log == [] || started - s.at >= cfg.ttl)
    case StoreTime(raw) => s.log != [] && s.log[|s.log| - 1].raw == raw
    case StorePurposes(raw) => s.log != [] && s.log[|s.log| - 1].raw == raw
    case Returned(a) => AnswerFits(cfg, s, a)
    case _ => true
  }

  ghost predicate Inv<Raw, Row>(cfg: RawConfig<Raw, Row>, s: State<Raw, Row>) {
    LockFits(s) && CacheFits(cfg, s) && forall t: nat :: ThreadFits(cfg, s, At(s, t))
  }

  /** How the shared state may change while another thread looks on. */
  ghost predicate Grows<Raw, Row>(cfg: RawConfig<Raw, Row>, s: State<Raw, Row>, s': State<Raw, Row>) {
    && s.clock <= s'.clock && s.at <= s'.at && |s.log| <= |s'.log|
    && (forall i :: 0 <= i < |s.log| ==>
          s'.log[i].raw == s.log[i].raw &&
          (s'.log[i].at == s.log[i].at || (s.log[i].at.None? && s'.log[i].at == Some(s.clock))))
  }

  lemma OthersFit<Raw, Row>(cfg: RawConfig<Raw, Row>, s: State<Raw, Row>, s': State<Raw, Row>, pc: Pc<Raw, Row>)
    requires ValidConfig(cfg) && Grows(cfg, s, s') && ThreadFits(cfg, s, pc)
    requires Holds(pc) ==> s'.log == s.log && s'.at == s.at
    ensures ThreadFits(cfg, s', pc)
  {
  }

  lemma Lookup<Raw, Row>(s: State<Raw, Row>, s': State<Raw, Row>, t: nat, pc: Pc<Raw, Row>)
    requires s'.threads == s.threads[t := pc]
    ensures forall u: nat :: At(s', u) == if u == t then pc else At(s, u)
  {
  }

  /** A step that only moves thread `t`, on the same side of the lock. */
  lemma QuietStep<Raw, Row>(cfg: RawConfig<Raw, Row>, s: State<Raw, Row>, t: nat, pc: Pc<Raw, Row>)
    requires ValidConfig(cfg) && Inv(cfg, s) && ThreadFits(cfg, s, pc) && Holds(pc) == Holds(At(s, t))
    requires !pc.StoreTime? && !pc.StorePurposes? && !At(s, t).StoreTime? && !At(s, t).StorePurposes?
    ensures Inv(cfg, Move(s, t, pc))
  {
    hide ThreadFits;
    var s' := Move(s, t, pc);
    Lookup(s, s', t, pc);
    forall u: nat
      ensures ThreadFits(cfg, s', At(s', u))
    {
      OthersFit(cfg, s, s', if u == t then pc else At(s, u));
    }
  }

  /** Returning an answer that fits. */
  lemma ReturnStep<Raw, Row>(cfg: RawConfig<Raw, Row>, s: State<Raw, Row>, t: nat, a: Answer<Row>, held: bool)
    requires ValidConfig(cfg) && Inv(cfg, s) && AnswerFits(cfg, s, a) && held == Holds(At(s, t))
    requires !At(s, t).StoreTime? && !At(s, t).StorePurposes?
    ensures Inv(cfg, Return(s, t, a, held))
  {
    hide ThreadFits, AnswerFits;
    var s' := Return(s, t, a, held);
    Lookup(s, s', t, Returned(a));
    ReturnedFits(cfg, s, a);
    forall u: nat
      ensures ThreadFits(cfg, s', At(s', u))
    {
      OthersFit(cfg, s, s', At(s', u));
    }
  }

  lemma ReturnedFits<Raw, Row>(cfg: RawConfig<Raw, Row>, s: State<Raw, Row>, a: Answer<Row>)
    requires AnswerFits(cfg, s, a)
    ensures ThreadFits(cfg, s, Returned(a))
  {
  }

  lemma AcquireStep<Raw, Row>(cfg: RawConfig<Raw, Row>, s: State<Raw, Row>, t: nat, force: bool)
    requires ValidConfig(cfg) && Inv(cfg, s) && At(s, t) == Waiting(force) && s.lock.None?
    ensures Inv(cfg, Move(s.(lock := Some(t)), t, Acquired(force)))
  {
    hide ThreadFits;
    var s' := Move(s.(lock := Some(t)), t, Acquired(force));
    Lookup(s, s', t, Acquired(force));
    assert ThreadFits(cfg, s', Acquired(force)) by { AcquiredFits(cfg, s', force); }
    forall u: nat | u != t
      ensures ThreadFits(cfg, s', At(s', u))
    {
      OthersFit(cfg, s, s', At(s', u));
    }
  }

  lemma AcquiredFits<Raw, Row>(cfg: RawConfig<Raw, Row>, s: State<Raw, Row>, force: bool)
    ensures ThreadFits(cfg, s, Acquired(force))
  {
  }

  lemma StoreRowsStep<Raw, Row>(cfg: RawConfig<Raw, Row>, s: State<Raw, Row>, t: nat, raw: Raw)
    requires ValidConfig(cfg) && Inv(cfg, s) && At(s, t) == StoreRows(raw)
    ensures Inv(cfg, Advance(cfg, s, t, None))
  {
    var s' := Advance(cfg, s, t, None);
    Lookup(s, s', t, StoreTime(raw));
    assert Holds(At(s, t));
    assert ThreadFits(cfg, s', StoreTime(raw));
    hide ThreadFits;
    forall u: nat | u != t
      ensures ThreadFits(cfg, s', At(s', u))
    {
      assert !Holds(At(s, u));
      OthersFit(cfg, s, s', At(s', u));
    }
  }

  lemma StoreTimeStep<Raw, Row>(cfg: RawConfig<Raw, Row>, s: State<Raw, Row>, t: nat, raw: Raw)
    requires ValidConfig(cfg) && Inv(cfg, s) && At(s, t) == StoreTime(raw)
    ensures Inv(cfg, Advance(cfg, s, t, None))
  {
    var s' := Advance(cfg, s, t, None);
    Lookup(s, s', t, StorePurposes(raw));
    assert Holds(At(s, t)) && Storing(s);
    assert ThreadFits(cfg, s, StoreTime(raw));
    assert ThreadFits(cfg, s', StorePurposes(raw));
    hide ThreadFits;
    forall u: nat | u != t
      ensures ThreadFits(cfg, s', At(s', u))
    {
      assert !Holds(At(s, u));
      OthersFit(cfg, s, s', At(s', u));
    }
  }

  lemma StorePurposesStep<Raw, Row>(cfg: RawConfig<Raw, Row>, s: State<Raw, Row>, t: nat, raw: Raw)
    requires ValidConfig(cfg) && Inv(cfg, s) && At(s, t) == StorePurposes(raw)
    ensures Inv(cfg, Advance(cfg, s, t, None))
  {
    var s' := Advance(cfg, s, t, None);
    var a := Fresh(cfg.normalise(raw), |s.log|, s.at);
    Lookup(s, s', t, Returned(a));
    assert Holds(At(s, t)) && Labelling(s);
    assert ThreadFits(cfg, s, StorePurposes(raw));
    hide ThreadFits;
    ReturnedFits(cfg, s', a);
    forall u: nat | u != t
      ensures ThreadFits(cfg, s', At(s', u))
    {
      assert !Holds(At(s, u));
      OthersFit(cfg, s, s', At(s', u));
    }
  }

  lemma TickStep<Raw, Row>(cfg: RawConfig<Raw, Row>, s: State<Raw, Row>, d: real)
    requires ValidConfig(cfg) && Inv(cfg, s) && d >= 0.0
    ensures Inv(cfg, s.(clock := s.clock + d))
  {
    hide ThreadFits;
    var s' := s.(clock := s.clock + d);
    forall u: nat
      ensures At(s', u) == At(s, u) && ThreadFits(cfg, s', At(s', u))
    {
      OthersFit(cfg, s, s', At(s, u));
    }
  }

  lemma MissStep<Raw, Row>(cfg: RawConfig<Raw, Row>, s: State<Raw, Row>, t: nat, force: bool, held: bool)
    requires ValidConfig(cfg) && Inv(cfg, s) && held == Holds(At(s, t))
    requires !At(s, t).StoreTime? && !At(s, t).StorePurposes?
    requires held ==> force || s.log == [] || s.clock - s.at >= cfg.ttl
    ensures Inv(cfg, Miss(s, t, force, held))
  {
    QuietStep(cfg, s, t, if held then Fetching(force, s.clock) else Waiting(force));
  }

  /** Past the lock nobody else writes, so the cache variables belong together. */
  lemma HolderSees<Raw, Row>(cfg: RawConfig<Raw, Row>, s: State<Raw, Row>, t: nat)
    requires Inv(cfg, s) && Holds(At(s, t)) && !At(s, t).StoreTime? && !At(s, t).StorePurposes?
    ensures s.log != [] ==> s.samePurposes && s.log[|s.log| - 1].at == Some(s.at)
  {
  }

  lemma CheckStep<Raw, Row>(cfg: RawConfig<Raw, Row>, s: State<Raw, Row>, t: nat)
    requires ValidConfig(cfg) && Inv(cfg, s)
    requires At(s, t).CheckRows? || At(s, t).CheckPurposes? || At(s, t).CheckAge?
    ensures Inv(cfg, Advance(cfg, s, t, None))
  {
    assert ThreadFits(cfg, s, At(s, t));
    match At(s, t) {
      case CheckRows(now, force, held) =>
        if s.rows.None? {
          MissStep(cfg, s, t, force, held);
        } else {
          QuietStep(cfg, s, t, CheckPurposes(now, force, held));
        }
      case CheckPurposes(now, force, held) =>
        if held {
          HolderSees(cfg, s, t);
        }
        if !s.samePurposes {
          MissStep(cfg, s, t, force, held);
        } else {
          QuietStep(cfg, s, t, CheckAge(now, force, held));
        }
      case CheckAge(now, force, held) =>
        if now - s.at < cfg.ttl && !force {
          QuietStep(cfg, s, t, CopyRows(now, held));
        } else {
          MissStep(cfg, s, t, force, held);
        }
    }
  }

  lemma AnswerStep<Raw, Row>(cfg: RawConfig<Raw, Row>, s: State<Raw, Row>, t: nat)
    requires ValidConfig(cfg) && Inv(cfg, s) && (At(s, t).CopyRows? || At(s, t).Failed?)
    ensures Inv(cfg, Advance(cfg, s, t, None))
  {
    assert ThreadFits(cfg, s, At(s, t));
    match At(s, t) {
      case CopyRows(now, held) =>
        ReturnStep(cfg, s, t, Fresh(s.rows.value, |s.log|, now), held);
      case Failed =>
        HolderSees(cfg, s, t);
        if s.rows.Some? && s.samePurposes && s.clock - s.at <= cfg.grace {
          ReturnStep(cfg, s, t, Stale(s.rows.value, |s.log|, s.clock), true);
        } else {
          ReturnStep(cfg, s, t, Unavailable, true);
        }
    }
  }

  lemma StepKeepsInv<Raw, Row>(cfg: RawConfig<Raw, Row>, s: State<Raw, Row>, e: Event<Raw>)
    requires ValidConfig(cfg) && Inv(cfg, s)
    ensures Inv(cfg, Step(cfg, s, e))
  {
    hide Inv, Miss, Return;
    match e {
      case Tick(d) =>
        if d >= 0.0 {
          TickStep(cfg, s, d);
        }
      case Call(t, force) =>
        if At(s, t).Idle? || At(s, t).Returned? {
          QuietStep(cfg, s, t, CheckRows(s.clock, force, false));
        }
      case Go(t, fetched) =>
        match At(s, t) {
          case CheckRows(_, _, _) => CheckStep(cfg, s, t);
          case CheckPurposes(_, _, _) => CheckStep(cfg, s, t);
          case CheckAge(_, _, _) => CheckStep(cfg, s, t);
          case CopyRows(_, _) => AnswerStep(cfg, s, t);
          case Failed => AnswerStep(cfg, s, t);
          case Waiting(force) =>
            if s.lock.None? {
              AcquireStep(cfg, s, t, force);
            }
          case Acquired(force) => QuietStep(cfg, s, t, CheckRows(s.clock, force, true));
          case Fetching(_, _) => QuietStep(cfg, s, t, if fetched.Some? then StoreRows(fetched.value) else Failed);
          case StoreRows(raw) => StoreRowsStep(cfg, s, t, raw);
          case StoreTime(raw) => StoreTimeStep(cfg, s, t, raw);
          case StorePurposes(raw) => StorePurposesStep(cfg, s, t, raw);
          case _ =>
        }
    }
  }

  lemma {:induction false} RunKeepsInv<Raw, Row>(cfg: RawConfig<Raw, Row>, clock: real, es: seq<Event<Raw>>)
    requires ValidConfig(cfg) && clock >= 0.0
    ensures Inv(cfg, Run(cfg, clock, es))
  {
    hide Step;
    if es != [] {
      hide Inv;
      RunKeepsInv(cfg, clock, es[..|es| - 1]);
      StepKeepsInv(cfg, Run(cfg, clock, es[..|es| - 1]), es[|es| - 1]);
    }
  }

  // ── What callers may rely on ─────────────────────────────────────────────

  /** Whatever the threads have done, every answer in hand holds exactly the normalised rows of one
      published fetch, younger than the ttl at the caller's reading of the clock when it is not
      marked stale, and at most the grace old when it is. */
  lemma {:induction false} AnswersAreFetches<Raw, Row>(cfg: RawConfig<Raw, Row>, clock: real,
          es: seq<Event<Raw>>, t: nat)
    requires ValidConfig(cfg) && clock >= 0.0 && At(Run(cfg, clock, es), t).Returned?
    ensures AnswerFits(cfg, Run(cfg, clock, es), At(Run(cfg, clock, es), t).answer)
  {
    RunKeepsInv(cfg, clock, es);
    assert ThreadFits(cfg, Run(cfg, clock, es), At(Run(cfg, clock, es), t));
  }

  /** At the step that returns it, an answer is from the latest published fetch, and the call raises
      exactly when the upstream failed and no cached fetch is within the grace. */
  lemma AnswersAreLatest<Raw, Row>(cfg: RawConfig<Raw, Row>, clock: real,
          es: seq<Event<Raw>>, t: nat, fetched: Option<Raw>)
    requires ValidConfig(cfg) && clock >= 0.0
    ensures var s, s' := Run(cfg, clock, es), Run(cfg, clock, es + [Go(t, fetched)]);
            !At(s, t).Returned? && At(s', t).Returned? ==>
              match At(s', t).answer
              case Unavailable =>
                && At(s, t).Failed?
                && (s.log != [] ==> s.log[|s.log| - 1].at.Some? && s.clock - s.log[|s.log| - 1].at.value > cfg.grace)
              case Fresh(_, k, _) => k == |s'.log| && !At(s, t).Failed?
              case Stale(_, k, now) => k == |s'.log| && now == s.clock && At(s, t).Failed?
  {
    RunKeepsInv(cfg, clock, es);
    var s := Run(cfg, clock, es);
    assert (es + [Go(t, fetched)])[..|es|] == es;
    if At(s, t).Failed? {
      HolderSees(cfg, s, t);
    }
  }

  /** At most one fetch is under way, and unless a caller forced it, it started at least a ttl after
      the latest published one. */
  lemma FetchesAreSpaced<Raw, Row>(cfg: RawConfig<Raw, Row>, clock: real, es: seq<Event<Raw>>, t: nat, u: nat)
    requires ValidConfig(cfg) && clock >= 0.0
    requires At(Run(cfg, clock, es), t).Fetching?
    ensures At(Run(cfg, clock, es), u).Fetching? ==> t == u
    ensures var s := Run(cfg, clock, es);
            s.log != [] && !At(s, t).force ==>
              s.log[|s.log| - 1].at.Some? && At(s, t).started >= s.log[|s.log| - 1].at.value + cfg.ttl
  {
    RunKeepsInv(cfg, clock, es);
    var s := Run(cfg, clock, es);
    assert Holds(At(s, t)) && (At(s, u).Fetching? ==> Holds(At(s, u)));
    assert ThreadFits(cfg, s, At(s, t));
    HolderSees(cfg, s, t);
  }
}
