/** `event_calendar.get_calendar` without interleaving: a call that no other thread disturbs does what the
    function says, whatever history went before. */
module CalendarAlone {
  import opened PyStrings
  import opened EventCalendar

  /** The state after `n` steps of thread `t`. */
  function Turns<Raw, Row>(cfg: RawConfig<Raw, Row>, s: State<Raw, Row>, t: nat, fetched: Option<Raw>,
                n: nat): State<Raw, Row>
  {
    if n == 0 then s else Advance(cfg, Turns(cfg, s, t, fetched, n - 1), t, fetched)
  }

  lemma {:induction false} TurnsAdd<Raw, Row>(cfg: RawConfig<Raw, Row>, s: State<Raw, Row>, t: nat,
          fetched: Option<Raw>, m: nat, n: nat)
    ensures Turns(cfg, s, t, fetched, m + n) == Turns(cfg, Turns(cfg, s, t, fetched, m), t, fetched, n)
  {
    hide Advance;
    if n > 0 {
      TurnsAdd(cfg, s, t, fetched, m, n - 1);
    }
  }

  lemma {:induction false} ReturnedStays<Raw, Row>(cfg: RawConfig<Raw, Row>, s: State<Raw, Row>, t: nat,
          fetched: Option<Raw>, n: nat)
    requires At(s, t).Returned?
    ensures Turns(cfg, s, t, fetched, n) == s
  {
    if n > 0 {
      ReturnedStays(cfg, s, t, fetched, n - 1);
    }
  }

  lemma Turn<Raw, Row>(cfg: RawConfig<Raw, Row>, s: State<Raw, Row>, t: nat, fetched: Option<Raw>)
    ensures Turns(cfg, s, t, fetched, 1) == Advance(cfg, s, t, fetched)
  {
    assert Turns(cfg, s, t, fetched, 0) == s;
  }

  lemma Moved<Raw, Row>(s: State<Raw, Row>, t: nat, a: Pc<Raw, Row>, b: Pc<Raw, Row>)
    ensures Move(Move(s, t, a), t, b) == Move(s, t, b) && At(Move(s, t, a), t) == a
  {
    assert s.threads[t := a][t := b] == s.threads[t := b];
  }

  /** The cache answers a call at `now`. */
  predicate Serves<Raw, Row>(cfg: RawConfig<Raw, Row>, s: State<Raw, Row>, now: real, force: bool) {
    !force && s.rows.Some? && s.samePurposes && now - s.at < cfg.ttl
  }

  /** `_fresh_rows` on its own: the three checks, and a copy if they pass. */
  lemma Check<Raw, Row>(cfg: RawConfig<Raw, Row>, s: State<Raw, Row>, t: nat, fetched: Option<Raw>,
                        now: real, force: bool, held: bool) returns (n: nat)
    ensures n <= 4 && (!Serves(cfg, s, now, force) ==> n <= 3)
    ensures Turns(cfg, Move(s, t, CheckRows(now, force, held)), t, fetched, n) ==
            if Serves(cfg, s, now, force) then Return(s, t, Fresh(s.rows.value, |s.log|, now), held)
            else Miss(s, t, force, held)
  {
    hide Turns;
    var a, b, c, d := CheckRows(now, force, held), CheckPurposes(now, force, held), CheckAge(now, force, held),
                      CopyRows(now, held);
    n := 1;
    OneTurn(cfg, s, t, fetched, a);
    if s.rows.Some? {
      n := 2;
      TwoTurns(cfg, s, t, fetched, a, b, 1);
      if s.samePurposes {
        n := 3;
        TwoTurns(cfg, s, t, fetched, a, c, 2);
        if Serves(cfg, s, now, force) {
          n := 4;
          TwoTurns(cfg, s, t, fetched, a, d, 3);
        }
      }
    }
  }

  lemma OneTurn<Raw, Row>(cfg: RawConfig<Raw, Row>, s: State<Raw, Row>, t: nat, fetched: Option<Raw>,
                          pc: Pc<Raw, Row>)
    requires pc.CheckRows?
    ensures Turns(cfg, Move(s, t, pc), t, fetched, 1) ==
            if s.rows.None? then Miss(s, t, pc.force, pc.held) else Move(s, t, CheckPurposes(pc.now, pc.force, pc.held))
  {
    Turn(cfg, Move(s, t, pc), t, fetched);
    Moved(s, t, pc, Waiting(pc.force));
    Moved(s, t, pc, Fetching(pc.force, s.clock));
    Moved(s, t, pc, CheckPurposes(pc.now, pc.force, pc.held));
  }

  /** One more turn, from a check that was reached after `n`. */
  lemma TwoTurns<Raw, Row>(cfg: RawConfig<Raw, Row>, s: State<Raw, Row>, t: nat, fetched: Option<Raw>,
                           start: Pc<Raw, Row>, pc: Pc<Raw, Row>, n: nat)
    requires pc.CheckPurposes? || pc.CheckAge? || (pc.CopyRows? && s.rows.Some?)
    requires Turns(cfg, Move(s, t, start), t, fetched, n) == Move(s, t, pc)
    ensures Turns(cfg, Move(s, t, start), t, fetched, n + 1) ==
            match pc
            case CheckPurposes(now, force, held) =>
              if !s.samePurposes then Miss(s, t, force, held) else Move(s, t, CheckAge(now, force, held))
            case CheckAge(now, force, held) =>
              if now - s.at < cfg.ttl && !force then Move(s, t, CopyRows(now, held)) else Miss(s, t, force, held)
            case CopyRows(now, held) => Return(s, t, Fresh(s.rows.value, |s.log|, now), held)
            case _ => s
  {
    Turn(cfg, Move(s, t, pc), t, fetched);
    TurnsAdd(cfg, Move(s, t, start), t, fetched, n, 1);
    hide Turns;
    match pc
    case CheckPurposes(now, force, held) => AfterCheck(s, t, pc, now, force, held);
    case CheckAge(now, force, held) => AfterCheck(s, t, pc, now, force, held);
    case CopyRows(now, held) => AfterCopy(s, t, pc, Fresh(s.rows.value, |s.log|, now), held);
  }

  lemma AfterCheck<Raw, Row>(s: State<Raw, Row>, t: nat, pc: Pc<Raw, Row>, now: real, force: bool, held: bool)
    ensures At(Move(s, t, pc), t) == pc
    ensures Miss(Move(s, t, pc), t, force, held) == Miss(s, t, force, held)
    ensures Move(Move(s, t, pc), t, CheckAge(now, force, held)) == Move(s, t, CheckAge(now, force, held))
    ensures Move(Move(s, t, pc), t, CopyRows(now, held)) == Move(s, t, CopyRows(now, held))
  {
    Moved(s, t, pc, Waiting(force));
    Moved(s, t, pc, Fetching(force, s.clock));
    Moved(s, t, pc, CheckAge(now, force, held));
    Moved(s, t, pc, CopyRows(now, held));
  }

  lemma AfterCopy<Raw, Row>(s: State<Raw, Row>, t: nat, pc: Pc<Raw, Row>, a: Answer<Row>, held: bool)
    ensures At(Move(s, t, pc), t) == pc && Return(Move(s, t, pc), t, a, held) == Return(s, t, a, held)
  {
    Moved(s, t, pc, Returned(a));
    assert s.threads[t := pc][t := Returned(a)] == s.threads[t := Returned(a)];
  }

  /** What a call does that nothing interleaves with: serve from the cache; or fetch and, if the upstream
      answers, publish and serve that; or, if it fails, serve what is cached while within the grace; or raise. */
  function Served<Raw, Row>(cfg: RawConfig<Raw, Row>, s: State<Raw, Row>, t: nat, force: bool,
                 fetched: Option<Raw>): State<Raw, Row>
  {
    if Serves(cfg, s, s.clock, force) then Move(s, t, Returned(Fresh(s.rows.value, |s.log|, s.clock)))
    else if fetched.Some? then
      var rows := cfg.normalise(fetched.value);
      Move(s.(rows := Some(rows), at := s.clock, samePurposes := true,
              log := s.log + [Fetch(fetched.value, Some(s.clock))]),
           t, Returned(Fresh(rows, |s.log| + 1, s.clock)))
    else if s.rows.Some? && s.samePurposes && s.clock - s.at <= cfg.grace then
      Move(s, t, Returned(Stale(s.rows.value, |s.log|, s.clock)))
    else Move(s, t, Returned(Unavailable))
  }

  function Locked<Raw, Row>(s: State<Raw, Row>, t: nat): State<Raw, Row> { s.(lock := Some(t)) }

  /** From waiting on a free lock to the second check. */
  lemma Enters<Raw, Row>(cfg: RawConfig<Raw, Row>, s: State<Raw, Row>, t: nat, fetched: Option<Raw>, force: bool)
    requires s.lock.None?
    ensures Turns(cfg, Move(s, t, Waiting(force)), t, fetched, 2) ==
            Move(Locked(s, t), t, CheckRows(s.clock, force, true))
  {
    var w := Move(s, t, Waiting(force));
    Moved(s, t, Waiting(force), Acquired(force));
    Turn(cfg, w, t, fetched);
    assert Advance(cfg, w, t, fetched) == Move(Locked(s, t), t, Acquired(force)) by {
      assert s.threads[t := Waiting(force)][t := Acquired(force)] == s.threads[t := Acquired(force)];
    }
    Moved(Locked(s, t), t, Acquired(force), CheckRows(s.clock, force, true));
    Turn(cfg, Move(Locked(s, t), t, Acquired(force)), t, fetched);
    TurnsAdd(cfg, w, t, fetched, 1, 1);
  }

  /** The fetch that fails. */
  lemma FetchFails<Raw, Row>(cfg: RawConfig<Raw, Row>, s: State<Raw, Row>, t: nat, force: bool)
    requires s.lock.None? && !Serves(cfg, s, s.clock, force)
    ensures Turns(cfg, Move(Locked(s, t), t, Fetching(force, s.clock)), t, None, 2) == Served(cfg, s, t, force, None)
  {
    var l := Locked(s, t);
    var f := Move(l, t, Fetching(force, s.clock));
    Moved(l, t, Fetching(force, s.clock), Failed);
    Turn(cfg, f, t, None);
    var failed := Move(l, t, Failed);
    assert Advance(cfg, f, t, None) == failed;
    Turn(cfg, failed, t, None);
    TurnsAdd(cfg, f, t, None, 1, 1);
    hide Turns;
    var a := if s.rows.Some? && s.samePurposes && s.clock - s.at <= cfg.grace
             then Stale(s.rows.value, |s.log|, s.clock) else Unavailable;
    assert l.threads[t := Failed][t := Returned(a)] == s.threads[t := Returned(a)];
    assert s.(lock := None) == s;
  }

  /** The fetch that succeeds. */
  lemma FetchServes<Raw, Row>(cfg: RawConfig<Raw, Row>, s: State<Raw, Row>, t: nat, force: bool, raw: Raw)
    requires s.lock.None? && !Serves(cfg, s, s.clock, force)
    ensures Turns(cfg, Move(Locked(s, t), t, Fetching(force, s.clock)), t, Some(raw), 4) ==
            Served(cfg, s, t, force, Some(raw))
  {
    var l := Locked(s, t);
    var f := Move(l, t, Fetching(force, s.clock));
    Moved(l, t, Fetching(force, s.clock), StoreRows(raw));
    var a := Move(l, t, StoreRows(raw));
    Turn(cfg, f, t, Some(raw));
    assert Advance(cfg, f, t, Some(raw)) == a;
    StoresRows(cfg, s, t, raw);
    TurnsAdd(cfg, f, t, Some(raw), 1, 3);
  }

  lemma StoresRows<Raw, Row>(cfg: RawConfig<Raw, Row>, s: State<Raw, Row>, t: nat, raw: Raw)
    requires s.lock.None?
    ensures Turns(cfg, Move(Locked(s, t), t, StoreRows(raw)), t, Some(raw), 3) ==
            Move(s.(rows := Some(cfg.normalise(raw)), at := s.clock, samePurposes := true,
                    log := s.log + [Fetch(raw, Some(s.clock))]),
                 t, Returned(Fresh(cfg.normalise(raw), |s.log| + 1, s.clock)))
  {
    var l, some := Locked(s, t), Some(raw);
    var l1 := l.(rows := Some(cfg.normalise(raw)), log := s.log + [Fetch(raw, None)]);
    var l2 := l1.(at := s.clock, log := s.log + [Fetch(raw, Some(s.clock))]);
    var l3 := l2.(samePurposes := true);
    var a, b, c := Move(l, t, StoreRows(raw)), Move(l1, t, StoreTime(raw)), Move(l2, t, StorePurposes(raw));
    var d := Return(l3, t, Fresh(cfg.normalise(raw), |l3.log|, l3.at), true);
    assert Advance(cfg, a, t, some) == b by { Moved(l, t, StoreRows(raw), StoreTime(raw)); }
    assert Advance(cfg, b, t, some) == c by {
      Moved(l1, t, StoreTime(raw), StorePurposes(raw));
      assert l1.log[..|l1.log| - 1] == s.log;
    }
    assert Advance(cfg, c, t, some) == d by {
      AfterCopy(l3, t, StorePurposes(raw), Fresh(cfg.normalise(raw), |l3.log|, l3.at), true);
      assert Move(l3, t, StorePurposes(raw)) == c.(samePurposes := true);
    }
    Turn(cfg, a, t, some);
    Turn(cfg, b, t, some);
    Turn(cfg, c, t, some);
    TurnsAdd(cfg, a, t, some, 1, 1);
    TurnsAdd(cfg, a, t, some, 2, 1);
  }

  /** Twelve steps are enough for a call on its own. */
  lemma CallAlone<Raw, Row>(cfg: RawConfig<Raw, Row>, s: State<Raw, Row>, t: nat, force: bool, fetched: Option<Raw>)
    requires s.lock.None?
    ensures Turns(cfg, Move(s, t, CheckRows(s.clock, force, false)), t, fetched, 12) ==
            Served(cfg, s, t, force, fetched)
  {
    hide Turns, Serves;
    var start, l := Move(s, t, CheckRows(s.clock, force, false)), Locked(s, t);
    var n := Check(cfg, s, t, fetched, s.clock, force, false);
    if !Serves(cfg, s, s.clock, force) {
      Enters(cfg, s, t, fetched, force);
      TurnsAdd(cfg, start, t, fetched, n, 2);
      SameCache(cfg, s, t, s.clock, force);
      var m := Check(cfg, l, t, fetched, s.clock, force, true);
      TurnsAdd(cfg, start, t, fetched, n + 2, m);
      n := n + 2 + m;
      assert Turns(cfg, start, t, fetched, n) == Move(l, t, Fetching(force, s.clock));
      var k := if fetched.Some? then 4 else 2;
      TurnsAdd(cfg, start, t, fetched, n, k);
      n := n + k;
      if fetched.Some? {
        FetchServes(cfg, s, t, force, fetched.value);
      } else {
        FetchFails(cfg, s, t, force);
      }
    }
    TurnsAdd(cfg, start, t, fetched, n, 12 - n);
    assert Turns(cfg, start, t, fetched, n) == Served(cfg, s, t, force, fetched);
    ReturnedStays(cfg, Served(cfg, s, t, force, fetched), t, fetched, 12 - n);
  }

  lemma SameCache<Raw, Row>(cfg: RawConfig<Raw, Row>, s: State<Raw, Row>, t: nat, now: real, force: bool)
    ensures Serves(cfg, Locked(s, t), now, force) == Serves(cfg, s, now, force)
  {
  }

  // ── After any history ────────────────────────────────────────────────────

  /** One call of thread `t`, whose fetch, if it needs one, is answered with `fetched`. */
  function OneCall<Raw>(t: nat, force: bool, fetched: Option<Raw>): seq<Event<Raw>> {
    [Call(t, force)] + Steps(t, fetched, 12)
  }

  function Steps<Raw>(t: nat, fetched: Option<Raw>, n: nat): (es: seq<Event<Raw>>)
    ensures |es| == n && forall i :: 0 <= i < n ==> es[i] == Go(t, fetched)
  {
    seq(n, i => Go(t, fetched))
  }

  lemma {:induction false} RunSteps<Raw, Row>(cfg: RawConfig<Raw, Row>, clock: real, es: seq<Event<Raw>>, t: nat,
          fetched: Option<Raw>, n: nat)
    ensures Run(cfg, clock, es + Steps(t, fetched, n)) == Turns(cfg, Run(cfg, clock, es), t, fetched, n)
  {
    hide Advance;
    if n == 0 {
      assert es + Steps(t, fetched, 0) == es;
    } else {
      RunSteps(cfg, clock, es, t, fetched, n - 1);
      var all := es + Steps(t, fetched, n);
      assert all[..|all| - 1] == es + Steps(t, fetched, n - 1) && all[|all| - 1] == Go(t, fetched);
    }
  }

  /** After any history, a call that finds the lock free and is not interleaved with does exactly what the
      function says: this is what it answers, what it leaves in the cache, and that it changes nothing else. */
  lemma UndisturbedCall<Raw, Row>(cfg: RawConfig<Raw, Row>, clock: real, es: seq<Event<Raw>>, t: nat, force: bool,
                                  fetched: Option<Raw>)
    requires var s := Run(cfg, clock, es); s.lock.None? && (At(s, t).Idle? || At(s, t).Returned?)
    ensures Run(cfg, clock, es + OneCall(t, force, fetched)) == Served(cfg, Run(cfg, clock, es), t, force, fetched)
  {
    hide Advance, Turns, Served;
    var s, called := Run(cfg, clock, es), es + [Call(t, force)];
    assert called[..|called| - 1] == es;
    assert Run(cfg, clock, called) == Move(s, t, CheckRows(s.clock, force, false));
    RunSteps(cfg, clock, called, t, fetched, 12);
    CallAlone(cfg, s, t, force, fetched);
    assert es + OneCall(t, force, fetched) == called + Steps(t, fetched, 12);
  }
}
