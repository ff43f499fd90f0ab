/** `event_calendar.get_calendar` with `normalise_rows` as its normaliser: what an empty calendar means. */
module CalendarAnswers {
  import opened PyStrings
  import opened Json
  import opened CalendarRows
  import Cache = EventCalendar

  type Config = Cache.RawConfig<Json, Row>
  type State = Cache.State<Json, Row>
  type Event = Cache.Event<Json>

  /** The cache under the given purposes. */
  function CacheOf(lib: Library, purposes: seq<string>, ttl: real, grace: real): Config {
    Cache.Config(ttl, grace, purposes == [], (raw: Json) => Normalised(lib, raw, purposes))
  }

  /** The payload holds no event: it is no list, or none of its rows is one. */
  predicate Eventless(lib: Library, raw: Json, purposes: seq<string>) {
    !raw.JArr? || forall i :: 0 <= i < |raw.items| ==> !IsEvent(lib, raw.items[i], purposes)
  }

  /** The published fetch an answer was given from. */
  predicate AnsweredFrom(s: State, a: Cache.Answer<Row>, raw: Json) {
    !a.Unavailable? && 0 < a.fetches <= |s.log| && s.log[a.fetches - 1].raw == raw
  }

  /** Whatever the threads have done: an answer is given from some published fetch, and is empty exactly
      when that fetch's payload was no list or a list without an event. */
  lemma EmptyAnswerMeans(lib: Library, purposes: seq<string>, ttl: real, grace: real, clock: real,
          es: seq<Event>, t: nat)
    requires ttl > 0.0 && grace > 0.0 && clock >= 0.0
    requires Cache.At(Cache.Run(CacheOf(lib, purposes, ttl, grace), clock, es), t).Returned?
    ensures var s := Cache.Run(CacheOf(lib, purposes, ttl, grace), clock, es);
            var a := Cache.At(s, t).answer;
            !a.Unavailable? ==>
              exists raw :: AnsweredFrom(s, a, raw) && (a.rows == [] <==> Eventless(lib, raw, purposes))
  {
    hide Cache.Run, Normalised, IsEvent;
    var cfg := CacheOf(lib, purposes, ttl, grace);
    Cache.AnswersAreFetches(cfg, clock, es, t);
    var s := Cache.Run(cfg, clock, es);
    var a := Cache.At(s, t).answer;
    if !a.Unavailable? {
      var raw := s.log[a.fetches - 1].raw;
      assert AnsweredFrom(s, a, raw) && a.rows == Normalised(lib, raw, purposes);
      EmptyIff(lib, raw, purposes);
    }
  }

  // ── A failure that looks like no event ───────────────────────────────────

  const REFUSED := JObj([Field("error", JStr("blocked"))])

  /** One call on a fresh process, whose fetch is answered with `raw`. */
  function FirstCall(raw: Json): (es: seq<Event>)
    ensures |es| == 9
  {
    var go := Cache.Go(0, Some(raw));
    [Cache.Call(0, false), go, go, go, go, go, go, go, go]
  }

  lemma RunStep(cfg: Config, clock: real, es: seq<Event>, i: nat)
    requires i < |es|
    ensures Cache.Run(cfg, clock, es[..i + 1]) == Cache.Step(cfg, Cache.Run(cfg, clock, es[..i]), es[i])
  {
    hide Cache.Step;
    assert es[..i + 1][..i] == es[..i];
  }

  /** A process whose one thread stands at `pc`, with nothing published. */
  predicate Alone(s: State, pc: Cache.Pc<Json, Row>, lock: Option<nat>, clock: real) {
    Cache.At(s, 0) == pc && s.rows.None? && s.lock == lock && s.log == [] && s.clock == clock
  }

  /** The steps of a first call up to its fetch. */
  lemma FetchBegins(cfg: Config, clock: real, raw: Json)
    ensures Alone(Cache.Run(cfg, clock, FirstCall(raw)[..5]), Cache.Fetching(false, clock), Some(0), clock)
  {
    hide Cache.Run;
    var es := FirstCall(raw);
    RunStart(cfg, clock, es);
    RunStep(cfg, clock, es, 0);
    RunStep(cfg, clock, es, 1);
    RunStep(cfg, clock, es, 2);
    RunStep(cfg, clock, es, 3);
    RunStep(cfg, clock, es, 4);
    assert Alone(Cache.Run(cfg, clock, es[..1]), Cache.CheckRows(clock, false, false), None, clock);
    assert Alone(Cache.Run(cfg, clock, es[..2]), Cache.Waiting(false), None, clock);
    assert Alone(Cache.Run(cfg, clock, es[..3]), Cache.Acquired(false), Some(0), clock);
    assert Alone(Cache.Run(cfg, clock, es[..4]), Cache.CheckRows(clock, false, true), Some(0), clock);
  }

  lemma RunStart(cfg: Config, clock: real, es: seq<Event>)
    ensures Cache.Run(cfg, clock, es[..0]) == Cache.Start(cfg, clock)
  {
  }

  /** The steps from the fetch to the answer. */
  lemma FetchEnds(cfg: Config, s: State, raw: Json, clock: real)
    requires Alone(s, Cache.Fetching(false, clock), Some(0), clock)
    ensures var go := Cache.Go(0, Some(raw));
            var s3 := Cache.Step(cfg, Cache.Step(cfg, Cache.Step(cfg, s, go), go), go);
            Cache.At(Cache.Step(cfg, s3, go), 0) == Cache.Returned(Cache.Fresh(cfg.normalise(raw), 1, clock))
  {
    var go := Cache.Go(0, Some(raw));
    var s1 := Cache.Step(cfg, s, go);
    assert Alone(s1, Cache.StoreRows(raw), Some(0), clock);
    var s2 := Cache.Step(cfg, s1, go);
    assert Cache.At(s2, 0) == Cache.StoreTime(raw) && |s2.log| == 1 && s2.clock == clock;
    var s3 := Cache.Step(cfg, s2, go);
    assert Cache.At(s3, 0) == Cache.StorePurposes(raw) && |s3.log| == 1 && s3.at == clock;
  }

  /** A first call answers with the rows of whatever payload it fetched, not marked stale. */
  lemma FirstAnswer(cfg: Config, clock: real, raw: Json)
    ensures Cache.At(Cache.Run(cfg, clock, FirstCall(raw)), 0) ==
            Cache.Returned(Cache.Fresh(cfg.normalise(raw), 1, clock))
  {
    hide Cache.Run, Cache.Step, Alone;
    var es := FirstCall(raw);
    FetchBegins(cfg, clock, raw);
    FetchEnds(cfg, Cache.Run(cfg, clock, es[..5]), raw, clock);
    RunStep(cfg, clock, es, 5);
    RunStep(cfg, clock, es, 6);
    RunStep(cfg, clock, es, 7);
    RunStep(cfg, clock, es, 8);
    assert es[..9] == es;
  }

  /** The adapter promises that a failure never looks like "no event". An upstream that answers 2xx with a
      JSON body that is no list, such as an error object, does: the call returns an empty calendar as fresh,
      instead of raising. */
  lemma ErrorBodyReadsEmpty(lib: Library, purposes: seq<string>, ttl: real, grace: real, clock: real)
    ensures var cfg := CacheOf(lib, purposes, ttl, grace);
            Cache.At(Cache.Run(cfg, clock, FirstCall(REFUSED)), 0) == Cache.Returned(Cache.Fresh([], 1, clock))
  {
    hide Cache.Run;
    FirstAnswer(CacheOf(lib, purposes, ttl, grace), clock, REFUSED);
  }
}
