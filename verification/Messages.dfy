/** The conversation of an analysis thread: what the graph's nodes read and append. A text is kept
    only as far as the code's own checks can tell it apart. */
module Messages {
  import opened PyStrings

  const DECLARE := "declare_trade"
  const WATCH := "watch_price_condition"
  const UNKNOWN_TOOL := "unknown_tool"
  const CONSENSUS := "get_consensus_report"

  /** The outcome of reading one call out of a model reply. */
  datatype Status = Ok | ParseFailure | InvalidTool

  datatype Action = BUY | SELL | HOLD | OTHER

  /** How `_tool_result_is_error` and `_tool_result_is_unavailable` classify a text. */
  datatype Tag = Usable | Unavailable | Error

  /** What a watch result starts with. */
  datatype Marker = NoMarker | Invalidated | Heartbeat

  /** What a text says as a consensus report: it does not parse, it gives no usable ATR (a finite, positive
      `atr_14`), or it gives one. */
  datatype Report = Unread | NoAtr | AtrGiven

  /** A tool message's text, as the checks see it; `rejected` is the TRADE_REJECTED marker. */
  datatype Reply = Reply(tag: Tag, rejected: bool, marker: Marker, report: Report)

  /** A call the model made, with what its arguments decide: the action a declaration normalises
      to, whether it is literally BUY or SELL, whether a watch repeats the invalidated thesis within the
      tolerance an ATR sets; and
      the feedback text it gets when it cannot be run. */
  datatype Call = Call(
    id: string, name: string, status: Status, action: Action, directional: bool, sameThesis: bool, feedback: Reply)

  /** `ran` marks an answer that came from the tool itself, `advocate` the VERIFY devil's advocate. */
  datatype Msg =
    | System
    | Human
    | AI(calls: seq<Call>, prose: bool, advocate: bool)
    | Tool(id: string, name: string, reply: Reply, ran: bool)

  /** The two fixed tool-name sets. */
  datatype Tools = Tools(marketData: set<string>, core: set<string>)

  predicate ValidTools(t: Tools) {
    && t.core <= t.marketData && CONSENSUS in t.core
    && DECLARE !in t.marketData && WATCH !in t.marketData && UNKNOWN_TOOL !in t.marketData && "" !in t.marketData
  }

  predicate IsOk(c: Call) { c.status == Ok }

  predicate IsFailed(c: Call) { c.status != Ok }

  predicate IsDeclare(c: Call) { c.name == DECLARE }

  predicate NotDeclare(c: Call) { c.name != DECLARE }

  predicate IsWatch(c: Call) { c.name == WATCH }

  /** The calls satisfying `p`, in order. */
  function Select(cs: seq<Call>, p: Call -> bool): (r: seq<Call>)
    ensures forall i :: 0 <= i < |r| ==> r[i] in cs && p(r[i])
    ensures forall c :: c in cs && p(c) ==> c in r
  {
    if cs == [] then []
    else
      var last := cs[|cs| - 1];
      Select(cs[..|cs| - 1], p) + if p(last) then [last] else []
  }

  /** The calls on a message. */
  function CallsOf(m: Msg): seq<Call> {
    if m.AI? then m.calls else []
  }

  // ── What the history says ────────────────────────────────────────────────

  /** A market-data tool message that passes for usable data. */
  predicate IsData(t: Tools, m: Msg) {
    m.Tool? && m.name in t.marketData && m.reply.tag == Usable
  }

  /** `_market_data_seen` */
  predicate DataSeen(t: Tools, ms: seq<Msg>) {
    exists i :: 0 <= i < |ms| && IsData(t, ms[i])
  }

  /** `_market_data_attempted` */
  predicate DataAttempted(t: Tools, ms: seq<Msg>) {
    exists i :: 0 <= i < |ms| && ms[i].Tool? && ms[i].name in t.marketData
  }

  /** `_core_acquisition_resolved`: every core tool has answered, if only to say unavailable. */
  predicate CoreResolved(t: Tools, ms: seq<Msg>) {
    forall name :: name in t.core ==>
      exists i :: 0 <= i < |ms| && ms[i].Tool? && ms[i].name == name && ms[i].reply.tag != Error
  }

  /** A message that counts as a consensus report: it parses and is no error. */
  predicate IsReport(m: Msg) {
    m.Tool? && m.name == CONSENSUS && m.reply.tag != Error && m.reply.report != Unread
  }

  /** `_latest_atr`: the latest consensus report gives a usable ATR. */
  predicate AtrKnown(ms: seq<Msg>) {
    ms != [] &&
    var last := ms[|ms| - 1];
    if IsReport(last) then last.reply.report == AtrGiven else AtrKnown(ms[..|ms| - 1])
  }

  // Each of these is decided message by message.

  lemma DataSeenStep(t: Tools, ms: seq<Msg>, m: Msg)
    ensures DataSeen(t, ms + [m]) <==> DataSeen(t, ms) || (m.Tool? && m.name in t.marketData && m.reply.tag == Usable)
  {
    var all := ms + [m];
    assert all[|ms|] == m;
    assert forall i :: 0 <= i < |ms| ==> all[i] == ms[i];
  }

  lemma DataAttemptedStep(t: Tools, ms: seq<Msg>, m: Msg)
    ensures DataAttempted(t, ms + [m]) <==> DataAttempted(t, ms) || (m.Tool? && m.name in t.marketData)
  {
    var all := ms + [m];
    assert all[|ms|] == m;
    assert forall i :: 0 <= i < |ms| ==> all[i] == ms[i];
  }

  /** The core tools that have not answered: each answer takes its tool away, also one that says the data is
      unavailable, but not an error. */
  function CoreMissing(t: Tools, ms: seq<Msg>): set<string> {
    if ms == [] then t.core
    else
      var last := ms[|ms| - 1];
      CoreMissing(t, ms[..|ms| - 1])
      - if last.Tool? && (last.reply.tag == Usable || last.reply.tag == Unavailable) then {last.name} else {}
  }

  lemma {:induction false} CoreMissingMeans(t: Tools, ms: seq<Msg>)
    ensures forall name :: name in CoreMissing(t, ms) <==> name in t.core && forall i ::
              0 <= i < |ms| && ms[i].Tool? && ms[i].name == name ==> ms[i].reply.tag == Error
  {
    if ms != [] {
      CoreMissingMeans(t, ms[..|ms| - 1]);
    }
  }

  lemma CoreResolvedIff(t: Tools, ms: seq<Msg>)
    ensures CoreResolved(t, ms) <==> CoreMissing(t, ms) == {}
  {
    CoreMissingMeans(t, ms);
    if CoreMissing(t, ms) == {} {
      forall name | name in t.core
        ensures exists i :: 0 <= i < |ms| && ms[i].Tool? && ms[i].name == name && ms[i].reply.tag != Error
      {
        assert name !in CoreMissing(t, ms);
      }
    }
  }

  /** Only a consensus answer that parses and is no error says anything about the ATR, and the latest one counts. */
  lemma AtrKnownStep(ms: seq<Msg>, m: Msg)
    ensures AtrKnown(ms + [m]) <==>
            if m.Tool? && m.name == CONSENSUS && m.reply.tag != Error && m.reply.report != Unread
            then m.reply.report == AtrGiven else AtrKnown(ms)
    ensures !AtrKnown([])
  {
    assert (ms + [m])[..|ms|] == ms;
  }

  // ── Answers ──────────────────────────────────────────────────────────────

  function CallIds(cs: seq<Call>): multiset<string> {
    if cs == [] then multiset{} else CallIds(cs[..|cs| - 1]) + multiset{cs[|cs| - 1].id}
  }

  /** The ids the tool messages answer. */
  function AnswerIds(ms: seq<Msg>): multiset<string> {
    if ms == [] then multiset{}
    else
      var last := ms[|ms| - 1];
      AnswerIds(ms[..|ms| - 1]) + if last.Tool? then multiset{last.id} else multiset{}
  }

  const PLAIN_REPLY := Reply(Usable, false, NoMarker, Unread)

  /** ToolNode: one answer per call; the environment says what each contains. */
  function Dispatched(cs: seq<Call>, replies: seq<Reply>): (r: seq<Msg>)
    ensures |r| == |cs|
    ensures forall i :: 0 <= i < |r| ==> r[i].Tool? && r[i].id == cs[i].id && r[i].name == cs[i].name && r[i].ran
  {
    seq(|cs|, i requires 0 <= i < |cs| =>
      Tool(cs[i].id, cs[i].name, if i < |replies| then replies[i] else PLAIN_REPLY, true))
  }

  /** Synthetic feedback for the calls that cannot be run. */
  function Feedback(cs: seq<Call>): (r: seq<Msg>)
    ensures |r| == |cs|
    ensures forall i :: 0 <= i < |r| ==> r[i].Tool? && r[i].id == cs[i].id && !r[i].ran && r[i].reply.marker == NoMarker
    ensures forall i :: 0 <= i < |r| ==>
              && r[i].name == (if cs[i].name == "" then UNKNOWN_TOOL else cs[i].name)
              && r[i].reply.tag == cs[i].feedback.tag && r[i].reply.rejected == cs[i].feedback.rejected
  {
    seq(|cs|, i requires 0 <= i < |cs| =>
      Tool(cs[i].id, if cs[i].name == "" then UNKNOWN_TOOL else cs[i].name,
           cs[i].feedback.(marker := NoMarker, report := Unread), false))
  }

  /** The answer to a call that cannot be run: under the call's name, or a stand-in for none, with the error text's
      own tag and echo, and never from the tool. */
  lemma FeedbackMeans(c: Call)
    ensures Feedback([c]) ==
            [Tool(c.id, if c.name == "" then "unknown_tool" else c.name,
                  Reply(c.feedback.tag, c.feedback.rejected, NoMarker, Unread), false)]
  {
  }

  /** A fixed note in place of running the call. */
  function Notes(cs: seq<Call>): (r: seq<Msg>)
    ensures |r| == |cs|
    ensures forall i :: 0 <= i < |r| ==> r[i] == Tool(cs[i].id, cs[i].name, PLAIN_REPLY, false)
  {
    seq(|cs|, i requires 0 <= i < |cs| => Tool(cs[i].id, cs[i].name, PLAIN_REPLY, false))
  }

  lemma {:induction false} AnswersJoin(a: seq<Msg>, b: seq<Msg>)
    ensures AnswerIds(a + b) == AnswerIds(a) + AnswerIds(b)
  {
    if b == [] {
      assert a + b == a;
    } else {
      AnswersJoin(a, b[..|b| - 1]);
      assert (a + b)[..|a + b| - 1] == a + b[..|b| - 1];
    }
  }

  lemma {:induction false} OneAnswerEach(cs: seq<Call>, ms: seq<Msg>)
    requires |ms| == |cs| && forall i :: 0 <= i < |cs| ==> ms[i].Tool? && ms[i].id == cs[i].id
    ensures AnswerIds(ms) == CallIds(cs)
  {
    if cs != [] {
      OneAnswerEach(cs[..|cs| - 1], ms[..|ms| - 1]);
    }
  }

  lemma SelectLast(cs: seq<Call>, p: Call -> bool)
    requires cs != []
    ensures var init, last := cs[..|cs| - 1], cs[|cs| - 1];
            CallIds(Select(cs, p)) == CallIds(Select(init, p)) + if p(last) then multiset{last.id} else multiset{}
  {
    var init, last := cs[..|cs| - 1], cs[|cs| - 1];
    IdsSnoc(Select(init, p), last);
    assert Select(init, p) + [] == Select(init, p);
  }

  /** Two opposite selections share out the calls. */
  lemma {:induction false} SelectSplits(cs: seq<Call>, p: Call -> bool, q: Call -> bool)
    requires forall c :: c in cs ==> p(c) != q(c)
    ensures CallIds(Select(cs, p)) + CallIds(Select(cs, q)) == CallIds(cs)
  {
    if cs != [] {
      SelectSplits(cs[..|cs| - 1], p, q);
      SelectLast(cs, p);
      SelectLast(cs, q);
      assert cs[|cs| - 1] in cs;
      hide Select;
    }
  }

  lemma IdsSnoc(cs: seq<Call>, c: Call)
    ensures CallIds(cs + [c]) == CallIds(cs) + multiset{c.id}
  {
    assert (cs + [c])[..|cs|] == cs;
  }

  lemma {:induction false} SelectNone(cs: seq<Call>, p: Call -> bool)
    requires forall c :: c in cs ==> !p(c)
    ensures Select(cs, p) == []
  {
    if cs != [] {
      SelectNone(cs[..|cs| - 1], p);
    }
  }
}
