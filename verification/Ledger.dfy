/** `graph._finalize_decision`: the one place decisions are journaled, with its per-thread guard. */
module Ledger {
  import opened PyStrings

  /** A journaled decision with its defensibility record. */
  datatype Entry<R> = Entry(thread: Option<string>, record: R)

  function ForThread<R>(journal: seq<Entry<R>>, thread: string): seq<R> {
    if journal == [] then []
    else
      var last := journal[|journal| - 1];
      ForThread(journal[..|journal| - 1], thread) + if last.thread == Some(thread) then [last.record] else []
  }

  lemma ForThreadSnoc<R>(journal: seq<Entry<R>>, e: Entry<R>, thread: string)
    ensures ForThread(journal + [e], thread) == ForThread(journal, thread) +
                if e.thread == Some(thread) then [e.record] else []
  {
    assert (journal + [e])[..|journal|] == journal;
  }

  /** The map holds exactly each thread's one journaled record. */
  ghost predicate Agrees<R>(records: map<string, R>, journal: seq<Entry<R>>) {
    forall thread :: ForThread(journal, thread) == if thread in records then [records[thread]] else []
  }

  /** A finalize call: the record it would build, and its thread. */
  datatype Request<R> = Request(built: R, thread: Option<string>)

  datatype State<R> = State(records: map<string, R>, journal: seq<Entry<R>>)

  /** `_finalize_decision`: a thread that has committed gets its first record back and nothing is
      written. */
  function Finalized<R>(s: State<R>, q: Request<R>): (State<R>, R) {
    if q.thread.Some? && q.thread.value in s.records then (s, s.records[q.thread.value])
    else
      (State(if q.thread.Some? then s.records[q.thread.value := q.built] else s.records,
             s.journal + [Entry(q.thread, q.built)]), q.built)
  }

  /** `_COMMITTED_THREAD_RECORDS` and the journal it guards. */
  class Book<R(==)> {
    var records: map<string, R>
    var journal: seq<Entry<R>>

    ghost predicate Valid()
      reads this
    {
      Agrees(records, journal)
    }

    constructor ()
      ensures Valid() && records == map[] && journal == []
    {
      records, journal := map[], [];
    }

    method Finalize(built: R, thread: Option<string>) returns (record: R)
      requires Valid()
      modifies this
      ensures Valid()
      ensures (State(records, journal), record) == Finalized(State(old(records), old(journal)), Request(built, thread))
    {
      if thread.Some? && thread.value in records {
        return records[thread.value];
      }
      ghost var before := journal;
      journal := journal + [Entry(thread, built)];
      if thread.Some? {
        records := records[thread.value := built];
      }
      forall t
        ensures ForThread(journal, t) == if t in records then [records[t]] else []
      {
        ForThreadSnoc(before, Entry(thread, built), t);
      }
      return built;
    }
  }

  // ── Whole histories ──────────────────────────────────────────────────────

  function After<R>(qs: seq<Request<R>>): State<R> {
    if qs == [] then State(map[], []) else Finalized(After(qs[..|qs| - 1]), qs[|qs| - 1]).0
  }

  /** What the call after the history `qs` returns. */
  function Returned<R>(qs: seq<Request<R>>, q: Request<R>): R { Finalized(After(qs), q).1 }

  /** The record of a thread's first call. */
  function First<R>(qs: seq<Request<R>>, thread: string): Option<R> {
    if qs == [] then None
    else if qs[0].thread == Some(thread) then Some(qs[0].built)
    else First(qs[1..], thread)
  }

  lemma {:induction false} FirstSnoc<R>(qs: seq<Request<R>>, q: Request<R>, thread: string)
    ensures First(qs + [q], thread) ==
            if First(qs, thread).Some? then First(qs, thread)
            else if q.thread == Some(thread) then Some(q.built) else None
  {
    if qs != [] {
      assert (qs + [q])[1..] == qs[1..] + [q];
      FirstSnoc(qs[1..], q, thread);
    } else {
      assert ([] + [q])[1..] == [];
    }
  }

  /** The state knows of a thread's first record, and only of that. */
  predicate Knows<R(==)>(s: State<R>, first: Option<R>, thread: string) {
    && ForThread(s.journal, thread) == (if first.Some? then [first.value] else [])
    && (thread in s.records <==> first.Some?)
    && (first.Some? ==> s.records[thread] == first.value)
  }

  lemma FinalizedKnows<R>(s: State<R>, q: Request<R>, first: Option<R>, thread: string)
    requires Knows(s, first, thread)
    ensures Knows(Finalized(s, q).0,
                      if first.Some? then first else if q.thread == Some(thread) then Some(q.built) else None,
                  thread)
  {
    hide ForThread;
    ForThreadSnoc(s.journal, Entry(q.thread, q.built), thread);
  }

  lemma {:induction false} AfterKnows<R>(qs: seq<Request<R>>, thread: string)
    ensures Knows(After(qs), First(qs, thread), thread)
  {
    hide Knows, First, Finalized;
    if qs == [] {
      NothingKnown<R>(thread);
    } else {
      var n := |qs| - 1;
      AfterKnows(qs[..n], thread);
      FirstSnoc(qs[..n], qs[n], thread);
      assert qs == qs[..n] + [qs[n]];
      FinalizedKnows(After(qs[..n]), qs[n], First(qs[..n], thread), thread);
    }
  }

  lemma NothingKnown<R>(thread: string)
    ensures Knows<R>(State(map[], []), First([], thread), thread)
  {
  }

  /** Over every history of finalize calls a thread is journaled at most once, with the record of its
      first call, and every later call of that thread returns that record. */
  lemma {:induction false} OncePerThread<R>(qs: seq<Request<R>>, thread: string, built: R)
    ensures var first := First(qs, thread);
            && ForThread(After(qs).journal, thread) == (if first.Some? then [first.value] else [])
            && Returned(qs, Request(built, Some(thread))) == if first.Some? then first.value else built
  {
    hide First, ForThread, After;
    AfterKnows(qs, thread);
  }

  /** The calls that are journaled: those without a thread, and the first of each thread. */
  function Written<R>(qs: seq<Request<R>>): seq<Entry<R>> {
    if qs == [] then []
    else
      var init, q := qs[..|qs| - 1], qs[|qs| - 1];
      Written(init) + if q.thread.None? || First(init, q.thread.value).None? then [Entry(q.thread, q.built)] else []
  }

  /** The whole journal of a history, in order; a call without a thread is always answered with its own record. */
  lemma {:induction false} JournalMeans<R>(qs: seq<Request<R>>, built: R)
    ensures After(qs).journal == Written(qs) && Returned(qs, Request(built, None)) == built
  {
    hide First, ForThread;
    if qs != [] {
      var init, q := qs[..|qs| - 1], qs[|qs| - 1];
      JournalMeans(init, built);
      if q.thread.Some? {
        AfterKnows(init, q.thread.value);
      }
    }
  }
}
