/**
  Properties of the poll loop, proved about the specification in PollSpec: what each snapshot
  position does, what the new-query counter counts, which identities end up processed, that a
  failed send or a failed delete loses nothing, and that every identity is answered at most once
  and never when stale, over any number of passes.
 */
module PollProperties {
  import opened Wrappers
  import opened Queries
  import opened PollSpec

  /** Exactly thirty minutes is already too old; one millisecond less is still fresh. */
  lemma HalfHourBoundary(timeSent: int)
    ensures !IsNotOld(timeSent, timeSent + 30 * 60 * 1000)
    ensures IsNotOld(timeSent, timeSent + 30 * 60 * 1000 - 1)
  {
  }

  /**
    The `processed.contains` test: a position is skipped exactly when its identity is already
    processed, and is otherwise handed to `processQuery`.
   */
  lemma DisposeSkipsProcessed(processed: set<Identity>, id: Identity, e: Env, h: Identity -> string)
    ensures Dispose(processed, id, e, h).Skipped? <==> id in processed
    ensures id !in processed ==> Dispose(processed, id, e, h) == Attempt(id, e, h)
  {
  }

  /**
    The calls of `processQuery`: none for a stale query; otherwise the handler call, then the send
    of its reply to the sender, then, exactly when the send returned, the log record of the
    stamped query.
   */
  lemma QueryEventsOrder(id: Identity, d: Disposition)
    ensures QueryEvents(id, d) == [] <==> d.Skipped? || d.Stale?
    ensures d.SendFailed? || d.Answered? ==>
            var r := QueryEvents(id, d);
            |r| >= 2 && r[0] == Asked(id) && r[1] == Sent(id, d.reply, d.Answered?)
    ensures |QueryEvents(id, d)| == 3 <==> d.Answered?
    ensures d.Answered? ==> QueryEvents(id, d)[2] == Recorded(Record(id, d.respondedAt, d.reply))
  {
  }

  /**
    The calls of one position of the `for` loop: those of `processQuery` first; then, exactly
    when it returned normally, `processed.add` and `deleteSms`, in that order; nothing when skipped.
   */
  lemma LoopEventsOrder(id: Identity, e: Env, d: Disposition)
    ensures d.Skipped? ==> LoopEvents(id, e, d) == []
    ensures QueryEvents(id, d) <= LoopEvents(id, e, d)
    ensures Marks(d) ==>
            var r := LoopEvents(id, e, d);
            |r| == |QueryEvents(id, d)| + 2 && r[|r| - 2] == Marked(id) && r[|r| - 1] == Deleted(id, e.deleteOk)
    ensures !Marks(d) ==> LoopEvents(id, e, d) == QueryEvents(id, d)
  {
  }

  /**
    The body of the `for` loop: the counter goes up exactly when the identity was not yet
    processed, the identity becomes processed exactly when stale or answered, the outcome and the
    calls of the position are appended, and a skipped position changes nothing else.
   */
  lemma StepEffect(t: Tally, id: Identity, e: Env, h: Identity -> string)
    ensures var t' := Step(t, id, e, h);
            var d := Dispose(t.processed, id, e, h);
            t'.newQueries == t.newQueries + (if id in t.processed then 0 else 1) &&
            t'.processed == t.processed + (if Marks(d) then {id} else {}) &&
            t'.outcomes == t.outcomes + [d] &&
            t'.trace == t.trace + LoopEvents(id, e, d)
    ensures id in t.processed ==> Step(t, id, e, h) == t.(outcomes := t.outcomes + [Skipped])
  {
  }

  /** Extending the snapshot by one position runs the loop body once more. */
  lemma ScanSnoc(p0: set<Identity>, ids: seq<Identity>, envs: seq<Env>, h: Identity -> string, i: nat)
    requires |envs| == |ids| && i < |ids|
    ensures Scan(p0, ids[..i + 1], envs[..i + 1], h) == Step(Scan(p0, ids[..i], envs[..i], h), ids[i], envs[i], h)
  {
    assert ids[..i + 1][..i] == ids[..i] && envs[..i + 1][..i] == envs[..i];
  }

  /** Appending a trace in two steps is appending both at once. */
  lemma AppendTwice(t0: seq<Event>, a: seq<Event>, b: seq<Event>)
    ensures (t0 + a) + b == t0 + (a + b)
  {
  }

  /** `state`, `trace` and `lines` are what the first `k` passes of `polls` leave. */
  ghost predicate RunAt(s: LoopState, polls: seq<Poll>, h: Identity -> string, k: nat,
                        state: LoopState, trace: seq<Event>, lines: seq<Option<Line>>)
  {
    k <= |polls| && AllWellFormed(polls[..k]) &&
    var r := Run(s, polls[..k], h);
    state == r.state && trace == r.trace && lines == r.lines
  }

  /** Pass `k` extends what the first `k` passes leave to what the first `k + 1` leave. */
  lemma RunAtStep(s: LoopState, polls: seq<Poll>, h: Identity -> string, k: nat,
                  state: LoopState, trace: seq<Event>, lines: seq<Option<Line>>)
    requires AllWellFormed(polls) && k < |polls| && RunAt(s, polls, h, k, state, trace, lines)
    ensures var p := Pass(state, polls[k], h);
            RunAt(s, polls, h, k + 1, p.state, trace + p.trace, lines + [p.line])
  {
    assert polls[..k + 1][..k] == polls[..k];
  }

  /** Position `j` of a pass ends as the loop body decides from the processed set at that moment. */
  lemma {:induction false} ScanOutcomeAt(p0: set<Identity>, ids: seq<Identity>, envs: seq<Env>, h: Identity -> string, j: nat)
    requires |envs| == |ids| && j < |ids|
    ensures Scan(p0, ids, envs, h).outcomes[j]
         == Dispose(Scan(p0, ids[..j], envs[..j], h).processed, ids[j], envs[j], h)
    decreases |ids|
  {
    var n := |ids| - 1;
    ScanLast(p0, ids, envs, h);
    if j < n {
      ScanOutcomeAt(p0, ids[..n], envs[..n], h, j);
      assert ids[..n][..j] == ids[..j] && envs[..n][..j] == envs[..j];
    }
  }

  /** The last outcome of a pass comes from the processed set the rest of the pass leaves. */
  lemma ScanLast(p0: set<Identity>, ids: seq<Identity>, envs: seq<Env>, h: Identity -> string)
    requires |envs| == |ids| && ids != []
    ensures var n := |ids| - 1;
            var prev := Scan(p0, ids[..n], envs[..n], h);
            Scan(p0, ids, envs, h).outcomes == prev.outcomes + [Dispose(prev.processed, ids[n], envs[n], h)]
  {
  }

  /** An answered position leaves a log record of its query, with its reply and response time, in the pass's trace. */
  lemma {:induction false} ScanRecordsAnswered(p0: set<Identity>, ids: seq<Identity>, envs: seq<Env>, h: Identity -> string, j: nat)
    requires |envs| == |ids| && j < |ids|
    ensures var t := Scan(p0, ids, envs, h);
            var d := t.outcomes[j];
            d.Answered? ==> Recorded(Record(ids[j], d.respondedAt, d.reply)) in t.trace
    decreases |ids|
  {
    var n := |ids| - 1;
    var prev := Scan(p0, ids[..n], envs[..n], h);
    var d := Dispose(prev.processed, ids[n], envs[n], h);
    StepEffect(prev, ids[n], envs[n], h);
    assert Scan(p0, ids, envs, h) == Step(prev, ids[n], envs[n], h);
    if j < n {
      ScanRecordsAnswered(p0, ids[..n], envs[..n], h, j);
    } else if d.Answered? {
      QueryEventsOrder(ids[n], d);
      LoopEventsOrder(ids[n], envs[n], d);
      assert LoopEvents(ids[n], envs[n], d)[2] == Recorded(Record(ids[n], d.respondedAt, d.reply));
    }
  }

  /** A prefix of a prefix is a prefix. */
  lemma PrefixTrans(a: seq<Event>, b: seq<Event>, c: seq<Event>)
    requires a <= b && b <= c
    ensures a <= c
  {
    assert c[..|a|] == c[..|b|][..|a|];
  }

  /** The calls of the first `i` positions of a pass are the start of the calls of the whole pass. */
  lemma {:induction false} ScanTracePrefix(p0: set<Identity>, ids: seq<Identity>, envs: seq<Env>, h: Identity -> string, i: nat)
    requires |envs| == |ids| && i <= |ids|
    ensures Scan(p0, ids[..i], envs[..i], h).trace <= Scan(p0, ids, envs, h).trace
    decreases |ids| - i
  {
    if i < |ids| {
      ScanTracePrefix(p0, ids, envs, h, i + 1);
      var t := Scan(p0, ids[..i], envs[..i], h);
      ScanSnoc(p0, ids, envs, h, i);
      StepEffect(t, ids[i], envs[i], h);
      var next := Scan(p0, ids[..i + 1], envs[..i + 1], h).trace;
      assert next[..|t.trace|] == t.trace;
      PrefixTrans(t.trace, next, Scan(p0, ids, envs, h).trace);
    } else {
      assert ids[..i] == ids && envs[..i] == envs;
    }
  }

  /**
    The calls of a pass are made in snapshot order: the calls of position `i` come right after
    those of the positions before it, and every later position's calls come after them.
   */
  lemma ScanTraceInOrder(p0: set<Identity>, ids: seq<Identity>, envs: seq<Env>, h: Identity -> string, i: nat)
    requires |envs| == |ids| && i < |ids|
    ensures Scan(p0, ids[..i], envs[..i], h).trace + LoopEvents(ids[i], envs[i], Scan(p0, ids, envs, h).outcomes[i])
            <= Scan(p0, ids, envs, h).trace
  {
    ScanTracePrefix(p0, ids, envs, h, i + 1);
    ScanSnoc(p0, ids, envs, h, i);
    ScanOutcomeAt(p0, ids, envs, h, i);
    StepEffect(Scan(p0, ids[..i], envs[..i], h), ids[i], envs[i], h);
  }

  /**
    A position whose identity is already processed when it is reached is skipped: not counted,
    no handler call, no send, no record, no delete. Any other position is counted and attempted.
   */
  lemma SkipExactlyProcessed(p0: set<Identity>, ids: seq<Identity>, envs: seq<Env>, h: Identity -> string, j: nat)
    requires |envs| == |ids| && j < |ids|
    ensures var before := Scan(p0, ids[..j], envs[..j], h).processed;
            var d := Scan(p0, ids, envs, h).outcomes[j];
            (ids[j] in before ==> d.Skipped? && LoopEvents(ids[j], envs[j], d) == []) &&
            (ids[j] !in before ==> d == Attempt(ids[j], envs[j], h))
  {
    ScanOutcomeAt(p0, ids, envs, h, j);
  }

  /** Nothing is handed to the handler or sent for a position that is stale at its freshness check. */
  lemma SendsOnlyFresh(p0: set<Identity>, ids: seq<Identity>, envs: seq<Env>, h: Identity -> string, j: nat)
    requires |envs| == |ids| && j < |ids|
    requires !IsNotOld(ids[j].timeSent, envs[j].now)
    ensures var d := Scan(p0, ids, envs, h).outcomes[j];
            (d.Skipped? || d.Stale?) &&
            forall k :: 0 <= k < |LoopEvents(ids[j], envs[j], d)| ==>
              !LoopEvents(ids[j], envs[j], d)[k].Sent? && !LoopEvents(ids[j], envs[j], d)[k].Asked? &&
              !LoopEvents(ids[j], envs[j], d)[k].Recorded?
  {
    ScanOutcomeAt(p0, ids, envs, h, j);
  }

  /** The positions of a pass that were counted, i.e. not skipped. */
  ghost function CountedPositions(outcomes: seq<Disposition>): set<int> {
    set j | 0 <= j < |outcomes| && !outcomes[j].Skipped?
  }

  lemma CountedPositionsAppend(o: seq<Disposition>, d: Disposition)
    ensures CountedPositions(o + [d]) == CountedPositions(o) + (if d.Skipped? then {} else {|o|})
    ensures |o| !in CountedPositions(o)
  {
  }

  /** The counter `newQueries` counts exactly the positions that were not skipped. */
  lemma {:induction false} CountsUnskipped(p0: set<Identity>, ids: seq<Identity>, envs: seq<Env>, h: Identity -> string)
    requires |envs| == |ids|
    ensures var t := Scan(p0, ids, envs, h); t.newQueries == |CountedPositions(t.outcomes)|
    decreases |ids|
  {
    var t := Scan(p0, ids, envs, h);
    if ids == [] {
      assert CountedPositions(t.outcomes) == {};
    } else {
      var n := |ids| - 1;
      CountsUnskipped(p0, ids[..n], envs[..n], h);
      var t' := Scan(p0, ids[..n], envs[..n], h);
      assert t.outcomes == t'.outcomes + [t.outcomes[n]];
      CountedPositionsAppend(t'.outcomes, t.outcomes[n]);
    }
  }

  /** The positions that were not yet processed when the loop reached them. */
  ghost function NewPositions(p0: set<Identity>, ids: seq<Identity>, envs: seq<Env>, h: Identity -> string): set<int>
    requires |envs| == |ids|
  {
    set j | 0 <= j < |ids| && ids[j] !in Scan(p0, ids[..j], envs[..j], h).processed
  }

  /** The counter `newQueries` counts exactly the positions not yet processed when the loop reached them. */
  lemma CountsNewPositions(p0: set<Identity>, ids: seq<Identity>, envs: seq<Env>, h: Identity -> string)
    requires |envs| == |ids|
    ensures Scan(p0, ids, envs, h).newQueries == |NewPositions(p0, ids, envs, h)|
  {
    var t := Scan(p0, ids, envs, h);
    CountsUnskipped(p0, ids, envs, h);
    forall j | 0 <= j < |ids|
      ensures j in NewPositions(p0, ids, envs, h) <==> j in CountedPositions(t.outcomes)
    {
      SkipExactlyProcessed(p0, ids, envs, h, j);
    }
    assert NewPositions(p0, ids, envs, h) == CountedPositions(t.outcomes);
  }

  /** The identities at the positions of a pass that marked them processed. */
  ghost function MarkedIds(ids: seq<Identity>, outcomes: seq<Disposition>): set<Identity>
    requires |outcomes| == |ids|
  {
    set j | 0 <= j < |ids| && Marks(outcomes[j]) :: ids[j]
  }

  /**
    After a pass the processed set is the old one plus the identities of the positions that were
    stale or answered; a failed send adds nothing, and whether `deleteSms` failed plays no part.
   */
  lemma {:induction false} ProcessedAfterScan(p0: set<Identity>, ids: seq<Identity>, envs: seq<Env>, h: Identity -> string)
    requires |envs| == |ids|
    ensures var t := Scan(p0, ids, envs, h); t.processed == p0 + MarkedIds(ids, t.outcomes)
    decreases |ids|
  {
    var t := Scan(p0, ids, envs, h);
    if ids == [] {
      assert MarkedIds(ids, t.outcomes) == {};
    } else {
      var n := |ids| - 1;
      ProcessedAfterScan(p0, ids[..n], envs[..n], h);
      var t' := Scan(p0, ids[..n], envs[..n], h);
      assert t.outcomes[..n] == t'.outcomes;
      MarkedIdsSnoc(ids, t.outcomes);
    }
  }

  lemma MarkedIdsSnoc(ids: seq<Identity>, o: seq<Disposition>)
    requires |o| == |ids| && ids != []
    ensures var n := |ids| - 1;
            MarkedIds(ids, o) == MarkedIds(ids[..n], o[..n]) + (if Marks(o[n]) then {ids[n]} else {})
  {
    var n := |ids| - 1;
    var all := MarkedIds(ids, o);
    var last := if Marks(o[n]) then {ids[n]} else {};
    forall y | y in all
      ensures y in MarkedIds(ids[..n], o[..n]) + last
    {
      var j :| 0 <= j < |ids| && Marks(o[j]) && ids[j] == y;
      if j < n { assert ids[..n][j] == y && Marks(o[..n][j]); }
    }
    forall y | y in MarkedIds(ids[..n], o[..n]) + last
      ensures y in all
    {
      if y in MarkedIds(ids[..n], o[..n]) {
        var j :| 0 <= j < n && Marks(o[..n][j]) && ids[..n][j] == y;
        assert ids[j] == y && o[j] == o[..n][j];
      }
    }
  }

  /** Whether `deleteSms` throws changes neither the processed set, nor the counter, nor any outcome. */
  lemma {:induction false} DeleteFailureIrrelevant(p0: set<Identity>, ids: seq<Identity>, envs: seq<Env>, envs': seq<Env>, h: Identity -> string)
    requires |envs| == |ids| && |envs'| == |ids|
    requires forall j :: 0 <= j < |ids| ==> envs'[j] == envs[j].(deleteOk := envs'[j].deleteOk)
    ensures Scan(p0, ids, envs', h).processed == Scan(p0, ids, envs, h).processed
    ensures Scan(p0, ids, envs', h).newQueries == Scan(p0, ids, envs, h).newQueries
    ensures Scan(p0, ids, envs', h).outcomes == Scan(p0, ids, envs, h).outcomes
    decreases |ids|
  {
    if ids != [] {
      var n := |ids| - 1;
      DeleteFailureIrrelevant(p0, ids[..n], envs[..n], envs'[..n], h);
      assert envs'[n] == envs[n].(deleteOk := envs'[n].deleteOk);
    }
  }

  /**
    A query whose every sighting in one pass ended in a failed send is not lost: on the next pass
    its first sighting is counted again and attempted afresh (answered if still fresh and the send
    succeeds).
   */
  lemma FailedSendRetried(p0: set<Identity>, ids: seq<Identity>, envs: seq<Env>,
                          ids2: seq<Identity>, envs2: seq<Env>, h: Identity -> string, id: Identity, k: nat)
    requires |envs| == |ids| && |envs2| == |ids2|
    requires id !in p0
    requires forall j :: 0 <= j < |ids| && ids[j] == id ==> Scan(p0, ids, envs, h).outcomes[j].SendFailed?
    requires k < |ids2| && ids2[k] == id && id !in ids2[..k]
    ensures Scan(Scan(p0, ids, envs, h).processed, ids2, envs2, h).outcomes[k] == Attempt(id, envs2[k], h)
  {
    var t := Scan(p0, ids, envs, h);
    ProcessedAfterScan(p0, ids, envs, h);
    assert id !in t.processed;
    ScanOutcomeAt(t.processed, ids2, envs2, h, k);
    var t2 := Scan(t.processed, ids2[..k], envs2[..k], h);
    ProcessedAfterScan(t.processed, ids2[..k], envs2[..k], h);
    assert id !in MarkedIds(ids2[..k], t2.outcomes);
  }

  lemma {:induction false} SentCountAppend(a: seq<Event>, b: seq<Event>, id: Identity)
    ensures SentCount(a + b, id) == SentCount(a, id) + SentCount(b, id)
    decreases |a|
  {
    if a == [] {
      assert a + b == b;
    } else {
      assert (a + b)[1..] == a[1..] + b;
      SentCountAppend(a[1..], b, id);
    }
  }

  lemma SentCountCons(e: Event, rest: seq<Event>, id: Identity)
    ensures SentCount([e] + rest, id) == SentFlag(e, id) + SentCount(rest, id)
    ensures RecordedCount([e] + rest, id) == RecordedFlag(e, id) + RecordedCount(rest, id)
  {
    assert ([e] + rest)[1..] == rest;
  }

  lemma {:induction false} RecordedCountAppend(a: seq<Event>, b: seq<Event>, id: Identity)
    ensures RecordedCount(a + b, id) == RecordedCount(a, id) + RecordedCount(b, id)
    decreases |a|
  {
    if a == [] {
      assert a + b == b;
    } else {
      assert (a + b)[1..] == a[1..] + b;
      RecordedCountAppend(a[1..], b, id);
    }
  }

  /** One loop position sends successfully about `id` once if it answers `id`, otherwise never. */
  lemma LoopEventsSentCount(x: Identity, e: Env, d: Disposition, id: Identity)
    ensures SentCount(LoopEvents(x, e, d), id) == if d.Answered? && x == id then 1 else 0
    ensures RecordedCount(LoopEvents(x, e, d), id) == if d.Answered? && x == id then 1 else 0
  {
    var tail := [Marked(x), Deleted(x, e.deleteOk)];
    SentCountCons(Deleted(x, e.deleteOk), [], id);
    SentCountCons(Marked(x), [Deleted(x, e.deleteOk)], id);
    assert SentCount(tail, id) == 0 && RecordedCount(tail, id) == 0;
    match d
    case Skipped =>
    case Stale =>
      assert LoopEvents(x, e, d) == tail;
    case SendFailed(reply) =>
      SentCountCons(Sent(x, reply, false), [], id);
      SentCountCons(Asked(x), [Sent(x, reply, false)], id);
      assert LoopEvents(x, e, d) == [Asked(x), Sent(x, reply, false)];
    case Answered(reply, at) =>
      var r := Recorded(Record(x, at, reply));
      SentCountCons(r, tail, id);
      SentCountCons(Sent(x, reply, true), [r] + tail, id);
      SentCountCons(Asked(x), [Sent(x, reply, true)] + ([r] + tail), id);
      assert LoopEvents(x, e, d) == [Asked(x)] + ([Sent(x, reply, true)] + ([r] + tail));
  }

  /**
    Within one pass an identity is sent successfully at most once, never if it was already
    processed, and once sent it is processed.
   */
  lemma {:induction false} ScanSendsOnce(p0: set<Identity>, ids: seq<Identity>, envs: seq<Env>, h: Identity -> string, id: Identity)
    requires |envs| == |ids|
    ensures var t := Scan(p0, ids, envs, h);
            SentCount(t.trace, id) <= (if id in p0 then 0 else 1) &&
            (SentCount(t.trace, id) > 0 ==> id in t.processed)
    decreases |ids|
  {
    if ids != [] {
      var n := |ids| - 1;
      ScanSendsOnce(p0, ids[..n], envs[..n], h, id);
      var t' := Scan(p0, ids[..n], envs[..n], h);
      var d := Dispose(t'.processed, ids[n], envs[n], h);
      SentCountAppend(t'.trace, LoopEvents(ids[n], envs[n], d), id);
      LoopEventsSentCount(ids[n], envs[n], d, id);
    }
  }

  /** Over any number of passes an identity is sent successfully at most once per process. */
  lemma {:induction false} RunSendsOnce(s: LoopState, polls: seq<Poll>, h: Identity -> string, id: Identity)
    requires AllWellFormed(polls)
    ensures var r := Run(s, polls, h);
            SentCount(r.trace, id) <= (if id in s.processed then 0 else 1) &&
            (SentCount(r.trace, id) > 0 ==> id in r.state.processed)
    decreases |polls|
  {
    if polls != [] {
      var n := |polls| - 1;
      assert AllWellFormed(polls[..n]);
      RunSendsOnce(s, polls[..n], h, id);
      var prev := Run(s, polls[..n], h);
      var p := Pass(prev.state, polls[n], h);
      SentCountAppend(prev.trace, p.trace, id);
      if polls[n].Polled? {
        ScanSendsOnce(prev.state.processed, polls[n].ids, polls[n].envs, h, id);
      }
    }
  }

  /** The same query seen by every one of N polls of a fresh process is answered at most once. */
  lemma AtMostOneReplyPerProcess(polls: seq<Poll>, h: Identity -> string, id: Identity)
    requires AllWellFormed(polls)
    ensures SentCount(Run(LoopState({}, true), polls, h).trace, id) <= 1
  {
    RunSendsOnce(LoopState({}, true), polls, h, id);
  }

  /**
    Within one pass the log receives exactly as many records of a query as there were successful
    sends to it: each send that returns is followed by one record, and nothing else is recorded.
   */
  lemma {:induction false} ScanRecordsEverySend(p0: set<Identity>, ids: seq<Identity>, envs: seq<Env>, h: Identity -> string, id: Identity)
    requires |envs| == |ids|
    ensures var t := Scan(p0, ids, envs, h); RecordedCount(t.trace, id) == SentCount(t.trace, id)
    decreases |ids|
  {
    if ids != [] {
      var n := |ids| - 1;
      ScanRecordsEverySend(p0, ids[..n], envs[..n], h, id);
      var t' := Scan(p0, ids[..n], envs[..n], h);
      var d := Dispose(t'.processed, ids[n], envs[n], h);
      SentCountAppend(t'.trace, LoopEvents(ids[n], envs[n], d), id);
      RecordedCountAppend(t'.trace, LoopEvents(ids[n], envs[n], d), id);
      LoopEventsSentCount(ids[n], envs[n], d, id);
    }
  }

  /** The same over any number of passes. */
  lemma {:induction false} RunRecordsEverySend(s: LoopState, polls: seq<Poll>, h: Identity -> string, id: Identity)
    requires AllWellFormed(polls)
    ensures var r := Run(s, polls, h); RecordedCount(r.trace, id) == SentCount(r.trace, id)
    decreases |polls|
  {
    if polls != [] {
      var n := |polls| - 1;
      assert AllWellFormed(polls[..n]);
      RunRecordsEverySend(s, polls[..n], h, id);
      var prev := Run(s, polls[..n], h);
      var p := Pass(prev.state, polls[n], h);
      SentCountAppend(prev.trace, p.trace, id);
      RecordedCountAppend(prev.trace, p.trace, id);
      if polls[n].Polled? {
        ScanRecordsEverySend(prev.state.processed, polls[n].ids, polls[n].envs, h, id);
      }
    }
  }

  /** From the initial state, any query is written to the log at most once, however many polls see it. */
  lemma AtMostOneRecordPerProcess(polls: seq<Poll>, h: Identity -> string, id: Identity)
    requires AllWellFormed(polls)
    ensures RecordedCount(Run(LoopState({}, true), polls, h).trace, id) <= 1
  {
    RunRecordsEverySend(LoopState({}, true), polls, h, id);
    AtMostOneReplyPerProcess(polls, h, id);
  }

  lemma NeverSentToAppend(a: seq<Event>, b: seq<Event>, id: Identity)
    requires NeverSentTo(a, id) && NeverSentTo(b, id)
    ensures NeverSentTo(a + b, id)
  {
    forall k | 0 <= k < |a + b|
      ensures !((a + b)[k].Sent? && (a + b)[k].id == id)
    {
      if k >= |a| { assert (a + b)[k] == b[k - |a|]; }
    }
  }

  /**
    If every clock reading of a pass is at least `t` and the query is already stale at `t`, the
    pass attempts no send about it at all.
   */
  lemma {:induction false} ScanNeverSendsStale(p0: set<Identity>, ids: seq<Identity>, envs: seq<Env>, h: Identity -> string,
                                               id: Identity, t: int)
    requires |envs| == |ids|
    requires forall j :: 0 <= j < |envs| ==> t <= envs[j].now
    requires !IsNotOld(id.timeSent, t)
    ensures NeverSentTo(Scan(p0, ids, envs, h).trace, id)
    decreases |ids|
  {
    if ids != [] {
      var n := |ids| - 1;
      ScanNeverSendsStale(p0, ids[..n], envs[..n], h, id, t);
      var t' := Scan(p0, ids[..n], envs[..n], h);
      var d := Dispose(t'.processed, ids[n], envs[n], h);
      var evs := LoopEvents(ids[n], envs[n], d);
      assert NeverSentTo(evs, id) by {
        if ids[n] == id && !d.Skipped? {
          assert t <= envs[n].now;
          assert d.Stale?;
        }
      }
      NeverSentToAppend(t'.trace, evs, id);
    }
  }

  /** Over any number of passes whose clock readings are at least `t`, a query stale at `t` is never sent. */
  lemma {:induction false} RunNeverSendsStale(s: LoopState, polls: seq<Poll>, h: Identity -> string, id: Identity, t: int)
    requires AllWellFormed(polls)
    requires forall k, j :: 0 <= k < |polls| && polls[k].Polled? && 0 <= j < |polls[k].envs| ==> t <= polls[k].envs[j].now
    requires !IsNotOld(id.timeSent, t)
    ensures NeverSentTo(Run(s, polls, h).trace, id)
    decreases |polls|
  {
    if polls != [] {
      var n := |polls| - 1;
      assert AllWellFormed(polls[..n]);
      RunNeverSendsStale(s, polls[..n], h, id, t);
      var prev := Run(s, polls[..n], h);
      var p := Pass(prev.state, polls[n], h);
      if polls[n].Polled? {
        ScanNeverSendsStale(prev.state.processed, polls[n].ids, polls[n].envs, h, id, t);
      }
      NeverSentToAppend(prev.trace, p.trace, id);
    }
  }

  /** The first-time flag is still set after some passes iff it was set and every fetch in them failed. */
  lemma {:induction false} RunFirstTime(s: LoopState, polls: seq<Poll>, h: Identity -> string)
    requires AllWellFormed(polls)
    ensures Run(s, polls, h).state.firstTime <==> s.firstTime && forall k :: 0 <= k < |polls| ==> polls[k].PollFailed?
    decreases |polls|
  {
    if polls != [] {
      var n := |polls| - 1;
      assert AllWellFormed(polls[..n]);
      RunFirstTime(s, polls[..n], h);
      assert forall k :: 0 <= k < n ==> polls[..n][k] == polls[k];
    }
  }

  /** Pass `k` of a run prints the line that pass prints from the state the earlier passes left. */
  lemma {:induction false} RunLineAt(s: LoopState, polls: seq<Poll>, h: Identity -> string, k: nat)
    requires AllWellFormed(polls) && k < |polls|
    ensures AllWellFormed(polls[..k])
    ensures Run(s, polls, h).lines[k] == Pass(Run(s, polls[..k], h).state, polls[k], h).line
    decreases |polls|
  {
    var n := |polls| - 1;
    assert AllWellFormed(polls[..n]);
    var prev := Run(s, polls[..n], h);
    assert Run(s, polls, h).lines == prev.lines + [Pass(prev.state, polls[n], h).line];
    if k < n {
      RunLineAt(s, polls[..n], h, k);
      assert polls[..n][..k] == polls[..k];
    } else {
      assert polls[..k] == polls[..n];
    }
  }

  /**
    A pass whose fetch fails prints nothing. The first pass whose fetch succeeds always prints the
    summary, even for an empty snapshot; a later one prints it only when it counted a new query.
   */
  lemma RunLines(s: LoopState, polls: seq<Poll>, h: Identity -> string, k: nat)
    requires AllWellFormed(polls) && k < |polls|
    ensures polls[k].PollFailed? ==> Run(s, polls, h).lines[k].None?
    ensures polls[k].Polled? ==>
            var before := Run(s, polls[..k], h).state;
            var t := Scan(before.processed, polls[k].ids, polls[k].envs, h);
            Run(s, polls, h).lines[k] == Summary(t.newQueries, s.firstTime && forall i :: 0 <= i < k ==> polls[i].PollFailed?)
  {
    RunLineAt(s, polls, h, k);
    RunFirstTime(s, polls[..k], h);
    assert forall i :: 0 <= i < k ==> polls[..k][i] == polls[i];
  }
}
