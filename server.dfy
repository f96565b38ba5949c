/**
  The poll loop as the program runs it: an object that keeps the processed set and the first-time
  flag across passes, mutates the query objects it answers, and makes its calls on the handler,
  the gateway and the message log in order (recorded in the ghost `trace`).
 */
module Server {
  import opened Wrappers
  import opened Queries
  import opened PollSpec
  import PollProperties

  /** What `getNewMessages` does in one pass: it throws, or it returns the parsed snapshot. */
  datatype Fetch = FetchFailed | Fetched(queries: seq<Query>) {
    ghost function Objects(): set<Query> {
      if Fetched? then set q | q in queries else {}
    }
  }

  /** A well-formed pass input: one world behaviour per snapshot position, distinct objects. */
  ghost predicate Acceptable(f: Fetch, envs: seq<Env>) {
    f.Fetched? ==> |envs| == |f.queries| && Distinct(f.queries)
  }

  /** The value-level view of a pass input. */
  function ToPoll(f: Fetch, envs: seq<Env>): Poll {
    if f.FetchFailed? then PollFailed else Polled(IdsOf(f.queries), envs)
  }

  ghost function Polls(fetches: seq<Fetch>, envs: seq<seq<Env>>): (ps: seq<Poll>)
    requires |envs| == |fetches|
    ensures |ps| == |fetches|
    ensures forall k :: 0 <= k < |ps| ==> ps[k] == ToPoll(fetches[k], envs[k])
  {
    seq(|fetches|, k requires 0 <= k < |fetches| => ToPoll(fetches[k], envs[k]))
  }

  ghost function AllObjects(fetches: seq<Fetch>): set<Query> {
    set k, q | 0 <= k < |fetches| && q in fetches[k].Objects() :: q
  }

  /**
    The reply metadata of `q` after a position ended with `d`: stamped with the reply if `d`
    answered it, otherwise still `t0` and `r0`, the values it had before the pass.
   */
  ghost predicate Stamped(q: Query, d: Disposition, t0: Option<int>, r0: Option<string>)
    reads q
  {
    if d.Answered?
    then q.timeResponded == Some(d.respondedAt) && q.response == Some(d.reply)
    else q.timeResponded == t0 && q.response == r0
  }

  /**
    The reply metadata of `q` is either still `t0` and `r0`, or wholly set and equal to what a log
    record of `q` in `trace` holds.
   */
  ghost predicate Accounted(q: Query, t0: Option<int>, r0: Option<string>, trace: seq<Event>)
    reads q
  {
    (q.timeResponded == t0 && q.response == r0) ||
    (q.timeResponded.Some? && q.response.Some? &&
     Recorded(Record(q.Id(), q.timeResponded.value, q.response.value)) in trace)
  }

  /** Every object in `stamps` is accounted for against the metadata `stamps` holds for it. */
  ghost predicate AllAccounted(stamps: map<Query, (Option<int>, Option<string>)>, trace: seq<Event>)
    reads stamps.Keys
  {
    forall q :: q in stamps ==> Accounted(q, stamps[q].0, stamps[q].1, trace)
  }

  class PioText {
    /** The message handler; it is pure with respect to the query it is given. */
    const handler: Identity -> string
    /** The identities already handled by this process. */
    var processed: set<Identity>
    /** Set until the first pass whose fetch succeeds has printed its summary. */
    var firstTime: bool
    /** The calls made so far on the handler, the gateway and the message log. */
    ghost var trace: seq<Event>

    function State(): LoopState
      reads this
    {
      LoopState(processed, firstTime)
    }

    /** The state `run()` starts from: nothing processed yet, and the first time. */
    constructor (handler: Identity -> string)
      ensures this.handler == handler
      ensures processed == {} && firstTime && trace == []
    {
      this.handler := handler;
      processed := {};
      firstTime := true;
      trace := [];
    }

    /**
      `processQuery`: answers `q` if it is fresh. Returns false when `sendSms` throws, in which
      case the query and the log are left as they were.
     */
    method ProcessQuery(q: Query, e: Env) returns (ok: bool)
      modifies this`trace, q
      ensures var d := Attempt(q.Id(), e, handler);
              ok == !d.SendFailed? &&
              trace == old(trace) + QueryEvents(q.Id(), d) &&
              Stamped(q, d, old(q.timeResponded), old(q.response))
      ensures old(q.Consistent()) ==> q.Consistent()
    {
      ok := true;
      if IsNotOld(q.timeSent, e.now) {
        var response := handler(q.Id());
        trace := trace + [Asked(q.Id())];
        trace := trace + [Sent(q.Id(), response, e.sendOk)];
        if !e.sendOk {
          ok := false;
          return;
        }
        q.timeResponded := Some(e.stampedAt);
        q.response := Some(response);
        trace := trace + [Recorded(Record(q.Id(), q.timeResponded.value, q.response.value))];
      }
    }

    /**
      The `try` block of the `for` loop in `run()` for a query not yet processed: `processQuery`,
      then, unless it threw, `processed.add` and `deleteSms`, whose failure is caught and ignored.
     */
    method Handle(q: Query, e: Env)
      modifies this`processed, this`trace, q
      ensures var d := Attempt(q.Id(), e, handler);
              processed == (if Marks(d) then old(processed) + {q.Id()} else old(processed)) &&
              trace == old(trace) + LoopEvents(q.Id(), e, d) &&
              Stamped(q, d, old(q.timeResponded), old(q.response))
    {
      ghost var d := Attempt(q.Id(), e, handler);
      var ok := ProcessQuery(q, e);
      if ok {
        processed := processed + {q.Id()};
        trace := trace + [Marked(q.Id())];
        trace := trace + [Deleted(q.Id(), e.deleteOk)];
        assert LoopEvents(q.Id(), e, d) == QueryEvents(q.Id(), d) + [Marked(q.Id()), Deleted(q.Id(), e.deleteOk)];
      } else {
        assert LoopEvents(q.Id(), e, d) == QueryEvents(q.Id(), d) + [];
      }
    }

    /** The state of the `for` loop of `run()` after the first `i` queries of `qs`. */
    ghost predicate Progress(qs: seq<Query>, envs: seq<Env>, i: nat, p0: set<Identity>, trace0: seq<Event>,
                             t0: seq<Option<int>>, r0: seq<Option<string>>, tally: Tally, newQueries: nat)
      reads this, set q | q in qs
    {
      && i <= |qs| == |envs| == |t0| == |r0|
      && tally == Scan(p0, IdsOf(qs)[..i], envs[..i], handler)
      && processed == tally.processed && newQueries == tally.newQueries
      && trace == trace0 + tally.trace
      && (forall j :: 0 <= j < |qs| ==> Stamped(qs[j], if j < i then tally.outcomes[j] else Skipped, t0[j], r0[j]))
    }

    /** One position of the `for` loop of `run()`. */
    method Visit(qs: seq<Query>, envs: seq<Env>, i: nat, ghost p0: set<Identity>, ghost trace0: seq<Event>,
                 ghost t0: seq<Option<int>>, ghost r0: seq<Option<string>>, ghost tally: Tally, newQueries: nat)
      returns (newQueries': nat, ghost tally': Tally)
      requires Distinct(qs) && i < |qs|
      requires Progress(qs, envs, i, p0, trace0, t0, r0, tally, newQueries)
      modifies this`processed, this`trace, qs[i]
      ensures Progress(qs, envs, i + 1, p0, trace0, t0, r0, tally', newQueries')
    {
      ghost var ids := IdsOf(qs);
      var q := qs[i];
      ghost var d := Dispose(tally.processed, ids[i], envs[i], handler);
      newQueries' := newQueries;
      if q.Id() !in processed {
        newQueries' := newQueries + 1;
        Handle(q, envs[i]);
      }
      PollProperties.AppendTwice(trace0, tally.trace, LoopEvents(ids[i], envs[i], d));
      PollProperties.ScanSnoc(p0, ids, envs, handler, i);
      tally' := Step(tally, ids[i], envs[i], handler);
      assert tally'.outcomes == tally.outcomes + [d];
      forall j | 0 <= j < |qs|
        ensures Stamped(qs[j], if j < i + 1 then tally'.outcomes[j] else Skipped, t0[j], r0[j])
      {
        if j != i {
          assert qs[j] != q;
        }
      }
    }

    /**
      The `for` loop of `run()` over one snapshot: each query not yet processed is counted and
      handled, in snapshot order. Returns the number of queries counted.
     */
    method HandleSnapshot(qs: seq<Query>, envs: seq<Env>) returns (newQueries: nat)
      requires |envs| == |qs| && Distinct(qs)
      modifies this`processed, this`trace, set q | q in qs
      ensures var t := Scan(old(processed), IdsOf(qs), envs, handler);
              processed == t.processed && newQueries == t.newQueries && trace == old(trace) + t.trace &&
              forall j :: 0 <= j < |qs| ==> Stamped(qs[j], t.outcomes[j], old(qs[j].timeResponded), old(qs[j].response))
      ensures forall q :: q in qs ==> Accounted(q, old(q.timeResponded), old(q.response), trace)
    {
      ghost var t0 := seq(|qs|, j requires 0 <= j < |qs| reads qs => qs[j].timeResponded);
      ghost var r0 := seq(|qs|, j requires 0 <= j < |qs| reads qs => qs[j].response);
      ghost var tally := Tally(processed, 0, [], []);
      newQueries := 0;
      var i := 0;
      while i < |qs|
        invariant 0 <= i <= |qs|
        invariant Progress(qs, envs, i, old(processed), old(trace), t0, r0, tally, newQueries)
      {
        newQueries, tally := Visit(qs, envs, i, old(processed), old(trace), t0, r0, tally, newQueries);
        i := i + 1;
      }
      assert IdsOf(qs)[..|qs|] == IdsOf(qs) && envs[..|qs|] == envs;
      forall q | q in qs
        ensures Accounted(q, old(q.timeResponded), old(q.response), trace)
      {
        var j :| 0 <= j < |qs| && qs[j] == q;
        PollProperties.ScanRecordsAnswered(old(processed), IdsOf(qs), envs, handler, j);
      }
    }

    /**
      One iteration of the `while (true)` loop of `run()`, without the sleep: fetch, handle the
      snapshot, then decide on the summary line. Returns the line that is printed in verbose mode.
      A failed fetch changes nothing.
     */
    method Iterate(inbox: Fetch, envs: seq<Env>) returns (line: Option<Line>)
      requires Acceptable(inbox, envs)
      modifies this`processed, this`firstTime, this`trace, inbox.Objects()
      ensures var r := Pass(old(State()), ToPoll(inbox, envs), handler);
              State() == r.state && trace == old(trace) + r.trace && line == r.line
      ensures inbox.Fetched? ==>
              var qs := inbox.queries;
              var outcomes := Scan(old(processed), IdsOf(qs), envs, handler).outcomes;
              forall j :: 0 <= j < |qs| ==> Stamped(qs[j], outcomes[j], old(qs[j].timeResponded), old(qs[j].response))
      ensures forall q :: q in inbox.Objects() ==> Accounted(q, old(q.timeResponded), old(q.response), trace)
    {
      if inbox.FetchFailed? {
        return None;
      }
      var newQueries := HandleSnapshot(inbox.queries, envs);
      line := Summary(newQueries, firstTime);
      if line.Some? {
        firstTime := false;
      }
    }

    /**
      The state of `run()` after the first `k` iterations of its loop, the polls being `ps`:
      `run` is the part of the trace they added.
     */
    ghost predicate Served(ps: seq<Poll>, k: nat, s0: LoopState, trace0: seq<Event>, run: seq<Event>,
                           lines: seq<Option<Line>>)
      reads this
    {
      trace == trace0 + run && PollProperties.RunAt(s0, ps, handler, k, State(), run, lines)
    }

    /** Iteration `k` of `run()`'s loop, whose poll is `ps[k]`, appending its summary line to `lines`. */
    method ServeOne(inbox: Fetch, envs: seq<Env>, ghost ps: seq<Poll>, k: nat, ghost s0: LoopState,
                    ghost trace0: seq<Event>, ghost run: seq<Event>, lines: seq<Option<Line>>,
                    ghost stamps: map<Query, (Option<int>, Option<string>)>)
      returns (lines': seq<Option<Line>>, ghost run': seq<Event>)
      requires Acceptable(inbox, envs) && AllWellFormed(ps) && k < |ps| && ps[k] == ToPoll(inbox, envs)
      requires Served(ps, k, s0, trace0, run, lines)
      requires inbox.Objects() <= stamps.Keys && AllAccounted(stamps, trace)
      modifies this`processed, this`firstTime, this`trace, inbox.Objects()
      ensures Served(ps, k + 1, s0, trace0, run', lines')
      ensures AllAccounted(stamps, trace)
    {
      ghost var p := Pass(State(), ps[k], handler);
      PollProperties.RunAtStep(s0, ps, handler, k, State(), run, lines);
      var line := Iterate(inbox, envs);
      lines' := lines + [line];
      run' := run + p.trace;
      PollProperties.AppendTwice(trace0, run, p.trace);
    }

    /** The first `|fetches|` iterations of `run()`'s loop. */
    method Serve(fetches: seq<Fetch>, envs: seq<seq<Env>>) returns (lines: seq<Option<Line>>)
      requires |envs| == |fetches|
      requires forall k :: 0 <= k < |fetches| ==> Acceptable(fetches[k], envs[k])
      modifies this`processed, this`firstTime, this`trace, AllObjects(fetches)
      ensures AllWellFormed(Polls(fetches, envs))
      ensures var r := Run(old(State()), Polls(fetches, envs), handler);
              State() == r.state && trace == old(trace) + r.trace && lines == r.lines
      ensures forall q :: q in AllObjects(fetches) ==>
                Accounted(q, old(q.timeResponded), old(q.response), trace) &&
                (old(q.Consistent()) ==> q.Consistent())
    {
      ghost var ps := Polls(fetches, envs);
      ghost var stamps: map<Query, (Option<int>, Option<string>)> :=
        map q | q in AllObjects(fetches) :: (q.timeResponded, q.response);
      assert AllWellFormed(ps);
      assert ps[..0] == [];
      lines := [];
      ghost var run := [];
      var k := 0;
      while k < |fetches|
        invariant 0 <= k <= |fetches|
        invariant Served(ps, k, old(State()), old(trace), run, lines)
        invariant AllAccounted(stamps, trace)
      {
        assert fetches[k].Objects() <= AllObjects(fetches);
        lines, run := ServeOne(fetches[k], envs[k], ps, k, old(State()), old(trace), run, lines, stamps);
        k := k + 1;
      }
      assert ps[..|fetches|] == ps;
      forall q | q in AllObjects(fetches)
        ensures Accounted(q, old(q.timeResponded), old(q.response), trace)
      {
        assert stamps[q] == (old(q.timeResponded), old(q.response));
      }
    }
  }

  /**
    A fresh `PioText` serving any number of fetches answers every query at most once and writes
    it to the message log at most once, however many polls see it.
   */
  method ServeFromStart(handler: Identity -> string, fetches: seq<Fetch>, envs: seq<seq<Env>>)
    returns (server: PioText, lines: seq<Option<Line>>)
    requires |envs| == |fetches|
    requires forall k :: 0 <= k < |fetches| ==> Acceptable(fetches[k], envs[k])
    modifies AllObjects(fetches)
    ensures fresh(server) && server.handler == handler
    ensures AllWellFormed(Polls(fetches, envs))
    ensures var r := Run(LoopState({}, true), Polls(fetches, envs), handler);
            server.State() == r.state && server.trace == r.trace && lines == r.lines
    ensures forall id :: SentCount(server.trace, id) <= 1 && RecordedCount(server.trace, id) <= 1
  {
    server := new PioText(handler);
    assert server.State() == LoopState({}, true);
    lines := server.Serve(fetches, envs);
    ghost var r := Run(LoopState({}, true), Polls(fetches, envs), handler);
    assert server.trace == [] + r.trace == r.trace;
    forall id
      ensures SentCount(server.trace, id) <= 1 && RecordedCount(server.trace, id) <= 1
    {
      PollProperties.AtMostOneReplyPerProcess(Polls(fetches, envs), handler, id);
      PollProperties.AtMostOneRecordPerProcess(Polls(fetches, envs), handler, id);
    }
  }
}
