/**
  The value-level specification of the poll loop: what one pass over an inbox snapshot does to the
  processed set, the new-query counter and the first-time flag, which calls it makes on the handler,
  the gateway and the message log (as a trace of events), and which summary line it prints.
 */
module PollSpec {
  import opened Wrappers
  import opened Queries

  /** Delay between two polls, in milliseconds (the sleep itself is not modelled). */
  const CHECK_FREQ: int := 60000

  /** The freshness window: half an hour, in milliseconds. */
  const HALF_HOUR: int := 1800000

  /** A query sent at `timeSent` is still worth answering at clock reading `now`. */
  predicate IsNotOld(timeSent: int, now: int) {
    now - timeSent < HALF_HOUR
  }

  /**
    What the outside world does while one snapshot position is handled: the clock reading of the
    freshness check, whether `sendSms` returns normally, the clock reading stamped as the response
    time, and whether `deleteSms` returns normally.
   */
  datatype Env = Env(now: int, sendOk: bool, stampedAt: int, deleteOk: bool)

  /** The observable calls of the poll loop, in the order they are made. */
  datatype Event =
    | Asked(id: Identity)                      // handler.getResponse
    | Sent(id: Identity, text: string, ok: bool) // connection.sendSms to id.phoneNumber
    | Recorded(entry: Record)                   // messageLog.record
    | Marked(id: Identity)                     // processed.add
    | Deleted(id: Identity, ok: bool)           // connection.deleteSms

  /** How one snapshot position ends. */
  datatype Disposition =
    | Skipped                                  // already processed: not even counted
    | Stale                                    // counted, not answered, marked processed
    | SendFailed(reply: string)                // counted, the send threw: left for a later pass
    | Answered(reply: string, respondedAt: int) // counted, answered, marked processed

  /** The dispositions that put the query into the processed set. */
  predicate Marks(d: Disposition) {
    d.Stale? || d.Answered?
  }

  /** `processQuery` on a query that is not yet processed. */
  function Attempt(id: Identity, e: Env, handler: Identity -> string): (d: Disposition)
    ensures d.Stale? <==> e.now - id.timeSent >= HALF_HOUR
    ensures d.SendFailed? <==> e.now - id.timeSent < HALF_HOUR && !e.sendOk
    ensures d.Answered? ==> e.sendOk && d.reply == handler(id) && d.respondedAt == e.stampedAt
    ensures d.SendFailed? ==> d.reply == handler(id)
    ensures !d.Skipped?
  {
    if !IsNotOld(id.timeSent, e.now) then Stale
    else if !e.sendOk then SendFailed(handler(id))
    else Answered(handler(id), e.stampedAt)
  }

  /** One position of the `for` loop in `run()`, given the processed set when it is reached. */
  function Dispose(processed: set<Identity>, id: Identity, e: Env, handler: Identity -> string): Disposition {
    if id in processed then Skipped else Attempt(id, e, handler)
  }

  /**
    The calls `processQuery` makes: none for a stale query; otherwise the handler call, then the
    send of its reply to the sender, then, only if the send returned, the log record of the
    stamped query.
   */
  function QueryEvents(id: Identity, d: Disposition): seq<Event> {
    match d
    case Skipped => []
    case Stale => []
    case SendFailed(reply) => [Asked(id), Sent(id, reply, false)]
    case Answered(reply, at) => [Asked(id), Sent(id, reply, true), Recorded(Record(id, at, reply))]
  }

  /** The calls one position of the `for` loop makes: `processQuery`, then `add` and `deleteSms` if it returned normally. */
  function LoopEvents(id: Identity, e: Env, d: Disposition): seq<Event> {
    if d.Skipped? then []
    else QueryEvents(id, d) + (if Marks(d) then [Marked(id), Deleted(id, e.deleteOk)] else [])
  }

  /** The state of the `for` loop after some prefix of the snapshot. */
  datatype Tally = Tally(processed: set<Identity>, newQueries: nat, outcomes: seq<Disposition>, trace: seq<Event>)

  /** The `for` loop of one pass over the snapshot `ids`, starting from the processed set `processed`. */
  function Scan(processed: set<Identity>, ids: seq<Identity>, envs: seq<Env>, handler: Identity -> string): (t: Tally)
    requires |envs| == |ids|
    ensures |t.outcomes| == |ids|
    ensures processed <= t.processed
    ensures t.newQueries <= |ids|
    decreases |ids|
  {
    if ids == [] then Tally(processed, 0, [], [])
    else
      var n := |ids| - 1;
      Step(Scan(processed, ids[..n], envs[..n], handler), ids[n], envs[n], handler)
  }

  /** The body of the `for` loop: one more snapshot position. */
  function Step(t: Tally, id: Identity, e: Env, handler: Identity -> string): Tally {
    var d := Dispose(t.processed, id, e, handler);
    Tally(if Marks(d) then t.processed + {id} else t.processed,
          if d.Skipped? then t.newQueries else t.newQueries + 1,
          t.outcomes + [d],
          t.trace + LoopEvents(id, e, d))
  }

  /** The operator summary line: the count and the word after "new". */
  datatype Line = Line(count: nat, word: string)

  /** Whether the summary is printed after a pass, and in which words. */
  function Summary(newQueries: nat, firstTime: bool): (r: Option<Line>)
    ensures r.Some? <==> newQueries > 0 || firstTime
    ensures r.Some? ==> r.value.count == newQueries
    ensures r.Some? ==> (r.value.word == "query." <==> newQueries == 1)
    ensures r.Some? ==> r.value.word in {"query.", "queries."}
  {
    if newQueries > 0 || firstTime then
      Some(Line(newQueries, if newQueries == 1 then "query." else "queries."))
    else None
  }

  /** The state `run()` keeps from one pass to the next. */
  datatype LoopState = LoopState(processed: set<Identity>, firstTime: bool)

  /** What `getNewMessages` yields in one pass, with the world's behaviour at each position. */
  datatype Poll = PollFailed | Polled(ids: seq<Identity>, envs: seq<Env>)

  predicate WellFormed(p: Poll) {
    p.Polled? ==> |p.envs| == |p.ids|
  }

  datatype PassResult = PassResult(state: LoopState, trace: seq<Event>, line: Option<Line>)

  /** One iteration of the `while (true)` loop in `run()`, without the sleep. */
  function Pass(s: LoopState, p: Poll, handler: Identity -> string): (r: PassResult)
    requires WellFormed(p)
    ensures s.processed <= r.state.processed
    ensures p.PollFailed? ==> r.state == s && r.trace == [] && r.line.None?
    ensures p.Polled? ==> !r.state.firstTime
    ensures s.firstTime && p.Polled? ==> r.line.Some?
  {
    match p
    case PollFailed => PassResult(s, [], None)
    case Polled(ids, envs) =>
      var t := Scan(s.processed, ids, envs, handler);
      var line := Summary(t.newQueries, s.firstTime);
      PassResult(LoopState(t.processed, if line.Some? then false else s.firstTime), t.trace, line)
  }

  predicate AllWellFormed(polls: seq<Poll>) {
    forall k :: 0 <= k < |polls| ==> WellFormed(polls[k])
  }

  datatype RunResult = RunResult(state: LoopState, trace: seq<Event>, lines: seq<Option<Line>>)

  /** Finitely many iterations of the `while (true)` loop in `run()`. */
  function Run(s: LoopState, polls: seq<Poll>, handler: Identity -> string): (r: RunResult)
    requires AllWellFormed(polls)
    ensures |r.lines| == |polls|
    ensures s.processed <= r.state.processed
    decreases |polls|
  {
    if polls == [] then RunResult(s, [], [])
    else
      var n := |polls| - 1;
      var prev := Run(s, polls[..n], handler);
      var p := Pass(prev.state, polls[n], handler);
      RunResult(p.state, prev.trace + p.trace, prev.lines + [p.line])
  }

  /** Whether one event is a successful send about `id`. */
  function SentFlag(e: Event, id: Identity): nat {
    if e.Sent? && e.id == id && e.ok then 1 else 0
  }

  /** The number of successful sends about `id` in a trace. */
  function SentCount(trace: seq<Event>, id: Identity): nat {
    if trace == [] then 0 else SentFlag(trace[0], id) + SentCount(trace[1..], id)
  }

  /** Whether one event is a log record of the query `id`. */
  function RecordedFlag(e: Event, id: Identity): nat {
    if e.Recorded? && e.entry.id == id then 1 else 0
  }

  /** The number of log records of the query `id` in a trace. */
  function RecordedCount(trace: seq<Event>, id: Identity): nat {
    if trace == [] then 0 else RecordedFlag(trace[0], id) + RecordedCount(trace[1..], id)
  }

  /** No send of any kind is attempted about `id` in a trace. */
  predicate NeverSentTo(trace: seq<Event>, id: Identity) {
    forall k :: 0 <= k < |trace| ==> !(trace[k].Sent? && trace[k].id == id)
  }
}
