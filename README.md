# PioText poll loop

PioText is a text-message question answering service. It polls an SMS gateway for new messages
("queries"), asks a pluggable message handler for a reply to each, sends that reply back to the
sender, logs the answered query and deletes it from the inbox. This project models the core of
the service, `src/source/core/PioText.java`:

- `isNotOld`, the thirty-minute freshness test;
- `processQuery`, which answers a fresh query and otherwise does nothing;
- the `run()` loop, one iteration at a time:
  - the in-memory set of processed queries;
  - the new-query counter and the summary line with its singular/plural word;
  - the `firstTime` flag;
  - the two `catch` blocks (a send or delete that throws, a fetch that throws).

The model has three levels:

- **PollSpec** (`poll_spec.dfy`): a value-level specification of one pass (`Scan`, `Pass`) and of
  any finite number of passes (`Run`). Calls on the handler, the gateway and the message log are
  recorded as a trace of `Event`s.
- **PollProperties** (`poll_properties.dfy`): properties proved about that specification.
  - The counter counts exactly the positions that were not yet processed.
  - The processed set gains exactly the stale or answered identities.
  - A failed send is retried on the next pass; a failed delete changes nothing.
  - A query is answered at most once per process, and a stale query is never sent to.
  - The summary is printed exactly on the first successful fetch, or when something new was counted.
- **Server** (`server.dfy`): the program's own imperative form.
  - Class `PioText` keeps `processed` and `firstTime` as fields. In the source they are local variables of `run()` (lines 136-138); as fields they persist from one iteration (`Iterate`) to the next, and the constructor stands for their initialisation.
  - `ProcessQuery` stamps the query objects it answers in place.
  - `HandleSnapshot` is the `for` loop. `Iterate` is one iteration of `while (true)`. `Serve` is
    finitely many iterations.
  - Each method is proved against the PollSpec function of the same step.

Queries (`queries.dfy`) gives a query its identity triple: phone number, time sent, body. The
processed set holds these identities. This assumes that `HashSet<Query>` compares queries by that
triple and not by the reply metadata that `processQuery` sets. `Query.java`, which defines the
comparison, is not part of this model.

The outside world is a parameter. For each snapshot position, an `Env` supplies:

- the clock reading used by `isNotOld`;
- whether `sendSms` returns normally;
- the time stamped by `new Date()`;
- whether `deleteSms` returns normally.

A `Fetch` says whether `getNewMessages` throws or returns a snapshot. The handler is a function
from identity to reply text.

Three behaviours of the code are easy to mistake; the model follows the code in each:

- A stale query is still added to `processed` and deleted from the inbox. `processQuery` returns
  normally for it (lines 122-131), so lines 148-149 run.
- The reply is sent as the handler returns it. `SMS_LENGTH` (line 46) is never used to truncate it.
- `messageLog.record` (line 127) is called before `processed.add` (line 148).

## Model

| member | source | states |
|---|---|---|
| PollProperties.HalfHourBoundary | src/source/core/PioText.java:92-96 | `isNotOld` with the half-hour constant: a query exactly thirty minutes old is not fresh, one a millisecond younger is |
| PollProperties.DisposeSkipsProcessed | src/source/core/PioText.java:144 | a position is skipped exactly when its identity is already processed, and otherwise handed to `processQuery` |
| PollProperties.QueryEventsOrder | src/source/core/PioText.java:122-127 | a stale query makes no call; otherwise the handler is asked, then its reply is sent to the sender, then, exactly when the send returned, the stamped query is logged |
| PollProperties.LoopEventsOrder | src/source/core/PioText.java:146-149 | a skipped position makes no call; otherwise the calls of `processQuery` come first, followed, exactly when it returned normally, by `processed.add` and then `deleteSms` |
| PollProperties.StepEffect | src/source/core/PioText.java:143-156 | one loop position: the counter goes up exactly when the identity was not processed; the identity becomes processed exactly when stale or answered; the outcome and calls are appended; a skipped position changes nothing else |
| PollSpec.Attempt | src/source/core/PioText.java:121-131 | `processQuery` on an unprocessed query: stale exactly when `now - timeSent >= HALF_HOUR`; a failed send exactly when fresh and `sendSms` throws; otherwise answered with the handler's reply, stamped with the `new Date()` reading; never skipped |
| PollSpec.Scan | src/source/core/PioText.java:142-156 | one outcome per snapshot position; the processed set only grows; the counter never exceeds the snapshot size |
| PollSpec.Summary | src/source/core/PioText.java:157-165 | a line is printed exactly when the counter is positive or it is the first time; it carries the counter; the word is "query." exactly when the counter is 1, and otherwise "queries." |
| PollSpec.Pass | src/source/core/PioText.java:140-169 | a failed fetch changes nothing, calls nothing and prints nothing; a successful fetch clears `firstTime`; on the first time it always prints; the processed set only grows |
| PollSpec.Run | src/source/core/PioText.java:139-179 | one summary slot per iteration; the processed set only grows |
| PollProperties.ScanOutcomeAt | src/source/core/PioText.java:143-156 | position `j` ends as the loop body decides from the processed set left by positions `0..j-1` |
| PollProperties.ScanTracePrefix | src/source/core/PioText.java:143-156 | the calls made for the first `i` positions of a snapshot are the start of the calls made for the whole snapshot |
| PollProperties.ScanTraceInOrder | src/source/core/PioText.java:143-156 | the calls for position `i` (as its outcome says) come right after those of the positions before it, and all of them before any later position's calls, so sends and deletes follow snapshot order |
| PollProperties.SkipExactlyProcessed | src/source/core/PioText.java:144-155 | a position already processed when reached is skipped and makes no call; any other is attempted |
| PollProperties.SendsOnlyFresh | src/source/core/PioText.java:122-124 | a position stale at its freshness check makes no handler call, no send and no log record |
| PollProperties.CountsUnskipped | src/source/core/PioText.java:143-145 | `newQueries` equals the number of positions not skipped |
| PollProperties.CountsNewPositions | src/source/core/PioText.java:142-145 | `newQueries` equals the number of positions whose identity was not processed when the loop reached them |
| PollProperties.ProcessedAfterScan | src/source/core/PioText.java:146-154 | after a pass, the processed set is the old set plus exactly the identities of stale or answered positions; a failed send adds nothing |
| PollProperties.DeleteFailureIrrelevant | src/source/core/PioText.java:148-154 | whether `deleteSms` throws changes neither the processed set, the counter nor any outcome |
| PollProperties.FailedSendRetried | src/source/core/PioText.java:146-154 | a query whose every sighting in a pass failed to send is counted and attempted afresh at its first sighting in the next pass |
| PollProperties.ScanSendsOnce | src/source/core/PioText.java:143-156 | within one pass, an identity is sent successfully at most once, and never if it was already processed; once sent it is processed |
| PollProperties.RunSendsOnce | src/source/core/PioText.java:139-179 | over any number of passes, an identity is sent successfully at most once, and never if it was processed at the start |
| PollProperties.AtMostOneReplyPerProcess | src/source/core/PioText.java:136-179 | from the initial state, any query is answered at most once however many polls see it |
| PollProperties.ScanRecordsAnswered | src/source/core/PioText.java:125-127 | an answered position leaves a log record of its query with the reply and response time it was stamped with |
| PollProperties.ScanRecordsEverySend | src/source/core/PioText.java:124-127 | within one pass, the log gets exactly as many records of a query as there were successful sends to it |
| PollProperties.RunRecordsEverySend | src/source/core/PioText.java:139-179 | the same over any number of passes |
| PollProperties.AtMostOneRecordPerProcess | src/source/core/PioText.java:136-179 | from the initial state, any query is written to the log at most once however many polls see it |
| PollProperties.ScanNeverSendsStale | src/source/core/PioText.java:121-131 | a query already stale at a time no later than every clock reading of the pass is never sent to |
| PollProperties.RunNeverSendsStale | src/source/core/PioText.java:139-179 | the same over any number of passes |
| PollProperties.RunFirstTime | src/source/core/PioText.java:138-165 | `firstTime` is still set after some passes exactly when it was set before them and every fetch in them failed |
| PollProperties.RunLineAt | src/source/core/PioText.java:139-169 | the line of pass `k` is what that pass prints from the state passes `0..k-1` left |
| PollProperties.RunLines | src/source/core/PioText.java:157-169 | a failed fetch prints nothing; otherwise pass `k` prints `Summary` of its count, where first time means that every earlier fetch failed |
| Server.ServeFromStart | src/source/core/PioText.java:133-179 | a new `PioText` serving any number of fetches ends in the state, calls and lines of `Run` from the initial state; no query is sent a reply more than once or written to the log more than once |
| Server.PioText.constructor | src/source/core/PioText.java:136-138 | starts with an empty processed set, `firstTime` set, and no calls made |
| Server.PioText.ProcessQuery | src/source/core/PioText.java:121-131 | returns normally unless the send throws. Makes exactly the calls of `Attempt`'s outcome, in order. Sets the query's response time and text only when it is answered and leaves them alone otherwise. Keeps the two fields both set or both unset |
| Server.PioText.Handle | src/source/core/PioText.java:146-154 | adds the identity to `processed` exactly when the query was stale or answered; makes the calls of the loop body; stamps the query as `Attempt` says |
| Server.PioText.Visit | src/source/core/PioText.java:143-156 | one position of the `for` loop keeps the loop's state equal to `Scan` of the positions seen so far |
| Server.PioText.HandleSnapshot | src/source/core/PioText.java:141-156 | the `for` loop leaves `processed`, the counter and the calls as `Scan` says. Every query object is stamped by its own outcome, and a skipped or unanswered one is left untouched. An object that changed holds exactly what a log record of it in the trace holds |
| Server.PioText.Iterate | src/source/core/PioText.java:140-169 | one iteration leaves the state and the calls, and prints the line, as `Pass` says; a failed fetch changes nothing; each query object is untouched or matches a log record |
| Server.PioText.ServeOne | src/source/core/PioText.java:139-169 | iteration `k` extends the state after `k` iterations to the state after `k + 1`, as `Run` says, and keeps every query object seen so far untouched or matching a log record |
| Server.PioText.Serve | src/source/core/PioText.java:139-179 | finitely many iterations leave the state and the calls, and print the lines, as `Run` says. Every query object of every fetch is either left as it was or holds both reply fields, equal to a log record of it; a consistent object stays consistent |

## Left out

- The gateway (`GvConnection`, `connect`) is left out. It is network I/O; each fetch, send and delete is an outcome supplied as a parameter.
- `main`, `load`, `promptLogin`, the constructor's property reading and the reflective loading of the handler are left out. They are start-up I/O.
- The `Thread.sleep(CHECK_FREQ)` between passes and its interrupt path are left out, because time passing is modelled only through the clock readings in `Env`. `CHECK_FREQ` is kept as a constant.
- The loop `while (true)` does not terminate. It is modelled as any finite number of iterations (`Run`, `Serve`).
- The timestamp printed before the summary (`SYSOUT_FORMAT`, `printf` padding) is left out. The model gives only the count and the word of the line.
- The `verbose` gating of output is left out. The line is returned whether or not it would be printed.
- The startup banner is left out.
- The `printStackTrace` diagnostics are left out: for a send or delete that throws (line 153) and for a fetch that throws (line 168). The model emits nothing on those paths beyond the outcome it records.
- A `messageLog.record` that fails is not modelled. Log I/O is assumed to succeed.
- A handler that throws a runtime exception is not modelled. The handler is a total function.
- A send that fails is recorded as an attempted send (`Sent(..., false)`), because whether the message was partly delivered cannot be observed.
- Java `long` and `int` overflow are not modelled (for the time difference in `isNotOld` and for the `newQueries` counter); integers are unbounded.
- Server.PioText.HandleSnapshot: requires each snapshot to hold distinct query objects, and so do `Server.PioText.Iterate`, `Server.PioText.ServeOne` and `Server.PioText.Serve` through `Acceptable`. This assumes that the gateway's parser (called by `getNewMessages`, not part of this model) builds a fresh object for every entry; aliasing within one snapshot is not modelled.
- The clock readings in `Env` are not related to one another or to `timeSent`. So it is not modelled that a response time is no earlier than the time sent, or that log records come in increasing response time; the source relies on the wall clock (line 125) and on the gateway's sending times for both.
- `Query.java` and the message log's storage format are not part of this model.
