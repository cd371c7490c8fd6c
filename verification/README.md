# A verified model of Cavalieri's core

Cavalieri receives events, pushes them through streams of stateful operators that are loaded
from rule libraries, keeps the latest events in an index that can be queried, and schedules
timers for all of this. This project models the parts of it where correctness is not plain
from reading one function, and proves what each part promises over every input, every history
or every interleaving.

| files | part of the system | what is proved |
|---|---|---|
| `QueryGrammar`, `QueryTables`, `QueryAutomaton`, `QueryMachine`, `QuerySoundness`, `QueryCompleteness`, `QueryParser`, `QueryPrinting`, `QueryEvaluation` | the table-driven query parser, and what queries mean | the 35-state automaton accepts exactly the language of its grammar, halts on every input, and returns the meaning of the one left-associative derivation; printing and parsing is a round trip; when a query matches what is written |
| `Unload`, `NamespaceRemoval` | unloading a rule library while threads push events | over every interleaving, no thread is in a library that is unmapped; the removal of timers is reported only when every loop has done it |
| `TimeQueue`, `MovingWindow`, `FixedWindow`, `Hysteresis`, `Keyed`, `Coalesce` | the stateful stream operators | each operator, run over any history, agrees with a definition over the whole history |
| `Streams` | stream composition | pushing through `a >> b` is pushing through `a` and then `b` |
| `ShardedIndex` | the index | the shards are one last-write-wins map under any interleaving of adds and sweeps |
| `MockScheduler`, `TimerQueue` | the two schedulers | exact firing counts and times; no early run, no run after removal |
| `Framing` | length-prefixed messages over TCP | the messages do not depend on how the bytes were cut into chunks |
| `WebSocket` | frames of section 5.2 of RFC 6455 | decoding inverts masking in all length forms; when building frames is inverted by reading them |
| `Options`, `Arithmetic`, `Bytes`, `Events` | shared definitions | |

Objects that the system updates in place are classes, with a ghost field for the history they
have seen; loops are loops with invariants. Protocols between threads are step systems with
one label per atomic operation, and a sequence of labels is an interleaving.

Where the code does not do what its design suggests, the code is what is modelled, and a lemma
says exactly when the two agree:

- `or`, `and` and `not` are declared on one precedence level, so `a or b and c` means
  `(a or b) and c`. A formula without brackets is read in the usual way exactly when no `and`
  comes after an `or` (`QueryPrinting.PrecedenceExactly`); and when its operands are different,
  this is also exactly when it matches the same events (`QueryPrinting.MeaningExactly`).
- A comparison in a query does what is written, on all events and on those that have the field,
  exactly when it is not one of a few kinds: with an empty text; of a custom field with a text by
  another operator than `=`, or with an integer; of a field with a place of its own with a literal
  of the other kind, and of `time` with `nil` and `time` or `ttl` with a fraction, for which a
  custom field is looked for instead; and, where the field may be missing, of a text with a
  pattern, or of a number that zero would satisfy, save a metric with an integer
  (`QueryEvaluation.LeafExactly`; a number with a pattern is false on both sides).
- A library's timers are removed through a promise that is set twice, which is an error,
  exactly when two or more loops' queues are full (`NamespaceRemoval.SetTwiceIffTwoFull`, with
  such a run in `NamespaceRemoval.TwoFullQueues`).
- A fixed time window takes the next aligned interval exactly when its start is not negative or
  is aligned; so only the first interval of a history can be longer, and only if the first
  event's time is negative (`FixedWindow.NextIntervalIsNext`).
- A stream with no nodes swallows every event, so composition is what it should be for all
  streams of two lengths exactly when both are empty or neither is (`Streams.ComposesExactly`).
- An event in the index with a time to live that is negative and not whole expires late
  (`ShardedIndex.ExpiredExactly`).
- The key that `by` gives to several values tells them apart from all others exactly when none
  of them holds a space (`Keyed.KeysTellApart`); the keys of `coalesce` and of the index are alike,
  with a space and a hyphen (`Arithmetic.PairTellsApart`).
- A connection made with a buffer size of its own keeps the default limit on frames, and then
  can stall for good exactly when its buffer is smaller than a frame that is let in
  (`Framing.Connection.ReadCb`, `Framing.Stalls`).
- An empty message ends the reading of a chunk early: after a callback that leaves the connection
  open, all complete messages have been delivered exactly when no complete frame waits in the
  buffer (`Framing.Connection.InOrder`, with such a chunk in `Framing.EmptyMessageEndsLoop`).
- The frame decoder does what RFC 6455 asks exactly when the bytes break none of its rules for
  the header of a frame from a client (sections 5.1, 5.2, 5.5 and 5.5.1), since it never reports
  that they do: it takes an unmasked frame for a masked one, and a frame that announces a length
  close to 2^64 for a complete one (`WebSocket.DecodeFrame`, `WebSocket.UnmaskedIsMisread`).
- The frame builder writes a length that a client can read exactly for payloads up to 65535
  bytes (`WebSocket.CreatedFrameParses`).
- The loop of the replay scheduler ends exactly when every task due by the target time settles:
  with a clock not past that time, when none of them has a negative period; with a later clock,
  when none of their periods leads back to that time (`MockScheduler.LoopEnds`,
  `MockScheduler.SettlesWhen`).

Removing a timer always answers that nothing was removed; the model does too, and its claims are
about the queue (`TimerQueue.Loop.RemoveTask`).

## Model

| member | source | states |
|---|---|---|
| `QueryAutomaton.DecodeAction` | src/query/parser.cpp:520-578 | in every state and for every lookahead, what the packed tables lead the driver to do is the named shift, reduction or error of a readable automaton |
| `QueryAutomaton.DecodeGoto` | src/query/parser.cpp:441-448 | the packed goto tables give the readable goto function, for every state and nonterminal |
| `QueryAutomaton.DecodeRule` | src/query/parser.cpp:1099-1112 | the left-hand sides and lengths in the tables are those of the grammar's productions |
| `QueryGrammar.TokenNumbers` | src/query/parser.cpp:1166-1213 | each symbol has one token number, save the end of input and the undefined symbol |
| `QueryGrammar.LeftAssociate` | src/query/parser.yy:70-178 | the grammar is ambiguous, but every derivation has a left-associative one with the same root and yield |
| `QueryMachine.Below` | src/query/parser.cpp:583-800 | under any reachable state the stack holds what the right-hand side of a reduction there needs |
| `QueryMachine.HandleArgs` | src/query/parser.cpp:583-785 | every reduction finds the right-hand side of its rule on the stack, with semantic values of the kinds its action reads |
| `QueryMachine.ShiftStep` | src/query/parser.cpp:559-569 | a shift keeps the stack a path of the automaton and never reads past the end of input |
| `QueryMachine.ReduceStep` | src/query/parser.cpp:583-800 | a reduction keeps the stack a path of the automaton, and lowers the weight that makes the driver halt |
| `QuerySoundness.Sound` | src/query/parser.cpp:510-800 | every accepting run exhibits a left-associative derivation of the tokens read, and returns its meaning |
| `QueryCompleteness.ReadExpr` | src/query/parser.cpp:510-800 | from any state that wants an operand the automaton reads the yield of any left-associative expression that may stand there and goes on with its meaning on the stack |
| `QueryCompleteness.ReadAll` | src/query/parser.yy:87-178 | the query that matches everything, with brackets or without, is read from the empty stack |
| `QueryParser.Complete` | src/query/parser.cpp:510-900 | any left-associative derivation that reads the tokens up to their end is found by the automaton, and its meaning returned |
| `QueryParser.ParserCorrect` | src/query/parser.cpp:510-900 | a token sequence is accepted if and only if the grammar derives it up to its end, and the result is the meaning of its left-associative derivation |
| `QueryParser.OneDerivation` | src/query/parser.yy:70-178 | no token sequence has two left-associative derivations, so the meaning is that of the only one |
| `QueryParser.Recover` | src/query/parser.cpp:853-890 | error recovery empties the stack and always abandons the parse, since no state can shift the error token |
| `QueryParser.NoErrorShift` | src/query/parser.cpp:853-890 | no state has a shift on the error token |
| `QueryParser.Backup` | src/query/parser.cpp:520-578 | the decision in a state is the automaton's, with a lookahead read only when needed |
| `QueryParser.ReduceBy` | src/query/parser.cpp:583-800 | running the action, popping and taking the goto is one reduction of the automaton |
| `QueryParser.Parse` | src/query/parser.cpp:462-916 | the driver loop halts on every token sequence, never pops past the bottom of its stack, and returns the outcome of the automaton's run |
| `QueryParser.ParseQuery` | src/query/driver.cpp:17-28 | a caller gets success exactly on the sentences of the grammar, and then the meaning of their left-associative derivation |
| `QueryPrinting.PrintThenParse` | src/query/parser.yy:87-178 | every query, printed with brackets only around a binary right operand and a binary operand of `not`, is accepted and parsed to exactly itself |
| `QueryPrinting.ActionParses` | src/query/parser.yy:122-148 | every way to write a tag or a comparison parses to what its tokens spell out, in particular `tagged = "x"` to the tag |
| `QueryPrinting.PrecedenceExactly` | src/query/parser.yy:70-70 | a chain of operands without brackets is read from the left, and this is the usual reading if and only if no `and` comes after an `or` |
| `QueryPrinting.MeaningExactly` | src/query/parser.yy:70-70 | for a chain of different tags and field comparisons, the reading from the left matches the same events as the usual one if and only if no `and` comes after an `or` |
| `QueryEvaluation.ActionMeans` | src/query/parser.cpp:675-735 | the semantic actions of tags and comparisons build what the tokens of any derivation of them spell out |
| `QueryEvaluation.EvaluateIsTruth` | src/query/expression.cpp:262-303 | the connectives of the query built from a derivation give the truth value of the formula as it is written, whatever the comparisons mean |
| `QueryEvaluation.LeafExactly` | src/query/expression.cpp:21-253 | a tag or field comparison matches the events for which it holds as it is written, among all events and among those that have the field, if and only if it is none of the kinds that the implementation treats otherwise |
| `QueryEvaluation.NilExcludes` | src/query/expression.cpp:105-109 | as they are written, a comparison of a field with `nil` and another comparison of it never hold of one event |
| `QueryEvaluation.TextDiffers` | src/query/expression.cpp:131-172 | an event that has the field and for which a comparison with a text goes wrong, for every such comparison |
| `QueryEvaluation.IntegerDiffers` | src/query/expression.cpp:174-223 | the same for a comparison with an integer |
| `QueryEvaluation.FractionDiffers` | src/query/expression.cpp:225-253 | the same for a comparison with a fraction |
| `QueryEvaluation.MissingDiffers` | src/query/expression.cpp:131-253 | the event with no fields, for every comparison that only goes wrong when its field is missing |
| `QueryEvaluation.ReadsAlikeHolds` | src/query/expression.cpp:205-220 | an integer comparison of a custom field does what is written of an event whose field reads as the same number either way |
| `QueryEvaluation.QueryMeans` | src/query/expression.cpp:21-303 | a query all of whose comparisons do what is written of an event matches it exactly when the formula, as it is written, is true of it |
| `Unload.StepKeepsInv` | src/streams/lib.cpp:29-68 | every atomic operation keeps the counter equal to twice the number of threads in the library plus the used bit |
| `Unload.UnloadSafe` | src/rules_loader.cpp:93-146 | over all interleavings, a thread in the library has its code mapped |
| `Unload.EmptyUntilReuse` | src/rules_loader.cpp:93-146 | after the wait no thread is in the library, and none enters until the used bit is set again |
| `Unload.DrainsWhileClosing` | src/streams/stream_functions.cpp:783-800 | while the loader waits, the threads in the library are among those that were there |
| `Unload.WaitEndsIffEmpty` | src/rules_loader.cpp:97-100 | the wait can end if and only if no thread is in the library |
| `Unload.Enters` | src/streams/lib.cpp:33-49 | while the library serves, a thread that is not held up gets in, and only the counter and that thread change |
| `Unload.Leaves` | src/streams/lib.cpp:51-60 | a thread that is not held up gets out again, whatever the loader does |
| `Unload.TurnedAway` | src/streams/lib.cpp:33-49 | only a thread that has seen the used bit clear is turned away; one that has seen the counter change tries again |
| `Unload.LeavesLater` | src/streams/lib.cpp:51-60 | a thread that has seen the counter change while leaving tries again |
| `Unload.Unloads` | src/rules_loader.cpp:93-125 | the loader takes an empty library through its steps to a vacant slot, and it is unmapped exactly if timers could be removed and the code closed |
| `Unload.Loads` | src/rules_loader.cpp:127-146 | loading maps the code and lets threads in |
| `Unload.InitialInv` | src/rules_loader.cpp:127-146 | a vacant slot with no thread in it satisfies the invariant |
| `NamespaceRemoval.RunKeepsInv` | src/scheduler/real_scheduler.cpp:142-164 | over all interleavings, the counter is the number of loops that have not counted down, and the promise was set once per full queue and once by the last loop |
| `NamespaceRemoval.TrueMeansAllDropped` | src/scheduler/real_scheduler.cpp:76-98 | the promise is true only when every loop has dropped its timers, and then it was set exactly once |
| `NamespaceRemoval.AllDoneMeansTrue` | src/scheduler/real_scheduler.cpp:142-164 | when every loop is done, the promise is true |
| `NamespaceRemoval.SetTwiceIffTwoFull` | src/scheduler/real_scheduler.cpp:82-95 | the promise is set at most once if and only if at most one queue was full |
| `NamespaceRemoval.TwoFullQueues` | src/scheduler/real_scheduler.cpp:82-95 | a run in which the promise is set twice |
| `NamespaceRemoval.OthersKept` | src/async/real_async_loop.cpp:309-320 | a timer of another library is in a loop if and only if it would be there without the request, while timers are added, run out and are removed one by one |
| `NamespaceRemoval.DropsExactly` | src/async/real_async_loop.cpp:309-320 | a request takes exactly the timers of its library out of one loop |
| `NamespaceRemoval.TimersChange` | src/async/real_async_loop.cpp:164-181 | timers are added and end one at a time, in one loop |
| `NamespaceRemoval.CallerAsks` | src/scheduler/real_scheduler.cpp:82-95 | the caller reaches each loop in turn, and a full queue sets the promise to false |
| `NamespaceRemoval.LoopAnswers` | src/scheduler/real_scheduler.cpp:147-162 | a loop with the request can always go on to drop its timers and count down, and the last one to make the promise true |
| `NamespaceRemoval.TrueMeansNoneLeft` | src/scheduler/real_scheduler.cpp:142-164 | if none is added meanwhile, a true promise means that no loop holds a timer of the library |
| `TimeQueue.PopBefore` | src/streams/stream_functions_lock.cpp:475-480 | popping while the top is before a bound takes out exactly the events before it, sorted, and loses none |
| `TimeQueue.Drain` | src/streams/stream_functions_lock.cpp:409-414 | emptying a copy of the queue lists its events by time, each as often as it was queued |
| `MovingWindow.MovingTimeWindow.OnEvent` | src/streams/stream_functions_lock.cpp:375-418 | after every event, late ones included, the list handed to the fold is the time-sorted multiset of the events of the whole history that are in the window |
| `MovingWindow.MovingTimeWindow.Expire` | src/streams/stream_functions_lock.cpp:398-402 | popping the queue until its top is young enough leaves exactly the window |
| `MovingWindow.WindowOfNatural` | src/streams/stream_functions_lock.cpp:392-404 | for an event time that is not negative, being in the window is being later than `dt` before the latest |
| `MovingWindow.LatestBounds` | src/streams/stream_functions_lock.cpp:386-388 | the latest time bounds the history and is reached in it, unless it is the initial zero |
| `FixedWindow.FixedTimeWindow.OnEvent` | src/streams/stream_functions_lock.cpp:437-490 | for any times, negative ones included: which events are accepted, when the window being filled is flushed and what is handed on; accepted events are in a flush or queued, flushes are consecutive aligned intervals, and the latest time that decides about a flush is that of the accepted events |
| `FixedWindow.FixedTimeWindow.Take` | src/streams/stream_functions_lock.cpp:462-468 | an event that is not too old is queued and the latest time follows |
| `FixedWindow.FixedTimeWindow.FlushWindow` | src/streams/stream_functions_lock.cpp:474-482 | a flush takes what is before the next interval from the queue, and that interval is the next to fill |
| `FixedWindow.EachProper` | src/streams/stream_functions_lock.cpp:466-482 | every flush is sorted and within its aligned interval; the first starts with that of the first event, and each later one follows and is `dt` long |
| `FixedWindow.FlushIsInterval` | src/streams/stream_functions_lock.cpp:466-482 | over any arrival order each flush is exactly the accepted events of its interval, as often as they were accepted, and none of them is queued |
| `FixedWindow.FlatSorted` | src/streams/stream_functions_lock.cpp:474-482 | the concatenation of all flushes is sorted by time |
| `FixedWindow.BeforeEnd` | src/streams/stream_functions_lock.cpp:474-482 | flushed intervals strictly increase, and nothing flushed is after the end of the last |
| `FixedWindow.NextIntervalIsNext` | src/streams/stream_functions_lock.cpp:466-466 | the remainder gives the next aligned interval if and only if the start is not negative or is aligned, and skips one otherwise |
| `Hysteresis.BlockIsLongest` | src/rules/common.cpp:142-171 | the reference's block is the longest run at the end of the history that satisfies the predicate |
| `Hysteresis.AlarmIsReference` | src/rules/common.cpp:142-171 | over every history the flag is raised only by a block of triggering events that lasted `dt`, and cleared only by such a block of cancelling, not triggering ones |
| `Hysteresis.Stable.OnEvent` | src/streams/stream_functions_lock.cpp:506-546 | what `stable` passes on; within a run of one state, passed on and held back are together the run's events that are not older than its start, in order |
| `Hysteresis.StableMetric.OnEvent` | src/rules/common.cpp:153-167 | the events passed on carry the state of the alarm, and the flag is that of the reference after every event |
| `Hysteresis.StableMetric.SetState` | src/rules/common.cpp:13-23 | the flag follows the last event passed on |
| `Streams.Stream.PushEvent` | src/streams/stream_infra.cpp:79-110 | pushing an event node by node, with the early return, gives the final states and outputs of feeding the nodes one after the other |
| `Streams.RunNodeOne` | src/streams/stream_infra.cpp:85-101 | one event through a node is what the node does with it |
| `Streams.RunNodeConcat` | src/streams/stream_infra.cpp:94-99 | the outputs for events one after the other are concatenated, with the state carried on |
| `Streams.PushAllIsFeed` | src/streams/stream_infra.cpp:79-110 | pushing events one at a time is running the whole sequence through the first node, then all of its outputs through the second, and so on |
| `Streams.Compose` | src/streams/stream_infra.cpp:75-77 | for non-empty streams, `a >> b` gives the outputs and final states of `a` followed by `b` on all of `a`'s outputs |
| `Streams.ComposesExactly` | src/streams/stream_infra.cpp:75-110 | the law of composition holds for all streams of two lengths if and only if both are empty or neither is |
| `Streams.SwallowsOne` | src/streams/stream_infra.cpp:79-110 | with one side empty, streams that pass everything on break the law |
| `Streams.InitStreams` | src/streams/stream_infra.cpp:63-73 | the loop from the last node to the first initialises every node with its initialised rest |
| `Streams.ForwardIsSuffix` | src/streams/stream_infra.cpp:19-39 | node `i` forwards to exactly the nodes after it, and initialising a copy of them again changes nothing |
| `Keyed.By.OnEvent` | src/streams/stream_functions_lock.cpp:20-47 | for every key, the state and the outputs are those of a fresh copy of the stream that was given exactly the events with that key |
| `Keyed.KeysCollide` | src/streams/stream_functions_lock.cpp:27-30 | two different pairs of values have the same key |
| `Keyed.KeysTellApart` | src/streams/stream_functions_lock.cpp:27-30 | no other values have the key of given ones if and only if none of these holds a space, or there is only one |
| `Keyed.SpaceCollides` | src/streams/stream_functions_lock.cpp:27-30 | whenever one of several values holds a space, there are other values with the same key |
| `Keyed.JoinFields` | src/streams/stream_functions_lock.cpp:27-30 | the loop over the key fields makes the key |
| `Keyed.ChangedStateRun` | src/streams/stream_functions_lock.cpp:254-272 | over any events, `changed_state_` passes on exactly those whose state is not that of the event before |
| `Keyed.KeyedChangesAlternate` | src/streams/stream_functions.cpp:348-352 | for every key of `changed_state`, no two consecutive outputs share a state, and the first differs from the initial one |
| `Keyed.ServiceChanges` | src/streams/stream_functions.cpp:348-352 | for a host and a service without spaces, `changed_state` passes on exactly the changes of state of that service on that host |
| `Coalesce.CoalesceEvents.OnEvent` | src/streams/stream_functions_lock.cpp:118-159 | with a clock that does not go back and is read anew for every stored event, the map is precisely the latest event of each key that has not expired, and the two lists for the fold are these and the newly expired ones |
| `Coalesce.Sweep` | src/streams/stream_functions_lock.cpp:130-143 | one pass lists every stored event once, as expired or live, and keeps the live ones |
| `Coalesce.ExpiredStays` | src/predicates/predicates.cpp:108-120 | what has expired stays expired as the clock advances |
| `Coalesce.ExpiresAt` | src/predicates/predicates.cpp:108-120 | an event expires with the first whole second after its time to live, or after sixty seconds, and not before its time |
| `Coalesce.KeysTellApart` | src/streams/stream_functions_lock.cpp:124-124 | for names without spaces, events share a key exactly if they share host and service |
| `Arithmetic.PairTellsApart` | src/streams/stream_functions_lock.cpp:124-124 | two names are told apart from all others by the pair of them if and only if neither holds the separator |
| `Coalesce.ReportedOnce` | src/streams/stream_functions_lock.cpp:130-143 | no event is handed to the fold as expired twice |
| `Coalesce.ReportedByThen` | src/streams/stream_functions_lock.cpp:130-143 | an event that expires while it is the latest of its key is handed to the fold as expired |
| `ShardedIndex.RealIndex.AddEvent` | src/index/real_index.cpp:51-65 | adding under the lock of one shard keeps the shards together equal to one map of all operations so far, and leaves the event to be published |
| `ShardedIndex.RealIndex.PublishAdded` | src/index/real_index.cpp:64-64 | every added event is published once: those published and those about to be are all that were added |
| `ShardedIndex.RealIndex.TimerCb` | src/index/real_index.cpp:67-79 | a sweeper is spawned only when none is at work |
| `ShardedIndex.RealIndex.SweepShard` | src/index/real_index.cpp:91-112 | sweeping a shard removes exactly its expired events, each once, and keeps the shards equal to the one map |
| `ShardedIndex.RealIndex.EndSweep` | src/index/real_index.cpp:114-115 | the gauges are what was counted and what is left of it, and do not go below zero, whatever was added meanwhile |
| `ShardedIndex.RealIndex.PublishNext` | src/index/real_index.cpp:120-128 | removed events are published as expired in order; published and pending are always all that was ever removed |
| `ShardedIndex.SweepMap` | src/index/real_index.cpp:97-110 | one pass over a shard keeps what has not expired and lists the rest, each once |
| `ShardedIndex.LastWriteWins` | src/index/real_index.cpp:51-112 | the one map holds a key exactly when some add of it is followed by no other add and by no sweep that finds it expired, and then that add's event |
| `ShardedIndex.ExpiredExactly` | src/index/real_index.cpp:101-102 | an event in the index expires when more than its time to live has passed, at every moment, if and only if that is not negative or is whole |
| `ShardedIndex.KeysTellApart` | src/index/real_index.cpp:19-21 | for names without hyphens, events share a key exactly if they share host and service |
| `ShardedIndex.QueryIndex` | src/index/real_index.cpp:132-167 | distinct matching events, at most `max` unless it is zero, and all of them when there are fewer |
| `MockScheduler.Scheduler.SetTime` | src/scheduler/mock_scheduler.cpp:34-56 | with callbacks that add finitely many tasks the loop ends whenever it can; the clock never goes back; afterwards nothing due by the new time is queued, every run was at its due time and in order |
| `MockScheduler.Scheduler.Turn` | src/scheduler/mock_scheduler.cpp:35-48 | one turn of the loop, in which the callback may add any tasks, keeps all counts and times exact, runs a task that is due first, and ends the loop only when nothing due is left |
| `MockScheduler.Scheduler.RunTask` | src/scheduler/mock_scheduler.cpp:40-47 | running the first task due moves the clock to its due time, takes it out, and queues it again after its period |
| `MockScheduler.Scheduler.PeriodicRuns` | src/scheduler/mock_scheduler.cpp:10-56 | at any moment a periodic task has run exactly as often as whole periods have passed since it was added |
| `MockScheduler.Scheduler.RunsOnce` | src/scheduler/mock_scheduler.cpp:20-25 | a task with no period has run once if it is no longer queued, and not at all before |
| `MockScheduler.Scheduler.AddPeriodicTask` | src/scheduler/mock_scheduler.cpp:10-18 | a task is queued for one period from now, forward or back; a period of less than a second becomes none |
| `MockScheduler.Scheduler.AddOnceTask` | src/scheduler/mock_scheduler.cpp:20-25 | a task is queued to run once |
| `Arithmetic.Truncate` | src/scheduler/mock_scheduler.cpp:13-13 | a fraction of a second is cut off towards zero |
| `MockScheduler.Scheduler.AddAll` | src/scheduler/mock_scheduler.cpp:44-44 | what a callback asks for is what is added |
| `MockScheduler.RunGoesOn` | src/scheduler/mock_scheduler.cpp:34-50 | every run lowers the sum of the times by which tasks are behind, if the tasks that are due settle, and then they still do |
| `MockScheduler.LoopEnds` | src/scheduler/mock_scheduler.cpp:34-50 | for any queue, clock and target time, the loop ends if and only if all tasks that are due settle; then the number of turns is bounded, and otherwise something due is left after any number of turns |
| `MockScheduler.SettlesWhen` | src/scheduler/mock_scheduler.cpp:45-47 | to settle is to have no negative period, with a clock not past the target, and no period that leads back to the target, with a later one |
| `MockScheduler.UnsettlingRequest` | src/scheduler/mock_scheduler.cpp:10-18 | a request that does not settle leaves a queue from which the loop does not end |
| `MockScheduler.NeverEnds` | src/scheduler/mock_scheduler.cpp:34-50 | a task with a negative period for which the loop never ends |
| `TimerQueue.Remove` | src/async/real_async_loop.cpp:273-298 | rebuilding the queue keeps exactly the tasks not chosen, leaves the top in place unless it goes, and always answers false |
| `TimerQueue.Loop.AddTask` | src/async/real_async_loop.cpp:164-181 | a task is queued for its delay from now, and the wake-up is set no later than the first task is due |
| `TimerQueue.Loop.SchedNextTask` | src/async/real_async_loop.cpp:183-209 | the wake-up is set for the first due time, or for now if that has passed |
| `TimerQueue.Loop.RemoveTask` | src/async/real_async_loop.cpp:273-307 | exactly the chosen tasks are removed, and the wake-up stays early enough |
| `TimerQueue.Loop.RunTop` | src/async/real_async_loop.cpp:215-240 | the top task runs if and only if it is due; afterwards it is queued if and only if it is periodic and its callback did not remove it; all other tasks stay unless removed; the queue is exactly that after the callback's operations, with the task taken out or put back |
| `TimerQueue.Loop.RunCallback` | src/async/real_async_loop.cpp:223-223 | the queue after a callback is that after its operations, one by one |
| `TimerQueue.Loop.RunOp` | src/async/real_async_loop.cpp:300-320 | adding queues one task, removing by number takes that one, removing by library exactly those of the library |
| `TimerQueue.NoneLost` | src/async/real_async_loop.cpp:211-244 | a task that is not queued was removed, or was to run once and has run |
| `TimerQueue.StillOnTop` | src/async/real_async_loop.cpp:225-232 | after a callback that adds and removes any tasks, comparing the top's number tells whether the task is still queued |
| `TimerQueue.NeverEarly` | src/async/real_async_loop.cpp:211-244 | in every history no run is before its delay is over |
| `TimerQueue.RunsApart` | src/async/real_async_loop.cpp:211-244 | a task that runs twice is periodic, so one-shots run at most once, and its runs are at least its interval apart |
| `TimerQueue.RemovedNeverRuns` | src/async/real_async_loop.cpp:300-307 | a removed task never runs again |
| `Framing.ParseEncoded` | src/riemann_tcp_connection.cpp:118-166 | the reference parse of encoded messages gives them back, whatever follows |
| `Framing.NetworkOrder` | src/riemann_tcp_connection.cpp:35-47 | the first byte of a header has the most weight |
| `Framing.FitsExactly` | src/riemann_tcp_connection.cpp:128-132 | the largest message that is let in has 1572860 bytes |
| `Framing.FramedIsParse` | src/riemann_tcp_connection.cpp:78-104 | messages whose frames start the received bytes are the first of the reference parse, and all of it if and only if the rest holds no complete frame |
| `Framing.Connection.InOrder` | src/riemann_tcp_connection.cpp:78-104 | however the bytes were cut, the messages delivered while open are a prefix of the reference parse, all of it before an oversized header, and all of it after a callback if and only if no complete frame waits in the buffer, which can only be after an empty message |
| `Framing.Connection.Read` | src/transport/tcp_connection.cpp:91-104 | bytes are added to the buffer unless it is full, and the connection closes when the peer is gone |
| `Framing.Connection.ReadHeader` | src/riemann_tcp_connection.cpp:118-135 | a complete header is consumed, and the connection closes exactly because of a frame over the limit |
| `Framing.Connection.ReadMessage` | src/riemann_tcp_connection.cpp:137-166 | a complete message is delivered and acknowledged together, or the connection closes because an acknowledgement has no room |
| `Framing.Connection.ReadCb` | src/riemann_tcp_connection.cpp:78-104 | consumed and buffered bytes are the bytes received; acknowledgements written and buffered are one per message; no message but the last of a callback is empty; the buffer has room to read on if it can hold every message that is let in |
| `Framing.Connection.WriteCb` | src/transport/tcp_connection.cpp:120-132 | what the socket takes leaves the write buffer, in order |
| `Framing.Stalls` | src/transport/tcp_connection.cpp:80-87 | with any smaller buffer there are bytes after which the connection is open, full and without a message |
| `Framing.EmptyMessageEndsLoop` | src/riemann_tcp_connection.cpp:88-102 | a chunk after which a complete frame waits in the buffer: an empty message, and another one |
| `Bytes.XorTwice` | src/transport/ws_util.cpp:247-249 | the exclusive or with a mask undoes itself |
| `Bytes.XorBits` | src/transport/ws_util.cpp:247-249 | each bit of the exclusive or is set exactly when the two bits differ |
| `Bytes.NumberFirst` | src/transport/ws_util.cpp:206-226 | the first byte of a length has the most weight |
| `WebSocket.DecodeFrame` | src/transport/ws_util.cpp:163-252 | the decoder does what sections 5.1, 5.2, 5.5 and 5.5.1 of RFC 6455 ask if and only if the bytes that have come break none of their rules for the header of a frame from a client; it reads a frame by its layout if and only if the length does not wrap in 64 bits, and never reports a malformed one |
| `WebSocket.UnmaskedIsMisread` | src/transport/ws_util.cpp:171-249 | an unmasked frame, which a server has to refuse, is taken for a complete frame with another payload |
| `WebSocket.FirstBytes` | src/transport/ws_util.cpp:163-252 | the first bytes that RFC 6455 allows |
| `WebSocket.LengthRules` | src/transport/ws_util.cpp:171-226 | the rules for lengths ask for the shortest form, a clear top bit, short control frames, and no close frame with one byte |
| `WebSocket.Unmask` | src/transport/ws_util.cpp:246-249 | the loop takes the mask off the payload |
| `WebSocket.ClientFrameDecodes` | src/transport/ws_util.cpp:163-252 | a masked frame in any of the three length forms decodes to its payload, whatever follows; it breaks a rule if and only if its first byte or its choice of form does |
| `WebSocket.PrefixIsPending` | src/transport/ws_util.cpp:192-244 | every strict prefix of a frame is pending, and not malformed if the frame breaks no rule |
| `WebSocket.CreateFrame` | src/transport/ws_util.cpp:122-161 | the header that is filled in byte by byte, with its 16-bit swap, followed by the payload |
| `WebSocket.CreatedFrameParses` | src/transport/ws_util.cpp:122-161 | the frame reads back as its payload if and only if that has at most 65535 bytes |
| `WebSocket.MaskedIsRefused` | src/transport/ws_util.cpp:122-161 | the reader that a client is taken to be refuses a masked frame |

## Left out

- The query scanner, source locations and debug output: parsing starts from tokens.
- Pattern matching and reading numbers from texts, which are parameters of a query's meaning; a number that is out of range raises an error that is not caught.
- Finding free slots for rule libraries and watching their files: only the protocol of one slot is modelled.
- Destruction of the old stream objects of a library, and stream code that throws.
- Tasks that wait in a scheduler loop's inbox while timers are removed: the two phases of the loop's callback are not ordered with the removal.
- Memory reclamation and orders weaker than sequential consistency: every atomic operation is one step.
- Unload.StepKeepsInv: assumes fewer than 2^31 - 1 threads, since the counter has 32 bits.
- Hysteresis.StableMetric.OnEvent: the time span is a whole number of seconds, as `stable` uses it.
- What the folds make of the lists handed to them.
- ShardedIndex.QueryIndex: takes each shard as it was under its lock; shards read at different moments may be of different states of the index.
- The index's wait for its sweeper at shutdown.
- MockScheduler.Scheduler.SetTime: callbacks add finitely many tasks and do not set the time; its preconditions on the queue and on what callbacks add are that the tasks settle, without which the loop does not end.
- Resetting the replay scheduler, which puts its clock back to zero.
- TimerQueue.Loop.RunTop: is one turn of the loop; how many turns there are depends on the callbacks. Delays are whole milliseconds, and a new task takes the top of the queue only if it is due strictly earlier.
- Framing.Connection.ReadCb: after the connection is closed within a callback, the remaining turns of its loop are modelled but nothing is claimed about the messages they deliver.
- The content of the acknowledgement, and Protobuf and JSON.
- WebSocket.CreateFrame: the long form is that of a machine with the low byte first in memory.
- The HTTP handshake of a WebSocket, putting fragmented messages together, and the rules of RFC 6455 about what payloads hold.
- `throttle`, `project`, `rate`, `ddt`, percentiles and event windows, and filters and setters that one branch settles: operators beside those modelled here.
- Sockets, the event loop library, dynamic loading, mail, PagerDuty and Graphite clients: foreign calls.
