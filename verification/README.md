# A verified model of the buffer scheduler, the simulation kernel and the coroutine life cycle

This project models three parts of the agent library in Dafny and proves properties of them for all
inputs, all runs or all interleavings. `dafny verify dfyconfig.toml` checks everything.

**The buffer scheduler** (`iams/utils/scheduler.py` on top of `iams/interfaces/scheduler.py`) compiles a
list of events, each in a state of its life cycle, into an integer constraint model of an input buffer,
one machine and an output buffer, hands it to a solver, and writes an optimal solution back into the
events. The modules, from the bottom up:

| file | content |
|---|---|
| `Cumulative.dfy` | the cumulative constraint: at no instant more intervals than the capacity |
| `Records.dfy` | an event as a value: its order, `get_variables`, the write-back, the transitions |
| `CpModel.dfy` | the compiled model, `Feasible`, `Optimal`, and `Plan`, the same constraints read in absolute time and on all pairs |
| `Meaning.dfy` | `Plan` and the compiled model say the same |
| `Optimum.dfy`, `OutputBuffer.dfy` | what solutions guarantee, which changes keep them, what optima look like |
| `Fifo.dfy`, `Admission.dfy`, `Insertion.dfy`, `Acceptance.dfy`, `QueueRuns.dfy` | service in turn, the exact admission test of `save`, what one more event does to the others, and whole runs of a queue |
| `History.dfy`, `Makespan.dfy`, `Horizon.dfy` | which departed events are kept, the planning window, and what it shuts out |
| `Solvers.dfy` | what is asked of the solver, and that it can be met |
| `Planning.dfy`, `OnTime.dfy`, `Runs.dfy` | one planning call on values, and whole runs of calls and life-cycle steps |
| `Reading.dfy` | what planning reads off the fields of an event, and what a solution leaves in them |
| `Events.dfy`, `Sorting.dfy`, `CallSteps.dfy`, `BufferScheduler.dfy`, `Lifetime.dfy` | the mutable `Event` and `Scheduler`, each method proved against the functions above, and both used together |
| `TimeGrid.dfy`, `Arithmetic.dfy`, `Wrappers.dfy` | seconds and steps at any resolution; shared arithmetic and result types |

**The simulation kernel** (`iams/interfaces/simulation.py`): `Kernel.dfy`, `KernelRuns.dfy`,
`KernelLaws.dfy` and `KernelBound.dfy` hold the loop on values, its runs, its laws in terms of what callbacks
ask for, and its termination measure; `Heap.dfy` is the array
heap over `Queue.__lt__`; `Simulation.dfy` is the mutable simulation, proved against them;
`RandomStreams.dfy` models the wrapped random streams.

**The coroutine life cycle** (`iams/aio/interfaces.py`, `iams/aio/manager.py`): `EventLoop.dfy` and
`Manager.dfy` are state machines over the steps between two awaits, with the objects beside them.

## How the code is read

- Planning is at resolution 1 on integer times, where converting a time is the identity. Resolutions
  other than 1 appear in `TimeGrid.dfy` only.
- The solver is a function from models to optional assignments. It is required to be *sound* (what it
  returns is an optimum of the model it was given); where a result says "accepts exactly when", it is
  also required to be *complete* (it returns one whenever the model has a solution). Such a solver
  exists (`Solvers.SolverExists`).
- Python's `sorted` is an insertion sort here, and `heapq` is written out; both are proved to meet
  the contract that the program relies on. Where the event order is not transitive, all that is used of
  `sorted` is that it returns every event once.
- An exception is an outcome: `TypeError` and `NotImplementedError` from reading an event, `ValueError`
  from creating one, `CanNotSchedule` from a solver without an optimum.

## Where the code and its intent part ways

The model follows the code. Each of these is a theorem, with the exact condition or a concrete input.

- The upper bound of an arrival or departure window is computed from the lower bound, so its value never
  matters (`Optimum.UpperBoundValueIgnored`).
- The output buffer is limited by the size of the input buffer: its own size is kept by every optimal plan
  if and only if it is at least that of the input buffer (`OutputBuffer.OutputBufferKeptIff`).
- Two unset arrival times count as equal, so mixing set and unset ones can make the event order run in a
  circle, in exactly the constellation of `Fifo.OrderCyclesIff` (`Fifo.OrderCanCycle` gives one); and two
  events with unset arrivals can be planned together if and only if the shorter may arrive first
  (`Fifo.UnsetArrivalsPlanIff`). `Fifo.ComparableIff` says exactly when two queued events are comparable.
- The planning window may end before a known earliest time, exactly when `Makespan.MinimaInsideIff` says.
  Then nothing can be planned at all (`Horizon.SolvableMeansInside`): `Horizon.WindowMayEndTooEarly` is a
  scheduler that refuses an event for the clock alone.
- A window open on both sides can be one step short of a horizon, exactly when the gap leaves 1 when
  divided by 4 and no earlier window reaches further (`Makespan.ShortWindowIff`, `Horizon.WindowMayBeShort`).
- A time of 0 counts as unknown when history is pruned: what that drops too much is
  `History.ZeroDropsOverlapIff`, and `History.TimeZeroDropsOverlap` shows it for events that are on time. One
  live event without a known time drops the whole history (`History.UnknownTimeDropsHistory`).
- `main` of an event-driven coroutine can begin after `stop` only in a subclass, or other code, that takes
  the loop's own lock (`EventLoop.NoMainAfterStop`, `EventLoop.LateMainHappens`), and then exactly when the
  loop is waiting for it (`EventLoop.LateMainIff`).
- A setup that raises keeps the coroutines from starting only if another one is still pending, so never
  if it is the only one (`Manager.GivesUpIffTwoSetups`, `Manager.StartsAfterRaisedSetups`), and a coroutine
  whose own setup raised can get to its loop (`Manager.FailedSetupStillLoops`).
- Wrapped random streams shield each other, but not code that uses the shared generator directly
  (`RandomStreams.SharedStateIsOverwritten`).

## Model

| member | source | states |
|---|---|---|
| Cumulative.WithinIffAtStarts | iams/utils/scheduler.py:513-518 | A capacity holds at every instant exactly when it holds where an interval of positive length starts |
| Cumulative.UnitCapacityIffDisjoint | iams/utils/scheduler.py:515-516 | Capacity 1 says exactly that processing intervals of positive length are pairwise disjoint |
| Cumulative.NarrowingKeepsWithin | iams/utils/scheduler.py:513-518 | Dropping intervals and shrinking others never breaks a capacity |
| Meaning.QueueIsSuffix | iams/utils/scheduler.py:500-511 | In a sorted list everything behind a not yet started event is not yet started either |
| Meaning.ChainForcesAllPairs | iams/utils/scheduler.py:500-511 | The constraints between neighbours force the order of arrivals and starts on every pair of queued events |
| Meaning.AllPairsGiveChain | iams/utils/scheduler.py:500-511 | Conversely, with arrival times set, the order on all pairs gives the neighbour constraints |
| Meaning.FeasibleIff | iams/utils/scheduler.py:413-523 | Whatever order the model was built for, its solutions are exactly the assignments that keep each event within its bounds, the three capacities, and the chain |
| Meaning.FeasibleIsPlan | iams/utils/scheduler.py:413-523 | Every solution of the compiled model, moved to absolute time, is a plan: own bounds, order on all pairs, three resources |
| Meaning.ChainedPlanIsFeasible | iams/utils/scheduler.py:413-523 | Conversely every plan that keeps the chain solves the compiled model, whether arrivals are set or not |
| Meaning.PlanIsFeasible | iams/utils/scheduler.py:413-523 | Every plan solves the compiled model, however ties were sorted, when queued arrivals are set |
| Meaning.CostShifts | iams/utils/scheduler.py:521 | Moving the window shifts the objective by the same amount for all assignments, so it does not change what is optimal |
| Meaning.OptimalIff | iams/utils/scheduler.py:521-523 | Whatever order the model was built for, its optima are exactly the cheapest of what fits and keeps its chain |
| Meaning.OptimalIsOptimalPlan | iams/utils/scheduler.py:521-523 | With queued arrivals set every plan keeps the chain, so the optima are exactly the cheapest plans |
| Meaning.SetTimesAreSortable | iams/utils/scheduler.py:502 | With queued arrivals set the events can be sorted, whatever their states |
| Optimum.AdmittedTimes | iams/utils/scheduler.py:87-152 | eta <= start <= finish <= etd for what each state models; for new events the arrival bound is met before start and finish comes before the lower departure bound; processing takes the duration unless cancelled |
| Optimum.RecordedTimesAreFixed | iams/utils/scheduler.py:118-252 | What has already happened cannot be replanned, and departure bounds hold in every state that still has to leave |
| Reading.ReadableIff | iams/utils/scheduler.py:75-254 | An event can be read exactly when the times its state needs are there and no upper bound stands without a lower one; only a CANCELED event raises NotImplementedError |
| Reading.AdmitsIff | iams/utils/scheduler.py:75-254 | For each state, field by field and in absolute time, exactly which times the compiled variables allow |
| Reading.MakespanOf | iams/utils/scheduler.py:98-233 | Which of its fields an event gives to the planning window |
| Reading.BothBoundedAdmits | iams/utils/scheduler.py:87-116 | An event with both windows arrives and leaves at its lower bounds and may be served up to the last moment |
| Reading.AlonePlanIff | iams/utils/scheduler.py:87-116 | Alone, such an event can be planned if and only if its duration fits between its lower bounds |
| Reading.FirstCallIff | iams/interfaces/scheduler.py:594-608 | And so an empty scheduler of any horizon accepts it exactly then |
| Reading.CanceledRaises | iams/utils/scheduler.py:251-252 | A cancelled event that is still considered makes every planning call raise |
| Optimum.SolutionMeaning | iams/utils/scheduler.py:413-523 | In every solution of the compiled model times are in order, processing never overlaps, and neither buffer is overfilled at any instant |
| Optimum.UpperBoundValueIgnored | iams/utils/scheduler.py:59-73 | Changing the value of an upper bound that is present, on arrival or on departure, changes nothing about what is admitted |
| Optimum.SmallerProblemKeepsPlan | iams/utils/scheduler.py:425-449 | A plan stays one when events are dropped and the window grows on either side |
| Optimum.CompiledModelMonotone | iams/utils/scheduler.py:425-518 | After dropping events, re-forming the chain and enlarging the makespan the rest of any solution still solves the model, if neighbours that compare in neither direction keep the order they had |
| Optimum.SetTimesFollow | iams/utils/scheduler.py:500-511 | That is so when all queued arrivals are set |
| Optimum.SameOrderFollows | iams/utils/scheduler.py:500-511 | And, whatever the times, when the remaining events are sorted as before |
| Optimum.TrimKeepsPlan | iams/utils/scheduler.py:517-521 | Letting every event leave as soon as it is finished and allowed to keeps a plan and delays nobody |
| Optimum.CostMonotone | iams/utils/scheduler.py:521 | Earlier departures never cost more, and one strictly earlier departure costs strictly less |
| Optimum.OptimalDeparture | iams/utils/scheduler.py:517-521 | In every cheapest plan each event departs at the later of its finish and its lower departure bound |
| Optimum.SolverDeparture | iams/utils/scheduler.py:517-523 | The same for any optimum of the compiled model, whatever the mix of states and whatever order it was built for |
| OutputBuffer.HeldIsOptimal | iams/utils/scheduler.py:517-518 | For every size there is an optimal plan that holds that many finished events in the output buffer at once |
| OutputBuffer.OutputBufferKeptIff | iams/utils/scheduler.py:517-518 | Every optimal plan keeps to the output buffer's own size if and only if that is at least the input buffer's |
| Fifo.OrderByFields | iams/interfaces/scheduler.py:284-295 | With ordering times set the order is by stage (finished, started, queued), then by the time of that stage, then the shorter, then the smaller uid |
| Fifo.OrderByStage | iams/interfaces/scheduler.py:284-295 | Between stages nothing else decides, and two events that are gone compare by arrival alone |
| Fifo.OrderIsStrictTotal | iams/interfaces/scheduler.py:284-295 | With ordering times set, the event order is irreflexive, total on different uids, and transitive across all states |
| Fifo.ComparableIff | iams/interfaces/scheduler.py:112-129 | Two queued events are comparable unless exactly one time is unset and its lower bound equals the other's time |
| Fifo.OrderCyclesIff | iams/interfaces/scheduler.py:112-129 | Three queued events are ordered in a circle exactly when one with a set time stands between the bounds of two without, of which the shorter has the later bound |
| Fifo.OrderCanCycle | iams/interfaces/scheduler.py:112-129 | Three new events with acceptable times that are ordered in a circle |
| Fifo.UnsetArrivalsShutOut | iams/interfaces/scheduler.py:112-129 | Two new events with unset arrivals, the shorter one arriving later, have no plan at all, whatever window and capacity |
| Fifo.UnsetArrivalsPlanIff | iams/interfaces/scheduler.py:112-129 | Two such events that are free to leave can be planned together if and only if the shorter one may arrive first |
| Fifo.QueueServesInTurn | iams/utils/scheduler.py:500-516 | Of two queued events the later one cannot start before the earlier one is finished |
| Fifo.QueueTakesAllDurations | iams/utils/scheduler.py:500-516 | The k-th queued event cannot finish before the start of the i-th plus all durations from i to k |
| Admission.WaitingAdmits | iams/utils/scheduler.py:87-153 | Exactly which times the model lets a waiting event have |
| Admission.NoEarlierStart | iams/utils/scheduler.py:500-516 | No plan starts the k-th event before max(arrival, previous finish) in sorted order |
| Admission.EarliestIsPointwiseEarliest | iams/utils/scheduler.py:428-521 | Serving in order is pointwise earliest among all plans, in start, finish and departure |
| Admission.EarliestPlanIff | iams/utils/scheduler.py:428-521 | Serving in order is a plan exactly when it ends within the window and those waiting at each arrival fit the input buffer |
| Admission.AdmissionTest | iams/utils/scheduler.py:428-521 | Any plan exists exactly under that condition |
| Admission.EarliestIsUniqueOptimum | iams/utils/scheduler.py:521 | The cheapest plan is unique: it is the in-order schedule, whenever that is a plan |
| Admission.ServedFirstIff | iams/utils/scheduler.py:500-521 | Of two waiting events exactly the one with the earlier arrival, then the shorter duration, then the smaller uid is finished before the other starts |
| Insertion.SortedOnce | iams/utils/scheduler.py:502 | A waiting queue can be sorted in one way only |
| Insertion.OrderAround | iams/utils/scheduler.py:502 | A newcomer takes one place in the sorted order and the others keep their order around it |
| Insertion.OneMoreEvent | iams/utils/scheduler.py:500-521 | With one more event everyone ahead of it keeps its times and nobody starts earlier than before |
| Acceptance.WaitingWindow | iams/utils/scheduler.py:387-411 | While nothing has started, the window reaches from before every arrival to a horizon after the latest one, or to the longest horizon so far |
| Acceptance.SaveAcceptsIff | iams/interfaces/scheduler.py:594-608 | The model built by save has a solution exactly when in-order service fits window and input buffer |
| Acceptance.SavedPlanIsEarliest | iams/utils/scheduler.py:541-554 | Any optimum save can be given is the in-order schedule |
| Acceptance.SavedInTurn | iams/interfaces/scheduler.py:594-608 | In the times an accepting save stores, everyone is finished before whoever comes later by arrival, duration and uid is started |
| Acceptance.SaveKeepsPlans | iams/interfaces/scheduler.py:594-608 | After an accepting save the stored times are again the in-order schedule, no listed event is planned earlier, and those ahead of the newcomer keep their times |
| QueueRuns.ActionKeepsPlans | iams/interfaces/scheduler.py:594-608 | So it is after an accepted or refused save and after an arrival on time |
| QueueRuns.RunKeepsPlans | iams/interfaces/scheduler.py:594-608 | Over any run of saves and arrivals the stored times are those of serving in order, and no event is ever planned earlier than it once was |
| QueueRuns.PlannedWorldInTurn | iams/interfaces/scheduler.py:594-608 | So it is at every point of such a run |
| QueueRuns.EmptyIsPlanned | iams/interfaces/scheduler.py:479-482 | The empty scheduler is where such runs begin |
| History.KnownTimesBounded | iams/interfaces/scheduler.py:274-282 | Every known time lies between the event's earliest and latest; a time of 0 is not a known one |
| History.SpanStart | iams/interfaces/scheduler.py:545-558 | A lower bound on the times of all live events; it exists exactly when there are live events and each has a known time |
| History.SpanEnd | iams/interfaces/scheduler.py:537-563 | The same on the other side |
| History.PruningIsIdempotent | iams/interfaces/scheduler.py:524-592 | Asking again changes neither the list nor what is yielded |
| History.RemovedLiesOutside | iams/interfaces/scheduler.py:565-584 | A removed event with a known activity span lies wholly before or wholly after every known time of every live event |
| History.RetainedIff | iams/interfaces/scheduler.py:565-577 | With live events that each have a time other than 0, history stays exactly while its activity ends after one of these times and begins before one |
| History.LiveIsKept | iams/interfaces/scheduler.py:528-553 | Events that are neither departed nor cancelled always stay and are always yielded; history without a known activity never is |
| History.CanceledIsForgotten | iams/interfaces/scheduler.py:385-391 | An event cancelled before it arrived is neither listed nor planned any more |
| History.YieldedInOrder | iams/interfaces/scheduler.py:524-592 | Live events, then history, each in list order, then the newcomers; what stays listed keeps its order |
| History.UnknownTimeDropsHistory | iams/interfaces/scheduler.py:555-563 | One live event without a known time drops all history |
| History.ZeroDropsOverlapIff | iams/interfaces/scheduler.py:565-584 | If each live event has a non-zero time, a departed event is dropped although it overlaps the live ones exactly when a live event has the time 0 and that is the only live time its activity reaches |
| History.TimeZeroDropsOverlap | iams/interfaces/scheduler.py:274-282 | Two events that are on time: one served over 0..5 is forgotten although the other arrived at 0 and is planned over 5..6 |
| History.WithoutIsFilter | iams/interfaces/scheduler.py:579-580 | With distinct uids, removing one event from the list filters out exactly its uid |
| History.DecideOn | iams/interfaces/scheduler.py:565-584 | Deciding on one departed event leaves the list as if it had been decided on from the start |
| Makespan.MakespanCovers | iams/utils/scheduler.py:387-411 | The window covers every known minimum and maximum, never ends before the longest horizon, and is at most one step short of a horizon if an event is unbounded, and not short if only one side is open |
| Makespan.WindowIsTight | iams/utils/scheduler.py:387-411 | The window is no larger than that: a closed side ends at the known times, an open one a horizon from the other or at the known times if they reach further |
| Makespan.ShortWindowIff | iams/utils/scheduler.py:399-411 | With an unbounded event it is short exactly when both sides are open, the gap to a horizon leaves 1 when divided by 4, and no earlier window reaches further |
| Makespan.MinimaInsideIff | iams/utils/scheduler.py:387-411 | For all events, horizons and earlier windows: every known minimum is inside exactly when there is none, or the latest is not past the earlier window or the end that the known maxima give this one |
| Horizon.SolvableMeansInside | iams/utils/scheduler.py:428-523 | A model of a planning call has a solution only if every known minimum lies inside the window |
| Horizon.WindowMayEndTooEarly | iams/utils/scheduler.py:395-411 | A scheduler with horizon 30 that has saved an event leaving at 50 cannot save one arriving at 100: no sorting of the model has a solution, though a window up to 110 has room for both |
| Horizon.WindowMayBeShort | iams/utils/scheduler.py:399-408 | Two events whose planning window is 29 steps long at horizon 30 |
| Planning.BookMembers | iams/utils/scheduler.py:385 | With one value per uid, the dictionary of a planning call holds exactly the yielded events |
| Planning.HorizonGrows | iams/utils/scheduler.py:410 | No planning call, failed or not, shortens the horizon |
| OnTime.OnTimeIsPlan | iams/utils/scheduler.py:87-252 | On-time stored times, each event leaving when it is finished, are a plan for every window that contains them |
| OnTime.WriteBackSettles | iams/utils/scheduler.py:541-554 | Writing a plan back stores exactly its start and finish, keeps uid, state, duration and arrival, and completes the event's times, whatever its state |
| Reading.SolutionIsTaken | iams/utils/scheduler.py:541-554 | What any optimum leaves in an event, field by field and in every state: a NEW event also gets its arrival (its lower bound, if bounded on both sides) and its departure (the later of its finish and its lower bound) |
| OnTime.PlanIsOnTime | iams/utils/scheduler.py:541-554 | After a successful call the stored times are on time again |
| OnTime.FewerEventsOnTime | iams/interfaces/scheduler.py:565-584 | Forgetting events and growing the horizon keeps the rest on time |
| OnTime.AdvanceOnTime | iams/interfaces/scheduler.py:376-446 | Arriving, starting, finishing or departing at the planned time, or starting a new event directly, keeps all events on time |
| Runs.ActionOnTime | iams/utils/scheduler.py:628-637 | Every save, probe or validation, whatever its outcome, and every on-time step keeps the scheduler on time |
| Runs.RunOnTime | iams/utils/scheduler.py:628-637 | So does every run of them |
| Runs.HorizonNeverShrinks | iams/utils/scheduler.py:410 | Whatever happens in between (any candidates, any outcome, calls that raise, cancellations, late steps, changed bounds) the horizon never shrinks |
| Runs.RunIsCourse | iams/utils/scheduler.py:628-637 | Runs of calls and on-time steps are among these |
| Runs.OnTimeIsReadable | iams/utils/scheduler.py:374-385 | Reading the events of an on-time scheduler never raises |
| Runs.StoredTimesSolve | iams/utils/scheduler.py:413-523 | The times stored in an on-time scheduler solve the model that validate builds, however ties were sorted |
| Runs.OnTimeRunsStaySchedulable | iams/utils/scheduler.py:336-344 | After any run from the empty scheduler the model of validate can be built and has a solution |
| Events.Event.constructor | iams/interfaces/scheduler.py:297-344 | The fields of a new event; bounds on both sides of both times make it scheduled |
| Events.Event.Arrive | iams/interfaces/scheduler.py:376-383 | The event is ARRIVED, with its arrival and activity start at the given time and every other field as before |
| Events.Event.Start | iams/interfaces/scheduler.py:437-446 | The event is STARTED at the given time, which replaces the planned start; every other field as before |
| Events.Event.Finish | iams/interfaces/scheduler.py:401-409 | The event is FINISHED at the given time, which replaces the planned finish; every other field as before |
| Events.Event.Depart | iams/interfaces/scheduler.py:393-399 | The event is DEPARTED, with its departure and activity finish at the given time and every other field as before |
| Events.Event.Cancel | iams/interfaces/scheduler.py:385-391 | The event is marked cancelled, but its state becomes CANCELED only from NEW, SCHEDULED and DEPARTED |
| Events.Event.Plan | iams/utils/scheduler.py:541-554 | Which of the solver's times an event takes over in its state; what that means for the fields is `Reading.SolutionIsTaken` |
| Sorting.Sort | iams/utils/scheduler.py:502 | The same events, and none of them ahead of an earlier one whenever not coming after is transitive on them |
| Sorting.SortedUids | iams/utils/scheduler.py:502 | Sorting the events lists every key of the dictionary once, in sorted order if there is one |
| BufferScheduler.Scheduler.constructor | iams/interfaces/scheduler.py:479-482 | An empty list, the horizon as longest horizon, and uids from 1 |
| BufferScheduler.Scheduler.Create | iams/interfaces/scheduler.py:484-489 | A fresh event with the next uid, different from all listed ones; nothing, and no uid used, exactly when its times are not acceptable |
| BufferScheduler.Scheduler.Remove | iams/interfaces/scheduler.py:579-580 | Exactly the event with that uid leaves the list |
| BufferScheduler.Scheduler.Survey | iams/interfaces/scheduler.py:528-563 | The live events in list order, the others, and the live events' span |
| BufferScheduler.Scheduler.Prune | iams/interfaces/scheduler.py:565-584 | Exactly the events that are not live and do not reach into the span leave the list; the others are kept in order |
| BufferScheduler.Scheduler.GetEvents | iams/interfaces/scheduler.py:524-592 | Yields live events, then retained history, then newcomers; leaves live and retained events in their original order |
| BufferScheduler.Scheduler.Gather | iams/utils/scheduler.py:374-385 | One more event read: its variables, and what it says about the edges of the window |
| BufferScheduler.Scheduler.GatherHistory | iams/utils/scheduler.py:374-385 | History is pruned and read in one pass, as the lazy generator does, up to the first retained event that cannot be read |
| BufferScheduler.Scheduler.ReadAll | iams/utils/scheduler.py:374-385 | Everything considered is read in the order live, retained, new; on a failure exactly the history decided on before it has been pruned |
| CallSteps.StoppedMeansUnreadable | iams/utils/scheduler.py:374-385 | Reading stops early only at an event that is considered and cannot be read |
| BufferScheduler.Scheduler.Span | iams/utils/scheduler.py:387-408 | For collected edges in whatever order they were read, the window before it is extended to the longest horizon |
| BufferScheduler.Scheduler.GetEventVariables | iams/utils/scheduler.py:360-411 | The considered events, their variables, and the window derived from their makespans, whose end becomes the longest horizon; it fails exactly when an event cannot be read, and then leaves the horizon alone; no live event is dropped |
| BufferScheduler.Scheduler.BuildModel | iams/utils/scheduler.py:413-523 | The loops build exactly the compiled model for a sorted order of the events |
| BufferScheduler.Scheduler.OptimizeModel | iams/utils/scheduler.py:525-614 | With an optimum every event takes its times over, shifted by the offset; without one no event changes; uids and states stay |
| BufferScheduler.Scheduler.SolveModel | iams/utils/scheduler.py:628-637 | The whole planning call on the objects is the planning call on values, for a sound solver asked about the compiled model; on success every event holds the times of an optimum, field by field, and otherwise none has changed; live events stay listed |
| BufferScheduler.Scheduler.Save | iams/interfaces/scheduler.py:594-608 | Lists the event exactly on success, when every event holds the times of an optimum, field by field, and a waiting queue is served in turn; otherwise no event changes; a complete solver accepts a waiting queue exactly when in-order service fits; on time it stays on time; the scheduler stays valid |
| BufferScheduler.Scheduler.CanSchedule | iams/utils/scheduler.py:330-334 | Stores the times of an optimum even in a probe, field by field, lists nothing, stays valid and on time, and leaves the candidate one that may be saved |
| BufferScheduler.Scheduler.Validate | iams/utils/scheduler.py:336-344 | On time, with a complete solver, validation succeeds and stays on time; the scheduler stays valid and live events stay listed |
| BufferScheduler.OnTimeStep | iams/interfaces/scheduler.py:376-446 | An event object that takes its next step at the planned time leaves an on-time scheduler object on time |
| Lifetime.StepAndValidate | iams/utils/scheduler.py:336-344 | A listed event object that takes its next step on time leaves the scheduler valid, on time, and validation succeeding |
| Lifetime.Admit | iams/tests/tests_utils_scheduler.py:36-44 | Creating, probing and saving one more event on an on-time scheduler leaves it valid and on time |
| Lifetime.ServeInFull | iams/tests/tests_utils_scheduler.py:36-69 | One event taken from creation to departure on an on-time scheduler with other events in any state: every one of the five validations succeeds |
| CallSteps.SaveAccepts | iams/interfaces/scheduler.py:594-608 | A sound and complete solver answers a waiting queue exactly when in-order service fits |
| CallSteps.ValidateFinds | iams/utils/scheduler.py:336-344 | A sound and complete solver always answers on an on-time scheduler |
| Solvers.CompleteAnswer | iams/utils/scheduler.py:529-539 | A sound and complete solver answers exactly the models that have a solution |
| Solvers.OptimumExists | iams/utils/scheduler.py:521-539 | A model that has a solution has an optimum |
| Solvers.SolverExists | iams/utils/scheduler.py:529-539 | A sound and complete solver exists |
| TimeGrid.RoundIsNearest | iams/utils/scheduler.py:358 | Rounding is the nearest integer, and the even one of two equally near ones |
| TimeGrid.HalfIsRounded | iams/utils/scheduler.py:402 | The half that splits the gap of the planning window is rounded in the same way |
| TimeGrid.RoundShift | iams/utils/scheduler.py:358 | Adding whole steps commutes with rounding exactly when the time is not halfway or the number is even |
| TimeGrid.StepsMonotone | iams/utils/scheduler.py:352-358 | Later times never get smaller step numbers |
| TimeGrid.StepsNearby | iams/utils/scheduler.py:352-358 | A time is within half a step of its step |
| TimeGrid.StepsOfSeconds | iams/utils/scheduler.py:346-358 | A step converted to seconds is read back as the same step, at any resolution |
| TimeGrid.GapsSurvive | iams/interfaces/scheduler.py:346-362 | Plan times stored at one now and read at another keep their distance exactly when the elapsed time is not halfway between steps or the distance is even; otherwise it changes by one |
| Kernel.QueueOrder | iams/interfaces/simulation.py:115-143 | Entries different in time, priority or delay are strictly and totally ordered |
| Kernel.PassConsistent | iams/interfaces/simulation.py:206-231 | Every pass keeps each entry in one place, scheduled = executed + skipped + queued + the one beyond the limit, and the running count in step with it |
| Kernel.ReportedIsProcessed | iams/interfaces/simulation.py:233-234 | However the loop ends, the reported count is executed plus skipped |
| KernelRuns.SmallerGoesFirst | iams/interfaces/simulation.py:115-118 | Of two entries queued together the smaller is popped first, over any run |
| KernelRuns.CancelledNeverRuns | iams/interfaces/simulation.py:154-158 | An entry cancelled before it is popped never runs |
| KernelRuns.ClockNeverGoesBack | iams/interfaces/simulation.py:216-224 | Without negative delays the clock never goes back and events run in the order of their times |
| KernelRuns.CompleteAtCutoff | iams/interfaces/simulation.py:206-234 | When the loop is over and nobody stopped it, an event was executed, exactly once, if and only if it was due by the limit and not cancelled before its pop |
| KernelLaws.ScheduledFromNow | iams/interfaces/simulation.py:298-315 | An entry asked for with a delay is queued, due that delay after the time it was asked for |
| KernelLaws.CancelPreventsExecution | iams/interfaces/simulation.py:154-158 | What an executed callback cancels while it is scheduled and not yet executed is never executed |
| KernelLaws.OnlyCancelled | iams/interfaces/simulation.py:209-210 | And nothing else ends up cancelled: behind every such entry is a cancel by an executed callback, or one before the loop |
| KernelLaws.CompleteByOperations | iams/interfaces/simulation.py:206-234 | When the loop is over and nobody stopped it, an entry was executed if and only if its time is at or before the limit and neither the setup nor an executed callback cancelled it before its turn |
| KernelLaws.EarlierGoesFirst | iams/interfaces/simulation.py:115-118 | Of two entries queued together the one with the earlier time, then the smaller priority, then the longer delay is popped first |
| KernelLaws.ClockIsLastExecuted | iams/interfaces/simulation.py:209-224 | The clock stands at the last executed entry; skipped entries and the one beyond the limit leave it alone |
| KernelLaws.StopIsLast | iams/interfaces/simulation.py:229-231 | A callback that stops the simulation is the last to be executed |
| KernelBound.PassLowers | iams/interfaces/simulation.py:206-231 | Each execution lowers the potential by at least one, each pass lowers the queue by all but the new events |
| KernelBound.ExecutionsBounded | iams/interfaces/simulation.py:206-231 | With at most k new events per callback, each at least delta later, no run executes more events than the sum of f((limit - time) / delta) over the queue, f(n) = 1 + k f(n - 1) |
| KernelBound.PassesBounded | iams/interfaces/simulation.py:206-231 | Nor makes more passes than the queue plus k times that bound |
| Heap.RootIsLeast | iams/interfaces/simulation.py:207 | The root of the heap is least by the queue order |
| Heap.Rise | iams/interfaces/simulation.py:314 | Sifting up restores the heap and permutes the entries |
| Heap.Sink | iams/interfaces/simulation.py:207 | Sifting down restores the heap and permutes the entries |
| Heap.HeapPush | iams/interfaces/simulation.py:314 | A heap of the same entries and the new one |
| Heap.HeapPop | iams/interfaces/simulation.py:207 | An entry that nothing in the heap is smaller than, and a heap of the others |
| Simulation.Simulator.Schedule | iams/interfaces/simulation.py:298-315 | One more queued entry at now + dt with its delay and priority, not cancelled, and one more event; the invariant is kept |
| Simulation.Simulator.PerformOp | iams/interfaces/simulation.py:154-158 | Scheduling or cancelling from a callback, on the objects as on values; a cancel marks exactly its entry |
| Simulation.Simulator.Pop | iams/interfaces/simulation.py:207 | The popped entry is a least one of the queue, and only it leaves |
| Simulation.Simulator.Iterate | iams/interfaces/simulation.py:206-231 | One pass of the loop on the objects is one pass on values, for any behaviour of the callbacks |
| Simulation.Simulator.Call | iams/interfaces/simulation.py:206-234 | For any callbacks that let the loop end: what it did is a run of passes with their reactions; what was cancelled before the loop or by it in time was not executed; the reported count is executed plus skipped; unless stopped, exactly what was due and not cancelled was executed, once |
| Simulation.PacedLoopEnds | iams/interfaces/simulation.py:206-231 | With a finite limit and at most k new events per callback, each at least delta later, the loop ends within the queue plus k times the potential |
| RandomStreams.Managed.Next | iams/interfaces/simulation.py:80-88 | Whatever others did to the shared state, the next value is the next one of this stream run alone |
| RandomStreams.StreamsDoNotInterfere | iams/interfaces/simulation.py:76-94 | Over any interleaving of any number of streams and foreign uses, the values read from a stream are those of its own undisturbed run |
| RandomStreams.SharedStateIsOverwritten | iams/interfaces/simulation.py:85-87 | After a draw the shared state does not depend on what it was before |
| EventLoop.EventCoroutine.Run | iams/aio/interfaces.py:170-174 | The event is set and everything else stays |
| EventLoop.EventCoroutine.Stop | iams/aio/interfaces.py:176-183 | The stop future is resolved, the event is set, and everything else stays; what that does to a waiting loop is `EventLoop.StopEndsWaiting` |
| EventLoop.EventCoroutine.Resume | iams/aio/interfaces.py:147-168 | From each await, with each outcome, the loop goes on to its next await as the state machine says |
| EventLoop.StepKeepsInvariant | iams/aio/interfaces.py:147-183 | Every interleaved step keeps: an unserved run is remembered, wake-ups do not outnumber runs, the lock is held exactly inside main |
| EventLoop.NoLostWakeUp | iams/aio/interfaces.py:147-174 | If a run was not served by a main, then whenever the loop waits with the event cleared another main has begun; until then its wait is ready to end |
| EventLoop.MainsAreCaused | iams/aio/interfaces.py:147-174 | There are never more mains than the first one, one per run, and one per timeout |
| EventLoop.MainsWithoutInterval | iams/aio/interfaces.py:134-157 | Without an interval there is at most one main per run besides the first, unless a main itself times out |
| EventLoop.MainsAfterStop | iams/aio/interfaces.py:147-183 | After stop no main begins unless the loop is waiting for its lock, and then at most one |
| EventLoop.LateMainIff | iams/aio/interfaces.py:152-155 | A stopped loop can still begin a main exactly when it is waiting for its lock |
| EventLoop.NoMainAfterStop | iams/aio/interfaces.py:147-183 | As long as only the loop takes its lock, no main ever begins after stop |
| EventLoop.LateMainHappens | iams/aio/interfaces.py:152-155 | With someone else taking the lock, a run from the start that begins a main after stop |
| EventLoop.StopEndsWaiting | iams/aio/interfaces.py:176-183 | Over every run: once stop was called a waiting loop can wake up, and is then over |
| EventLoop.LoopEndsIff | iams/aio/interfaces.py:152-168 | A loop is over once main has raised or the task was cancelled; without a stop, only then; and it has stopped itself |
| EventLoop.PeriodicIff | iams/aio/interfaces.py:151-167 | Main is told that it is periodic exactly when it was not a wake-up that sent the loop around |
| Manager.Manager.Stop | iams/aio/manager.py:120-125 | The stop future is resolved |
| Manager.Manager.OnSetups | iams/aio/manager.py:54-73 | After its first wait main gives up while a setup is pending, else starts all coroutines |
| Manager.Manager.OnFirst | iams/aio/manager.py:97-104 | After its second wait main stops and sends a cancel to every call that is not over |
| Manager.LifeCycle | iams/aio/manager.py:40-118 | Over every interleaving: no start before all setups ended; no loop before its own start succeeded; no call ends before its start has unless cancelled; once main shuts down every call is over or was sent a cancel; a call invokes stop at most once, after a cancel |
| Manager.FirstEndCancelsRest | iams/aio/manager.py:78-104 | However a run goes on once a coroutine is over, main can shut down at any time or has done so, and then every other call is over or was sent a cancel |
| Manager.CancelsAreCaused | iams/aio/manager.py:78-104 | Over every run a call is sent a cancel only after a coroutine was over or a stop was asked for |
| Manager.StopEndsMain | iams/aio/manager.py:71-78 | A stop asked for at any time lets main shut down as soon as it serves |
| Manager.StopsIffCancelled | iams/aio/interfaces.py:33-37 | A call invokes stop, and then once, exactly when a cancel comes out of its loop |
| Manager.EndsAreFinal | iams/aio/interfaces.py:33-38 | A call is over once its loop has ended, a cancel reached it before its loop, or its stop is done |
| Manager.SetupsDecide | iams/aio/manager.py:54-73 | Over every run main gives up only if a setup raised, and then nothing is ever started; it goes on only if all setups have ended, and then everything is started |
| Manager.GivesUpIffTwoSetups | iams/aio/manager.py:54-63 | A run in which main gives up exists if and only if there are at least two setups |
| Manager.StartsAfterRaisedSetups | iams/aio/manager.py:54-73 | For any number of coroutines there is a run in which every setup has raised and every coroutine is started |
| Manager.FailedSetupStillLoops | iams/aio/manager.py:54-68 | A run in which a coroutine's setup raises and its loop begins all the same |

## Left out

- The search of the CP-SAT solver: an external library; only its contract (sound, and where stated complete) is used.
- Resolutions other than 1 in planning: the window conversion and the number-mode scaling of start and finish do not agree there; the grid itself is in `TimeGrid.dfy`.
- Times as dates: planning is on numbers; storing and re-reading points in time is covered by `TimeGrid.GapsSurvive`, over exact reals, without the microsecond rounding of `timedelta`.
- Sharing one ETX between events, its margins, `time_low`, `time_high`, `schedule_eta` and `schedule_etd`: an ETX is a value here.
- Parsing of event arguments by type, and a state passed to the constructor: events start from built ETX values in their initial state.
- Lanes, setup conditions, debug output, logging, `asdicts`, and the empty `cleanup`, `optimize_eta` and `optimize_etd`.
- Acceptance.SaveAcceptsIff: for queues in which every arrival is set and equals its lower bound, nothing is cancelled, and no departure is bounded, as the theorem is about; other mixes are covered by `Optimum.SolutionMeaning` and `Optimum.SolverDeparture`.
- BufferScheduler.Scheduler.Save: requires an event that is not listed yet (the code would list it twice), and events whose ordering times exist, as they do for every event that was created and stepped through the methods here (the code's sort would raise a TypeError).
- BufferScheduler.Scheduler.CanSchedule: requires the same, as do Validate and SolveModel; runs on values (`Runs.RunOnTime`) allow an event to be listed twice.
- Sorting.Sort: an insertion sort with the contract of `sorted`; which order the code's sort gives where the event order is not transitive is left open.
- Simulation.Simulator.Call: requires that the loop ends with these callbacks (the code may loop forever); `KernelRuns.dfy` speaks of all runs, finished or not.
- Callbacks that raise other exceptions, the `event_callback` hook, the agents' setup and stop, CSV and JSON output, wall-clock timing and the directory facilitator. A callback's reaction may depend on everything executed before.
- Floating point in the simulation: times are exact reals.
- RandomStreams.Managed.Next: a generator that ends is a value `None`; that Python turns it into a RuntimeError is not modelled, nor is the drawing of the seed at the wrapper's call.
- EventLoop.NoLostWakeUp: the lock may be granted in any order and any wait may be cancelled or time out at any step, more than asyncio's scheduling allows; `run` and `stop` before `_start` are not modelled.
- Manager.LifeCycle: task results come in any order; that pending setups are cancelled when main gives up, KeyboardInterrupt, and the timeout while collecting cancelled tasks are not modelled, and an overridden `wait` is not the default one.
- ThreadCoroutine, and the gRPC coroutine's channel counting: no shared protocol, or behaviour inside gRPC objects.
- Docker, gRPC, TLS and database plumbing, the command line, plugins and plotting: no algorithm of this kind.
