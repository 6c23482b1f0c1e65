# Car-rental shuttle simulation: the event handlers

This project models the discrete-event core of `carrental.c`. The program simulates one bus on a
three-stop loop: car rental, then terminal 1, then terminal 2, then back to car rental. People
arrive at each stop, wait in a FIFO queue and ride the bus to their destination. The core consists
of five event handlers and the loop in `main` that dispatches events to them:

- `person_arrive`
- `bus_arrive`
- `bus_depart`
- `person_unload`
- `person_load`

Each handler is modelled as a pure transition (`Handlers.Transition`). It maps the state before the
event to the state after it. It also returns, in order, the schedules and cancellations it makes on
the event list (`EventList.Action`).

The state holds:

- the clock;
- the three stop queues;
- the bus queue;
- `current_bus_location`;
- `last_bus_arrive_time`;
- `bus_wait_time`.

The event list is a time-ordered sequence of `(time, kind)` events. The driver (`Simulation.Step`)
works like simlib's `timing()`. It takes the head of the list, sets the clock to its time, runs the
handler for its kind and applies the handler's actions to the rest of the list.

Modules, one per file:

- `ShuttleTypes` (`types.dfy`): the stops, people, event kinds, constants, the loop order and the
  destination rule.
- `EventList` (`event_list.dfy`): the pending-event list, scheduling and cancellation.
- `Cabin` (`cabin.dfy`): the bus queue and the unload scan. It has a closed form (`Alight`) and the
  loop as written (`UnloadScan`), proved equal.
- `Handlers` (`handlers.dfy`): the state and the five handlers.
- `Simulation` (`simulation.dfy`): dispatch, one step, a run of steps, the initial state, and the
  invariant every step keeps.

The model follows the code as written, including its quirks:

- **Location advanced at departure.** `current_bus_location` changes when the bus leaves, not when
  it arrives. A person who arrives at the stop the bus is driving to therefore takes the "bus is
  here" branch. That branch schedules a load and cancels a pending departure.
- **No capacity check outside `person_load`.** `bus_arrive` and `person_arrive` schedule loading
  without checking capacity. Only `person_load` checks it (`carrental.c:146`).
- **Dwell time never restored.** `bus_wait_time` is one global, not a fresh 5 minutes per stop. It
  is decremented by the dwell update and never reset on a later arrival, so the budget shrinks
  over the run.
- **Last load schedules nothing.** A load that empties the stop queue schedules no event at all.

The comment at `carrental.c:73` speaks of cancelling the departure if one is scheduled. simlib's
`event_cancel` removes the first pending event of the kind, and `Cancel` models exactly that. It
removes one event, not all of them.

Consequences of the code that a reader might not expect:

- **Several departures can be pending.** Nothing keeps at most one departure on the list.
  `person_arrive` cancels only the first pending departure. The unload and load handlers schedule
  a departure without cancelling anything (`carrental.c:137-139`, `carrental.c:154-156`).
- **No presence flag.** The handlers compare `current_bus_location` only. An unload or load step
  acts on whatever stop that variable names.

Time is a Dafny `real`. `bus_wait_time` is an `int`. The assignment of a double to it truncates
toward zero (`Truncate`).

## Model

| member | source | states |
|---|---|---|
| ShuttleTypes.TravelTime | carrental.c:97-110 | The drive from rental, terminal 1 and terminal 2 takes 540, 120 and 540 seconds: 4.5, 1.0 and 4.5 miles at 30 miles per hour. |
| ShuttleTypes.LoopClosesAfterThreeDepartures | carrental.c:99-112 | The stop order rental → terminal 1 → terminal 2 → rental returns to its start after exactly three departures. The two stops in between differ from the start, and one lap takes 1200 seconds of driving. |
| ShuttleTypes.Destination | carrental.c:50-63 | A person arriving at a terminal wants the car rental. A person arriving at the car rental wants terminal 1 exactly when the uniform draw is below 0.583, and terminal 2 otherwise. Nobody's destination is their origin. |
| ShuttleTypes.ArrivalKindRoundTrip | carrental.c:237-249 | The three person-arrival event kinds and the three stops correspond one to one. |
| EventList.Schedule | carrental.c:52 | Scheduling adds exactly the new event and keeps the list in time order. |
| EventList.ScheduleAtInsertionPoint | carrental.c:208-219 | A new event is filed behind every pending event that fires no later than it, and ahead of the first one that fires later. |
| EventList.Cancel | carrental.c:73-74 | Cancelling a kind removes the first pending event of that kind: the list loses exactly that event, or nothing when there is none. Time order is kept. |
| EventList.CancelRemovesFirst | carrental.c:73-74 | When an event of the kind is pending, cancelling deletes exactly that position and leaves every other event where it was. |
| EventList.ScheduleKeepsCancelled | carrental.c:72-74 | Scheduling the load step first does not change which departure the following cancellation removes. |
| EventList.ApplyKeepsOrder | carrental.c:224-275 | Carrying out a handler's schedules and cancellations keeps the list in time order, and no event lies in the past when no scheduled event does. |
| Cabin.FirstBound | carrental.c:119-129 | Locates the front-most passenger bound for the stop: no passenger ahead of it is bound there, and when none is found, no passenger at all is. |
| Cabin.Alight | carrental.c:119-129 | If a passenger is bound for the stop, the front-most one leaves and the bus queue shrinks by one. The new queue is the passengers behind that one, then those ahead of it. Otherwise the queue is unchanged. |
| Cabin.UnloadScan | carrental.c:119-129 | The take-front / re-file-at-back loop gives exactly the result of Alight. It runs the whole queue length when nobody is bound for the stop, and stops right after the match otherwise. |
| Cabin.AlightKeepsOrderOfBound | carrental.c:117-129 | Passengers for a stop leave in bus-queue order. The one who leaves is the first of them, and the rest keep their relative order after the rotation. |
| Handlers.Truncate | carrental.c:138 | Converting the double dwell value to int truncates toward zero. |
| Handlers.RemainingDwell | carrental.c:138 | The new wait is 0 once the elapsed dwell exceeds the wait. Otherwise it is the wait minus the elapsed time, truncated. It always lies between 0 and the old wait. |
| Handlers.PersonArrive | carrental.c:46-76 | The person joins the back of the stop's queue, stamped with the clock and the destination. The next arrival at the same stop is scheduled. When the bus location is this stop, one load step is scheduled and then a departure is cancelled; otherwise nothing else is scheduled. Population grows by one. |
| Handlers.BusArrive | carrental.c:78-93 | Records the arrival time and changes nothing else. Schedules exactly one event: unload if the bus is occupied, else load if people wait, else departure after the full remaining dwell. |
| Handlers.BusDepart | carrental.c:95-113 | Schedules exactly one bus arrival, 120 seconds later when leaving terminal 1 and 540 seconds later otherwise. Moves the location at once to the next stop, which differs from the stop left, and changes nothing else. |
| Handlers.ThreeDeparturesReturn | carrental.c:95-113 | Three departures, each from the bus's current stop, restore the state exactly. The two stops in between differ from the start, and the three scheduled drives total 1200 seconds. |
| Handlers.Unloaded | carrental.c:119-129 | The unload scan's effect on the state: with a match the bus loses the front-most matching passenger, the queue is rotated and the population drops by one. Without a match nothing changes. |
| Handlers.PersonUnload | carrental.c:115-141 | After the scan, schedules exactly one event: another unload if someone left and the bus is still occupied, else load if people wait, else departure after the updated remaining dwell. |
| Handlers.PersonLoad | carrental.c:143-158 | With room on the bus and people waiting, the stop's front person moves to the back of the bus. Another load is scheduled if and only if people still wait, and nothing is scheduled if and only if the queue is now empty. Otherwise only a departure is scheduled, after the updated dwell. Population is unchanged and capacity is kept. |
| Handlers.LoadsBoardInQueueOrder | carrental.c:146-153 | While the bus has room, n load steps in a row board the first n people of the stop's queue, in queue order, and leave the rest waiting. |
| Simulation.Dispatch | carrental.c:237-269 | Population changes by +1 on an arrival, −1 on an unload that finds a match and 0 otherwise. Each kind has the effect of its own handler: an arrival extends that stop's queue; a bus arrival records the time and changes nothing else; a departure only advances the location; an unload leaves the bus as the unload scan does; a load with room boards the stop's front person. The end event changes nothing. |
| Simulation.DispatchBusRoutes | carrental.c:250-265 | The four bus event kinds go to `bus_arrive`, `bus_depart`, `person_unload` and `person_load`, each called with the bus location. |
| Simulation.DispatchArrivalRoundTrip | carrental.c:237-249 | The arrival kind scheduled for a stop is dispatched back to that stop's arrival handler. |
| Simulation.Step | carrental.c:224-275 | Sets the clock to the time of the earliest event. The loop ends exactly on the end event, which removes only itself from the list, and finds nothing to take exactly when the list is empty. Population changes by the taken event's kind: +1 on an arrival, −1 on an unload that finds a match, 0 otherwise. |
| Simulation.StepRunsHandler | carrental.c:224-275 | A step removes the earliest event from the list. For each kind it then runs that kind's handler (arrivals at their own stop, bus events at the bus location) and carries out the handler's schedules and cancellations on the rest of the list. |
| Simulation.LoadEvents | carrental.c:146-157 | A load step adds one further load step while people still wait, and adds nothing when the last waiting person boarded. When nobody could board, it adds one departure after the updated dwell. Nothing is removed. |
| Simulation.Initial | carrental.c:206-219 | The simulation starts at time 0 with the bus at the car rental and its last arrival time 0. Nobody is in the system, the dwell is 5 minutes and five events are pending. |
| Simulation.InitialInv | carrental.c:206-219 | The initial list holds exactly the bus arrival at 0, the three first arrivals and the end at 80 hours. The bus starts at the car rental at time 0, nobody is in the system yet, the dwell is 5 minutes and the invariant holds. |
| Simulation.StepKeepsInv | carrental.c:224-275 | Each step keeps the list sorted with nothing in the past and the bus within capacity. The clock never goes back, and the dwell never grows. |
| Simulation.RunSnoc | carrental.c:224-275 | The `main` loop is a repetition of single steps: running one more draw takes one more step from where the shorter run stopped, and after the end event or an empty list nothing changes. |
| Simulation.RunKeepsInv | carrental.c:224-275 | The same facts hold over any number of steps. |
| Simulation.DwellNeverExceedsInitial | carrental.c:35 | From the initial state, the global dwell time stays between 0 and 300 seconds and the bus never exceeds 20 people. |
| Simulation.PersonArriveEvents | carrental.c:50-75 | An arrival adds the next arrival to the list. At the bus's stop it also adds a load step and removes the first pending departure; nothing else on the list changes. |
| Simulation.SingleFollowUp | carrental.c:78-141 | Bus arrival, bus departure and unload each add exactly one event to the list and remove none. |
| Simulation.ArrivalAheadOfBusSchedulesLoad | carrental.c:71-72 | Since the location is advanced at departure, a person arriving at the stop the bus is still driving to gets a load step scheduled. |

## Left out

- simlib (`timing`, `event_schedule`, `event_cancel`, `list_file`, `list_remove`, `transfer`, `list_size`) is not part of this model's source. Three of its behaviours are assumed here, following its documentation:
  - the event list is ordered by time, with ties in filing order;
  - `event_cancel` removes the first pending event of the kind;
  - `timing()` on an empty list is modelled as the `Exhausted` outcome.
- The order of events scheduled for the same time is not specified in this source. The model files a new event behind every pending event with the same time, following simlib's time-ordered list.
- simlib's check in `timing()` for an event lying in the past is not modelled. `Simulation.StepKeepsInv` shows no such event exists.
- Random variates (`expon`, `uniform`) and their stream numbers are not modelled. Draws are passed in as a `Draws` record, and `ValidDraws` states their ranges. The unused draw at `carrental.c:211` only advances a stream, so it has no effect in the model.
- Floating-point arithmetic is modelled as exact real arithmetic, so IEEE rounding of the clock, the speed and the travel time is not modelled.
- Handlers.Truncate: treats the double→int conversion as exact truncation of a real and does not model values outside the int range.
- `report`, the output file and the debug `printf`s in `main` are left out because they are I/O only.
- There is no statistics gathering in this source to model.
