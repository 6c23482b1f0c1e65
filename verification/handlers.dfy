/** The simulation state and the five event handlers: a person arriving at
    a stop, the bus arriving, the bus departing, one unload step and one
    load step. Each handler is a pure transition from the state before the
    event to the state after it, paired with the schedules and
    cancellations it asks of the event list, in the order it makes them. */
module Handlers {
  import opened ShuttleTypes
  import opened EventList
  import opened Cabin

  /** Everything the handlers read and write apart from the event list:
      the clock, the three stop queues, the bus cabin queue, the stop the
      bus is at or driving to, the clock value of the bus's last arrival
      and the remaining dwell time (an integer number of seconds). */
  datatype State = State(
    clock: real,
    rental: seq<Person>,
    terminal1: seq<Person>,
    terminal2: seq<Person>,
    bus: seq<Person>,
    location: Location,
    lastArrive: real,
    waitTime: int)
  {
    /** The queue of people waiting at stop `l`. */
    function Queue(l: Location): seq<Person> {
      match l
      case Rental => rental
      case Terminal1 => terminal1
      case Terminal2 => terminal2
    }

    /** This state with the queue at stop `l` replaced by `q`. */
    function WithQueue(l: Location, q: seq<Person>): (s: State)
      ensures s.Queue(l) == q
      ensures forall m :: m != l ==> s.Queue(m) == Queue(m)
      ensures s.bus == bus && s.clock == clock
      ensures s.location == location && s.lastArrive == lastArrive && s.waitTime == waitTime
    {
      match l
      case Rental => this.(rental := q)
      case Terminal1 => this.(terminal1 := q)
      case Terminal2 => this.(terminal2 := q)
    }

    /** Number of people in the system: waiting at any stop or on the bus. */
    function Population(): nat {
      |rental| + |terminal1| + |terminal2| + |bus|
    }
  }

  /** Replacing one stop queue changes the population by the change in that queue's length. */
  lemma WithQueuePopulation(s: State, l: Location, q: seq<Person>)
    ensures s.WithQueue(l, q).Population() == s.Population() - |s.Queue(l)| + |q|
  {
  }

  /** The three stop queues of `r` and `s` agree. */
  ghost predicate SameQueues(s: State, r: State) {
    forall l :: r.Queue(l) == s.Queue(l)
  }

  /** Conversion of a double to an int, which truncates toward zero. */
  function Truncate(x: real): (n: int)
    ensures 0.0 <= x ==> n as real <= x < n as real + 1.0
    ensures x < 0.0 ==> n as real - 1.0 < x <= n as real
  {
    if x >= 0.0 then x.Floor else -((-x).Floor)
  }

  /** The update of the remaining dwell time when the bus is about to be
      sent off: what is left of `wait` after `elapsed` seconds at the stop,
      truncated to whole seconds, or 0 when `wait` has run out. The result
      lies between 0 and `wait`, and the departure it sets up comes within
      one second before the end of the dwell. */
  function RemainingDwell(wait: int, elapsed: real): (w: int)
    ensures elapsed > wait as real ==> w == 0
    ensures 0.0 <= elapsed <= wait as real ==>
              wait as real - elapsed - 1.0 < w as real <= wait as real - elapsed
    ensures 0.0 <= elapsed && 0 <= wait ==> 0 <= w <= wait
  {
    if elapsed > wait as real then 0 else Truncate(wait as real - elapsed)
  }

  /** The result of one handler: the new state and, in order, the
      schedules and cancellations it asks of the event list. */
  datatype Transition = Transition(state: State, actions: seq<Action>)

  /** A person arrives at stop `loc`. The next arrival at that stop is
      scheduled, and the person joins the back of the stop's queue with the
      current clock as arrival time. If the bus is at `loc` (or driving to
      it, since the location is advanced at departure), a load step is
      scheduled and a pending departure is cancelled; otherwise no bus
      event is touched. */
  function PersonArrive(s: State, loc: Location, d: Draws): (t: Transition)
    ensures t.state.Queue(loc) == s.Queue(loc) + [Person(s.clock, Destination(loc, d.destination))]
    ensures forall l :: l != loc ==> t.state.Queue(l) == s.Queue(l)
    ensures t.state.bus == s.bus && t.state.location == s.location && t.state.clock == s.clock
    ensures t.state.lastArrive == s.lastArrive && t.state.waitTime == s.waitTime
    ensures t.state.Population() == s.Population() + 1
    ensures |t.actions| >= 1 && t.actions[0] == Post(Event(s.clock + d.interarrival, ArrivalKind(loc)))
    ensures s.location == loc ==>
              t.actions[1..] == [Post(Event(s.clock + d.load, LoadPerson)), Revoke(BusDeparture)]
    ensures s.location != loc ==> |t.actions| == 1
  {
    var next := Event(s.clock + d.interarrival, ArrivalKind(loc));
    var person := Person(s.clock, Destination(loc, d.destination));
    WithQueuePopulation(s, loc, s.Queue(loc) + [person]);
    var s1 := s.WithQueue(loc, s.Queue(loc) + [person]);
    if s.location == loc then
      Transition(s1, [Post(next), Post(Event(s.clock + d.load, LoadPerson)), Revoke(BusDeparture)])
    else
      Transition(s1, [Post(next)])
  }

  /** The bus arrives at `loc`. The arrival time is recorded and exactly
      one follow-up is scheduled: an unload step if anyone is on board,
      otherwise a load step if people wait at `loc`, otherwise a departure
      after the full remaining dwell time. Capacity is not checked here. */
  function BusArrive(s: State, loc: Location, d: Draws): (t: Transition)
    ensures t.state == s.(lastArrive := s.clock)
    ensures |t.actions| == 1 && t.actions[0].Post?
    ensures |s.bus| > 0 ==> t.actions[0].event == Event(s.clock + d.unload, UnloadPerson)
    ensures |s.bus| == 0 && |s.Queue(loc)| > 0 ==> t.actions[0].event == Event(s.clock + d.load, LoadPerson)
    ensures |s.bus| == 0 && |s.Queue(loc)| == 0 ==>
              t.actions[0].event == Event(s.clock + s.waitTime as real, BusDeparture)
  {
    var e :=
      if |s.bus| > 0 then Event(s.clock + d.unload, UnloadPerson)
      else if |s.Queue(loc)| > 0 then Event(s.clock + d.load, LoadPerson)
      else Event(s.clock + s.waitTime as real, BusDeparture);
    Transition(s.(lastArrive := s.clock), [Post(e)])
  }

  /** The bus leaves `loc`. Its arrival at the next stop of the loop is
      scheduled after the travel time (2 minutes from terminal 1 to
      terminal 2, 9 minutes on the two long legs), and its location becomes
      that stop straight away; nothing else changes. */
  function BusDepart(s: State, loc: Location): (t: Transition)
    ensures t.state.location == Next(loc) && t.state.location != loc
    ensures t.state.(location := s.location) == s
    ensures |t.actions| == 1 && t.actions[0].Post? && t.actions[0].event.kind == BusArrival
    ensures t.actions[0].event.time == s.clock + (if loc == Terminal1 then 120.0 else 540.0)
  {
    Transition(s.(location := Next(loc)), [Post(Event(s.clock + TravelTime(loc), BusArrival))])
  }

  /** Three departures, each from the stop the bus is at, bring the bus
      back to where it started with nothing else changed, after 20 minutes
      of scheduled driving. */
  lemma ThreeDeparturesReturn(s: State)
    ensures var t1 := BusDepart(s, s.location);
      var t2 := BusDepart(t1.state, t1.state.location);
      var t3 := BusDepart(t2.state, t2.state.location);
      && t3.state == s
      && t1.state.location != s.location && t2.state.location != s.location
      && (t1.actions[0].event.time - s.clock) + (t2.actions[0].event.time - s.clock)
           + (t3.actions[0].event.time - s.clock) == 1200.0
  {
    LoopClosesAfterThreeDepartures(s.location);
  }

  /** The state after the unload scan at `loc`: the front-most passenger
      bound for `loc` has left and the cabin queue is rotated past it, or
      nobody was bound for `loc` and nothing changed. */
  function Unloaded(s: State, loc: Location): (r: State)
    ensures match FirstBound(s.bus, loc)
      case None => r.bus == s.bus && r.Population() == s.Population()
      case Some(j) =>
        r.bus == s.bus[j + 1..] + s.bus[..j] && r.Population() == s.Population() - 1
    ensures SameQueues(s, r) && r.location == s.location && r.waitTime == s.waitTime
    ensures r.clock == s.clock && r.lastArrive == s.lastArrive
  {
    var r := s.(bus := Alight(s.bus, loc).rest);
    assert SameQueues(s, r);
    r
  }

  /** One unload step at `loc`. The front-most passenger bound for `loc`
      leaves the bus and the rest of the cabin queue is rotated (see
      Unloaded); exactly one event is scheduled: another unload step if
      someone left and someone is still on board, otherwise a load step if
      people wait at `loc`, otherwise a departure after the updated
      remaining dwell time. */
  function PersonUnload(s: State, loc: Location, d: Draws): (t: Transition)
    ensures t.state == Unloaded(s, loc).(waitTime := t.state.waitTime)
    ensures |t.actions| == 1 && t.actions[0].Post?
    ensures var more := FirstBound(s.bus, loc).Some? && |s.bus| > 1;
      && (more ==>
            t.state.waitTime == s.waitTime
            && t.actions[0].event == Event(s.clock + d.unload, UnloadPerson))
      && (!more && |s.Queue(loc)| > 0 ==>
            t.state.waitTime == s.waitTime
            && t.actions[0].event == Event(s.clock + d.load, LoadPerson))
      && (!more && |s.Queue(loc)| == 0 ==>
            t.state.waitTime == RemainingDwell(s.waitTime, s.clock - s.lastArrive)
            && t.actions[0].event == Event(s.clock + t.state.waitTime as real, BusDeparture))
  {
    var s1 := Unloaded(s, loc);
    if FirstBound(s.bus, loc).Some? && |s1.bus| > 0 then
      Transition(s1, [Post(Event(s.clock + d.unload, UnloadPerson))])
    else if |s.Queue(loc)| > 0 then
      Transition(s1, [Post(Event(s.clock + d.load, LoadPerson))])
    else
      var w := RemainingDwell(s.waitTime, s.clock - s.lastArrive);
      Transition(s1.(waitTime := w), [Post(Event(s.clock + w as real, BusDeparture))])
  }

  /** One load step at `loc`. If the bus has room and people wait at `loc`,
      the person at the front of the stop's queue moves to the back of the
      bus, and another load step is scheduled only if people still wait;
      otherwise nothing is scheduled. If the bus is full or nobody waits,
      only a departure is scheduled, after the updated remaining dwell time. */
  function PersonLoad(s: State, loc: Location, d: Draws): (t: Transition)
    ensures |s.bus| < Capacity && |s.Queue(loc)| > 0 ==>
              && t.state.bus == s.bus + [s.Queue(loc)[0]]
              && t.state.Queue(loc) == s.Queue(loc)[1..]
              && t.state.waitTime == s.waitTime
              && (|s.Queue(loc)| > 1 <==> t.actions == [Post(Event(s.clock + d.load, LoadPerson))])
              && (|s.Queue(loc)| == 1 <==> t.actions == [])
    ensures !(|s.bus| < Capacity && |s.Queue(loc)| > 0) ==>
              && t.state.bus == s.bus && t.state.Queue(loc) == s.Queue(loc)
              && t.state.waitTime == RemainingDwell(s.waitTime, s.clock - s.lastArrive)
              && t.actions == [Post(Event(s.clock + t.state.waitTime as real, BusDeparture))]
    ensures forall l :: l != loc ==> t.state.Queue(l) == s.Queue(l)
    ensures t.state.location == s.location && t.state.clock == s.clock
    ensures t.state.lastArrive == s.lastArrive
    ensures t.state.Population() == s.Population()
    ensures |s.bus| <= Capacity ==> |t.state.bus| <= Capacity
  {
    var q := s.Queue(loc);
    if |s.bus| < Capacity && |q| > 0 then
      WithQueuePopulation(s, loc, q[1..]);
      var s1 := s.WithQueue(loc, q[1..]).(bus := s.bus + [q[0]]);
      if |q[1..]| > 0 then
        Transition(s1, [Post(Event(s.clock + d.load, LoadPerson))])
      else
        Transition(s1, [])
    else
      var w := RemainingDwell(s.waitTime, s.clock - s.lastArrive);
      Transition(s.(waitTime := w), [Post(Event(s.clock + w as real, BusDeparture))])
  }

  /** The state after `n` load steps in a row at `loc`. */
  function Loads(s: State, loc: Location, d: Draws, n: nat): State
    decreases n
  {
    if n == 0 then s else Loads(PersonLoad(s, loc, d).state, loc, d, n - 1)
  }

  /** While the bus has room, consecutive load steps take the people at the
      front of the stop's queue onto the back of the bus in queue order:
      after `n` steps the first `n` waiting people have boarded, the rest
      still wait, and the dwell time is untouched. */
  lemma {:induction false} LoadsBoardInQueueOrder(s: State, loc: Location, d: Draws, n: nat)
    requires n <= |s.Queue(loc)| && |s.bus| + n <= Capacity
    ensures Loads(s, loc, d, n).bus == s.bus + s.Queue(loc)[..n]
    ensures Loads(s, loc, d, n).Queue(loc) == s.Queue(loc)[n..]
    ensures Loads(s, loc, d, n).waitTime == s.waitTime
    decreases n
  {
    if n > 0 {
      var q := s.Queue(loc);
      var s1 := PersonLoad(s, loc, d).state;
      LoadsBoardInQueueOrder(s1, loc, d, n - 1);
      BoardFront(s.bus, q, n);
    }
  }

  lemma BoardFront(bus: seq<Person>, q: seq<Person>, n: nat)
    requires 0 < n <= |q|
    ensures (bus + [q[0]]) + q[1..][..n - 1] == bus + q[..n]
    ensures q[1..][n - 1..] == q[n..]
  {
    assert q[..n] == [q[0]] + q[1..n];
    assert q[1..][..n - 1] == q[1..n];
  }
}
