/** The driver: the initial event list, the dispatch of an event to its
    handler, one step of the event loop (take the earliest event, advance
    the clock, run the handler, carry out its schedules and
    cancellations), and a run of many steps. */
module Simulation {
  import opened ShuttleTypes
  import opened EventList
  import opened Cabin
  import opened Handlers

  /** The whole simulation: the handlers' state and the event list. */
  datatype Sim = Sim(state: State, events: seq<Event>)

  /** What one step of the event loop leads to: the loop goes on, the
      end-of-simulation event was handled, or there was no event to take. */
  datatype Outcome = Running(sim: Sim) | Finished(sim: Sim) | Exhausted

  /** Runs the handler for an event of kind `k`. A person-arrival event
      goes to its own stop; the bus events go to the stop the bus is at
      (or driving to); the end event does nothing here. The number of
      people in the system grows by one on an arrival, shrinks by one on an
      unload step that finds a passenger for the stop, and is unchanged on
      every other event. */
  function Dispatch(s: State, k: EventKind, d: Draws): (t: Transition)
    ensures t.state.clock == s.clock
    ensures ArrivalLocation(k).Some? ==> t.state.Population() == s.Population() + 1
    ensures k == UnloadPerson && FirstBound(s.bus, s.location).Some? ==>
              t.state.Population() == s.Population() - 1
    ensures k == UnloadPerson && FirstBound(s.bus, s.location).None? ==>
              t.state.Population() == s.Population()
    ensures ArrivalLocation(k).None? && k != UnloadPerson ==>
              t.state.Population() == s.Population()
    ensures k == EndSimulation ==> t.state == s && t.actions == []
    ensures ArrivalLocation(k).Some? ==>
              var l := ArrivalLocation(k).value;
              t.state.Queue(l) == s.Queue(l) + [Person(s.clock, Destination(l, d.destination))]
    ensures k == BusArrival ==> t.state == s.(lastArrive := s.clock)
    ensures k == BusDeparture ==> t.state == s.(location := Next(s.location))
    ensures k == UnloadPerson ==> t.state.bus == Alight(s.bus, s.location).rest
    ensures k == LoadPerson && |s.bus| < Capacity && |s.Queue(s.location)| > 0 ==>
              t.state.bus == s.bus + [s.Queue(s.location)[0]]
  {
    match k
    case ArrivalRental => PersonArrive(s, Rental, d)
    case ArrivalTerminal1 => PersonArrive(s, Terminal1, d)
    case ArrivalTerminal2 => PersonArrive(s, Terminal2, d)
    case BusArrival => BusArrive(s, s.location, d)
    case BusDeparture => BusDepart(s, s.location)
    case UnloadPerson => PersonUnload(s, s.location, d)
    case LoadPerson => PersonLoad(s, s.location, d)
    case EndSimulation => Transition(s, [])
  }

  /** The arrival event a handler schedules for stop `l` is dispatched back
      to the arrival handler of stop `l`. */
  lemma DispatchArrivalRoundTrip(s: State, l: Location, d: Draws)
    ensures Dispatch(s, ArrivalKind(l), d) == PersonArrive(s, l, d)
  {
  }

  /** The four bus events go to their own handlers, each run at the stop
      the bus is at (or driving to). */
  lemma DispatchBusRoutes(s: State, d: Draws)
    ensures Dispatch(s, BusArrival, d) == BusArrive(s, s.location, d)
    ensures Dispatch(s, BusDeparture, d) == BusDepart(s, s.location)
    ensures Dispatch(s, UnloadPerson, d) == PersonUnload(s, s.location, d)
    ensures Dispatch(s, LoadPerson, d) == PersonLoad(s, s.location, d)
  {
  }

  /** One pass of the event loop. The earliest pending event is taken off
      the list and the clock moves to its time; its handler runs and its
      schedules and cancellations are carried out on the remaining list. */
  function Step(m: Sim, d: Draws): (o: Outcome)
    ensures m.events == [] <==> o.Exhausted?
    ensures m.events != [] ==> (o.Finished? <==> m.events[0].kind == EndSimulation)
    ensures m.events != [] ==> o.sim.state.clock == m.events[0].time
    ensures Sorted(m.events) && !o.Exhausted? ==>
              forall e :: e in m.events ==> o.sim.state.clock <= e.time
    ensures m.events != [] ==>
              var k := m.events[0].kind;
              var p := m.state.Population();
              && (ArrivalLocation(k).Some? ==> o.sim.state.Population() == p + 1)
              && (k == UnloadPerson && FirstBound(m.state.bus, m.state.location).Some? ==>
                    o.sim.state.Population() == p - 1)
              && (k == UnloadPerson && FirstBound(m.state.bus, m.state.location).None? ==>
                    o.sim.state.Population() == p)
              && (ArrivalLocation(k).None? && k != UnloadPerson ==> o.sim.state.Population() == p)
    ensures m.events != [] && m.events[0].kind == EndSimulation ==>
              o.sim == Sim(m.state.(clock := m.events[0].time), m.events[1..])
  {
    if m.events == [] then
      Exhausted
    else
      var e := m.events[0];
      HeadIsEarliest(m.events);
      var t := Dispatch(m.state.(clock := e.time), e.kind, d);
      var next := Sim(t.state, Apply(m.events[1..], t.actions));
      if e.kind == EndSimulation then Finished(next) else Running(next)
  }

  /** Steps the loop once per draw in `ds`, stopping early when the end
      event is handled or the list runs dry. */
  function Run(m: Sim, ds: seq<Draws>): Outcome
    decreases |ds|
  {
    if ds == [] then
      Running(m)
    else
      match Step(m, ds[0])
      case Running(m1) => Run(m1, ds[1..])
      case other => other
  }

  /** Running one more draw continues from where the shorter run stopped:
      it takes one more step if the loop was still running, and otherwise
      changes nothing. */
  lemma {:induction false} RunSnoc(m: Sim, ds: seq<Draws>, d: Draws)
    ensures Run(m, ds + [d]) ==
              match Run(m, ds)
              case Running(m1) => Step(m1, d)
              case o => o
    decreases |ds|
  {
    if ds == [] {
      assert [] + [d] == [d];
      assert [d][1..] == [];
    } else {
      assert (ds + [d])[0] == ds[0];
      assert (ds + [d])[1..] == ds[1..] + [d];
      match Step(m, ds[0])
      case Running(m1) =>
        RunSnoc(m1, ds[1..], d);
      case Finished(_) =>
      case Exhausted =>
    }
  }

  /** The initial event list: the bus arrives at the rental counter at time
      0, the first person arrives at each stop after the given
      interarrival times, and the simulation ends after 80 hours. The bus
      starts at the rental counter with empty queues everywhere and the
      full 5-minute dwell. */
  function Initial(rental: real, terminal1: real, terminal2: real): (m: Sim)
    ensures m.state.location == Rental && m.state.clock == 0.0 && m.state.lastArrive == 0.0
    ensures m.state.Population() == 0 && m.state.waitTime == InitialWait
    ensures |m.events| == 5
  {
    var s := State(0.0, [], [], [], [], Rental, 0.0, InitialWait);
    var q1 := Schedule([], Event(0.0, BusArrival));
    var q2 := Schedule(q1, Event(rental, ArrivalRental));
    var q3 := Schedule(q2, Event(terminal1, ArrivalTerminal1));
    var q4 := Schedule(q3, Event(terminal2, ArrivalTerminal2));
    Sim(s, Schedule(q4, Event(SimulationLength, EndSimulation)))
  }

  /** What every step keeps true: the event list is in time order and holds
      no event in the past, the bus arrived no later than now, the
      remaining dwell time is not negative, and the bus is not over
      capacity. */
  ghost predicate Inv(m: Sim) {
    && Sorted(m.events)
    && NoneBefore(m.events, m.state.clock)
    && m.state.lastArrive <= m.state.clock
    && 0 <= m.state.waitTime
    && |m.state.bus| <= Capacity
  }

  /** The initial simulation starts at time 0 with the bus at the rental
      counter and nobody in the system, holds the five initial events and
      satisfies the invariant. */
  lemma InitialInv(rental: real, terminal1: real, terminal2: real)
    requires 0.0 <= rental && 0.0 <= terminal1 && 0.0 <= terminal2
    ensures var m := Initial(rental, terminal1, terminal2);
      && Inv(m)
      && m.state.location == Rental && m.state.clock == 0.0 && m.state.lastArrive == 0.0
      && m.state.Population() == 0
      && m.state.waitTime == InitialWait
      && multiset(m.events) == multiset{Event(0.0, BusArrival), Event(rental, ArrivalRental),
                                        Event(terminal1, ArrivalTerminal1),
                                        Event(terminal2, ArrivalTerminal2),
                                        Event(SimulationLength, EndSimulation)}
  {
    InitialOrdered(rental, terminal1, terminal2);
  }

  lemma InitialOrdered(rental: real, terminal1: real, terminal2: real)
    requires 0.0 <= rental && 0.0 <= terminal1 && 0.0 <= terminal2
    ensures var q := Initial(rental, terminal1, terminal2).events;
      Sorted(q) && NoneBefore(q, 0.0)
  {
    var q1 := Schedule([], Event(0.0, BusArrival));
    var q2 := Schedule(q1, Event(rental, ArrivalRental));
    var q3 := Schedule(q2, Event(terminal1, ArrivalTerminal1));
    var q4 := Schedule(q3, Event(terminal2, ArrivalTerminal2));
    ScheduleNoneBefore([], Event(0.0, BusArrival), 0.0);
    ScheduleNoneBefore(q1, Event(rental, ArrivalRental), 0.0);
    ScheduleNoneBefore(q2, Event(terminal1, ArrivalTerminal1), 0.0);
    ScheduleNoneBefore(q3, Event(terminal2, ArrivalTerminal2), 0.0);
    ScheduleNoneBefore(q4, Event(SimulationLength, EndSimulation), 0.0);
  }

  /** Facts a handler keeps when given draws the random source can
      produce: it leaves the clock alone, schedules nothing in the past,
      never lets the remaining dwell time grow or go negative, keeps the
      last arrival no later than now and the bus within capacity. */
  lemma DispatchKeepsBounds(s: State, k: EventKind, d: Draws)
    requires ValidDraws(d)
    requires s.lastArrive <= s.clock && 0 <= s.waitTime && |s.bus| <= Capacity
    ensures var t := Dispatch(s, k, d);
      && PostsNoneBefore(t.actions, s.clock)
      && t.state.lastArrive <= t.state.clock
      && 0 <= t.state.waitTime <= s.waitTime
      && |t.state.bus| <= Capacity
  {
    var t := Dispatch(s, k, d);
    match k
    case ArrivalRental =>
    case ArrivalTerminal1 =>
    case ArrivalTerminal2 =>
    case BusArrival =>
    case BusDeparture =>
    case UnloadPerson =>
      var fb := FirstBound(s.bus, s.location);
      assert |t.state.bus| <= |s.bus|;
    case LoadPerson =>
    case EndSimulation =>
  }

  /** Every step keeps the invariant, never moves the clock back and never
      lets the remaining dwell time grow. */
  lemma StepKeepsInv(m: Sim, d: Draws)
    requires Inv(m) && ValidDraws(d)
    ensures var o := Step(m, d);
      !o.Exhausted? ==>
        && Inv(o.sim)
        && m.state.clock <= o.sim.state.clock
        && o.sim.state.waitTime <= m.state.waitTime
  {
    if m.events != [] {
      var e := m.events[0];
      var s := m.state.(clock := e.time);
      assert e in m.events;
      HeadIsEarliest(m.events);
      var tail := m.events[1..];
      assert Sorted(tail);
      assert NoneBefore(tail, e.time) by {
        forall x | x in tail
          ensures e.time <= x.time
        {
          assert x in m.events;
        }
      }
      DispatchKeepsBounds(s, e.kind, d);
      var t := Dispatch(s, e.kind, d);
      ApplyKeepsOrder(tail, t.actions, e.time);
    }
  }

  /** Over any number of steps the invariant holds, the clock never moves
      back, and the remaining dwell time never grows: once it has been
      used up it is never restored. */
  lemma {:induction false} RunKeepsInv(m: Sim, ds: seq<Draws>)
    requires Inv(m)
    requires forall i :: 0 <= i < |ds| ==> ValidDraws(ds[i])
    ensures var o := Run(m, ds);
      !o.Exhausted? ==>
        && Inv(o.sim)
        && m.state.clock <= o.sim.state.clock
        && o.sim.state.waitTime <= m.state.waitTime
    decreases |ds|
  {
    if ds != [] {
      StepKeepsInv(m, ds[0]);
      match Step(m, ds[0])
      case Running(m1) =>
        assert forall i :: 0 <= i < |ds[1..]| ==> ValidDraws(ds[1..][i]) by {
          forall i | 0 <= i < |ds[1..]|
            ensures ValidDraws(ds[1..][i])
          {
            assert ds[1..][i] == ds[i + 1];
          }
        }
        RunKeepsInv(m1, ds[1..]);
      case Finished(_) =>
      case Exhausted =>
    }
  }

  /** From the initial state, the bus is never over capacity and the
      remaining dwell time stays between 0 and the initial 5 minutes. */
  lemma DwellNeverExceedsInitial(rental: real, terminal1: real, terminal2: real, ds: seq<Draws>)
    requires 0.0 <= rental && 0.0 <= terminal1 && 0.0 <= terminal2
    requires forall i :: 0 <= i < |ds| ==> ValidDraws(ds[i])
    ensures var o := Run(Initial(rental, terminal1, terminal2), ds);
      !o.Exhausted? ==>
        && 0 <= o.sim.state.waitTime <= InitialWait
        && |o.sim.state.bus| <= Capacity
  {
    InitialInv(rental, terminal1, terminal2);
    RunKeepsInv(Initial(rental, terminal1, terminal2), ds);
  }

  /** The event-list effect of a person arriving: the next arrival at the
      stop is added and, when the bus is at (or driving to) that stop, a
      load step is added and the first pending departure is removed. */
  lemma PersonArriveEvents(s: State, loc: Location, d: Draws, q: seq<Event>)
    ensures var t := PersonArrive(s, loc, d);
      var next := Event(s.clock + d.interarrival, ArrivalKind(loc));
      var load := Event(s.clock + d.load, LoadPerson);
      && (s.location != loc ==> multiset(Apply(q, t.actions)) == multiset(q) + multiset{next})
      && (s.location == loc ==>
            multiset(Apply(q, t.actions)) + Cancelled(q, BusDeparture) ==
              multiset(q) + multiset{next, load})
  {
    var t := PersonArrive(s, loc, d);
    var next := Event(s.clock + d.interarrival, ArrivalKind(loc));
    var load := Event(s.clock + d.load, LoadPerson);
    if s.location == loc {
      ApplyThree(q, Post(next), Post(load), Revoke(BusDeparture));
      PostPostRevoke(q, next, load, BusDeparture);
    } else {
      ApplyOne(q, Post(next));
    }
  }

  /** Scheduling two events of other kinds and then cancelling kind `k`
      removes the event of kind `k` that was first before the two were added. */
  lemma PostPostRevoke(q: seq<Event>, x: Event, y: Event, k: EventKind)
    requires x.kind != k && y.kind != k
    ensures multiset(Cancel(Schedule(Schedule(q, x), y), k)) + Cancelled(q, k) ==
              multiset(q) + multiset{x, y}
  {
    var q1 := Schedule(q, x);
    var q2 := Schedule(q1, y);
    var c := Cancel(q2, k);
    assert multiset(c) + Cancelled(q2, k) == multiset(q2);
    assert multiset(q2) == multiset(q) + multiset{x, y};
    assert Cancelled(q2, k) == Cancelled(q, k) by {
      ScheduleKeepsCancelled(q, x, k);
      ScheduleKeepsCancelled(q1, y, k);
    }
  }

  lemma ApplyOne(q: seq<Event>, a: Action)
    ensures Apply(q, [a]) == Perform(q, a)
  {
    ApplyCons(q, a, []);
    assert [a] + [] == [a];
  }

  lemma ApplyThree(q: seq<Event>, a: Action, b: Action, c: Action)
    ensures Apply(q, [a, b, c]) == Perform(Perform(Perform(q, a), b), c)
  {
    var q1 := Perform(q, a);
    var q2 := Perform(q1, b);
    ApplyCons(q, a, [b, c]);
    assert [a] + [b, c] == [a, b, c];
    ApplyCons(q1, b, [c]);
    assert [b] + [c] == [b, c];
    ApplyOne(q2, c);
  }

  /** The bus handlers and the unload step each add exactly one event to
      the list and remove none. */
  lemma SingleFollowUp(s: State, k: EventKind, d: Draws, q: seq<Event>)
    requires k in {BusArrival, BusDeparture, UnloadPerson}
    ensures var t := Dispatch(s, k, d);
      |t.actions| == 1 && t.actions[0].Post?
      && multiset(Apply(q, t.actions)) == multiset(q) + multiset{t.actions[0].event}
  {
    var t := Dispatch(s, k, d);
    assert Apply(q, t.actions) == Schedule(q, t.actions[0].event);
  }

  /** A step takes the earliest event off the list and runs the handler
      for its kind on the rest: arrivals at their own stop, the bus events
      at the bus's stop; the end event runs nothing and stops the loop. */
  lemma StepRunsHandler(m: Sim, d: Draws)
    requires m.events != []
    ensures var e := m.events[0];
      var s := m.state.(clock := e.time);
      var q := m.events[1..];
      && (ArrivalLocation(e.kind).Some? ==>
            var t := PersonArrive(s, ArrivalLocation(e.kind).value, d);
            Step(m, d) == Running(Sim(t.state, Apply(q, t.actions))))
      && (e.kind == BusArrival ==>
            var t := BusArrive(s, s.location, d);
            Step(m, d) == Running(Sim(t.state, Apply(q, t.actions))))
      && (e.kind == BusDeparture ==>
            var t := BusDepart(s, s.location);
            Step(m, d) == Running(Sim(t.state, Apply(q, t.actions))))
      && (e.kind == UnloadPerson ==>
            var t := PersonUnload(s, s.location, d);
            Step(m, d) == Running(Sim(t.state, Apply(q, t.actions))))
      && (e.kind == LoadPerson ==>
            var t := PersonLoad(s, s.location, d);
            Step(m, d) == Running(Sim(t.state, Apply(q, t.actions))))
      && (e.kind == EndSimulation ==> Step(m, d) == Finished(Sim(s, q)))
  {
    var e := m.events[0];
    var s := m.state.(clock := e.time);
    DispatchBusRoutes(s, d);
    if ArrivalLocation(e.kind).Some? {
      var l := ArrivalLocation(e.kind).value;
      ArrivalKindRoundTrip(l, e.kind);
      DispatchArrivalRoundTrip(s, l, d);
    }
    if e.kind == EndSimulation {
      assert Apply(m.events[1..], []) == m.events[1..];
    }
  }

  /** A load step's schedules, carried out on a list `q`: a further load
      step while people still wait, nothing when the last waiting person
      boarded, a departure after the updated dwell when nobody could board. */
  lemma LoadEvents(s: State, d: Draws, q: seq<Event>)
    ensures var n := |s.Queue(s.location)|;
      var r := Apply(q, PersonLoad(s, s.location, d).actions);
      && (|s.bus| < Capacity && n > 1 ==>
            multiset(r) == multiset(q) + multiset{Event(s.clock + d.load, LoadPerson)})
      && (|s.bus| < Capacity && n == 1 ==> r == q)
      && (!(|s.bus| < Capacity && n > 0) ==>
            var w := RemainingDwell(s.waitTime, s.clock - s.lastArrive);
            multiset(r) == multiset(q) + multiset{Event(s.clock + w as real, BusDeparture)})
  {
    var t := PersonLoad(s, s.location, d);
    var n := |s.Queue(s.location)|;
    if |s.bus| < Capacity && n > 1 {
      var x := Event(s.clock + d.load, LoadPerson);
      assert t.actions == [Post(x)];
      ApplyOne(q, Post(x));
    } else if |s.bus| < Capacity && n == 1 {
      assert t.actions == [];
    } else if !(|s.bus| < Capacity && n > 0) {
      var w := RemainingDwell(s.waitTime, s.clock - s.lastArrive);
      var x := Event(s.clock + w as real, BusDeparture);
      assert t.actions == [Post(x)];
      ApplyOne(q, Post(x));
    }
  }

  /** The location is advanced when the bus leaves, so a person who arrives
      at the stop the bus is driving to is handled as if the bus were
      there: a load step is scheduled before the bus has arrived. */
  lemma ArrivalAheadOfBusSchedulesLoad(s: State, d: Draws)
    ensures var driving := BusDepart(s, s.location).state;
      var t := PersonArrive(driving, Next(s.location), d);
      Post(Event(s.clock + d.load, LoadPerson)) in t.actions
  {
    var driving := BusDepart(s, s.location).state;
    var t := PersonArrive(driving, Next(s.location), d);
    assert t.actions[1] == Post(Event(s.clock + d.load, LoadPerson));
  }
}
