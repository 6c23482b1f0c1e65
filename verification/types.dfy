/** Entities and fixed parameters of the car-rental shuttle simulation:
    the three stops, the people waiting or riding, the kinds of events on
    the event list, and the random draws one event handler consumes. */
module ShuttleTypes {

  datatype Option<T> = None | Some(value: T)

  /** The three stops of the loop. The program numbers them
      1 (terminal 1), 2 (terminal 2) and 3 (car rental). */
  datatype Location = Terminal1 | Terminal2 | Rental

  /** A person in a stop queue or on the bus: the clock value at which the
      person arrived at the origin stop, and where the person wants to go. */
  datatype Person = Person(arrivalTime: real, destination: Location)

  /** The event types of the program, numbered 1 to 8 in this order. */
  datatype EventKind =
    | ArrivalRental
    | ArrivalTerminal1
    | ArrivalTerminal2
    | BusArrival
    | BusDeparture
    | UnloadPerson
    | LoadPerson
    | EndSimulation

  /** A pending event: the clock value at which it fires and its kind. */
  datatype Event = Event(time: real, kind: EventKind)

  /** The random draws one handler may consume: an interarrival time, a
      uniform(0, 1) destination draw, an unload time and a load time. A
      handler reads only the draws its branch asks the random source for. */
  datatype Draws = Draws(interarrival: real, destination: real, unload: real, load: real)

  const Capacity: nat := 20
  const InitialWait: int := 5 * 60                    // seconds
  const UnloadLower: real := 16.0                     // seconds
  const UnloadUpper: real := 24.0
  const LoadLower: real := 15.0
  const LoadUpper: real := 25.0
  const BusSpeed: real := 30.0 / 60.0 / 60.0          // miles per second
  const DestinationTerminal1Probability: real := 0.583
  const SimulationLength: real := 80.0 * 60.0 * 60.0  // seconds

  /** Draws as the random source produces them: exponential interarrival
      times are non-negative and the uniform draws lie in their ranges. */
  predicate ValidDraws(d: Draws) {
    && d.interarrival >= 0.0
    && 0.0 <= d.destination <= 1.0
    && UnloadLower <= d.unload <= UnloadUpper
    && LoadLower <= d.load <= LoadUpper
  }

  /** The stop the bus drives to after leaving `l`. */
  function Next(l: Location): Location {
    match l
    case Rental => Terminal1
    case Terminal1 => Terminal2
    case Terminal2 => Rental
  }

  /** Miles from `l` to `Next(l)`. */
  function Distance(l: Location): real {
    match l
    case Rental => 4.5
    case Terminal1 => 1.0
    case Terminal2 => 4.5
  }

  /** Seconds the bus needs to drive from `l` to the next stop. */
  function TravelTime(l: Location): (t: real)
    ensures l == Rental ==> t == 540.0
    ensures l == Terminal1 ==> t == 120.0
    ensures l == Terminal2 ==> t == 540.0
  {
    Distance(l) / BusSpeed
  }

  /** Three departures bring the bus back where it started, after 20 minutes of driving. */
  lemma LoopClosesAfterThreeDepartures(l: Location)
    ensures Next(Next(Next(l))) == l
    ensures Next(l) != l && Next(Next(l)) != l
    ensures TravelTime(l) + TravelTime(Next(l)) + TravelTime(Next(Next(l))) == 1200.0
  {
  }

  /** The event kind of a person arriving at `l`. */
  function ArrivalKind(l: Location): EventKind {
    match l
    case Rental => ArrivalRental
    case Terminal1 => ArrivalTerminal1
    case Terminal2 => ArrivalTerminal2
  }

  /** The stop a person-arrival event is for; none for the bus and end events. */
  function ArrivalLocation(k: EventKind): (l: Option<Location>)
    ensures l.Some? <==> k in {ArrivalRental, ArrivalTerminal1, ArrivalTerminal2}
  {
    match k
    case ArrivalRental => Some(Rental)
    case ArrivalTerminal1 => Some(Terminal1)
    case ArrivalTerminal2 => Some(Terminal2)
    case _ => None
  }

  /** Arrival kinds and stops correspond one to one. */
  lemma ArrivalKindRoundTrip(l: Location, k: EventKind)
    ensures ArrivalLocation(ArrivalKind(l)) == Some(l)
    ensures ArrivalLocation(k) == Some(l) <==> k == ArrivalKind(l)
  {
  }

  /** Where a person arriving at `origin` wants to go, given the uniform
      destination draw `u`: terminal passengers go to the rental counter,
      rental passengers to terminal 1 exactly when u < 0.583, else terminal 2. */
  function Destination(origin: Location, u: real): (l: Location)
    ensures l != origin
    ensures origin != Rental ==> l == Rental
    ensures origin == Rental ==> (l == Terminal1 <==> u < DestinationTerminal1Probability)
  {
    if origin == Rental then
      (if u < DestinationTerminal1Probability then Terminal1 else Terminal2)
    else
      Rental
  }
}
