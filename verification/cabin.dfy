/** The bus cabin queue and the unload scan. When the bus unloads at a
    stop, passengers are taken off the front one at a time; a passenger for
    another stop is filed again at the back, and the scan ends at the first
    passenger bound for this stop or after one full turn of the queue. */
module Cabin {
  import opened ShuttleTypes

  /** Index of the front-most passenger whose destination is `loc`. */
  function FirstBound(bus: seq<Person>, loc: Location): (r: Option<nat>)
    ensures r.Some? ==> r.value < |bus| && bus[r.value].destination == loc
    ensures r.Some? ==> forall t :: 0 <= t < r.value ==> bus[t].destination != loc
    ensures r.None? ==> forall t :: 0 <= t < |bus| ==> bus[t].destination != loc
  {
    if bus == [] then None
    else if bus[0].destination == loc then Some(0)
    else match FirstBound(bus[1..], loc)
      case None => None
      case Some(j) => Some(j + 1)
  }

  /** The front-most passenger for `loc` is the one with no earlier passenger for `loc`. */
  lemma FirstBoundUnique(bus: seq<Person>, loc: Location, j: nat)
    requires j < |bus| && bus[j].destination == loc
    requires forall t :: 0 <= t < j ==> bus[t].destination != loc
    ensures FirstBound(bus, loc) == Some(j)
  {
  }

  /** What one unload scan leaves: the cabin queue afterwards and the
      passenger taken off, if any. */
  datatype ScanResult = ScanResult(rest: seq<Person>, alighted: Option<Person>)

  /** The outcome of the unload scan in closed form. When some passenger is
      bound for `loc`, the front-most one leaves and the queue is rotated:
      those who sat behind it now come first, followed by those who sat
      ahead of it. When nobody is bound for `loc`, the queue is unchanged. */
  function Alight(bus: seq<Person>, loc: Location): (r: ScanResult)
    ensures FirstBound(bus, loc).None? <==> r.alighted.None?
    ensures r.alighted.None? ==> r.rest == bus
    ensures r.alighted.Some? ==>
              && r.alighted.value.destination == loc
              && |r.rest| == |bus| - 1
              && multiset(r.rest) + multiset{r.alighted.value} == multiset(bus)
    ensures r.alighted.Some? ==>
              var j := FirstBound(bus, loc).value;
              r.alighted.value == bus[j] && r.rest == bus[j + 1..] + bus[..j]
  {
    match FirstBound(bus, loc)
    case None => ScanResult(bus, None)
    case Some(j) =>
      assert bus == bus[..j] + [bus[j]] + bus[j + 1..];
      ScanResult(bus[j + 1..] + bus[..j], Some(bus[j]))
  }

  /** The cabin queue after the first `k` passengers have each been taken
      off the front and filed again at the back. */
  function Rotate(bus: seq<Person>, k: nat): seq<Person>
    requires k <= |bus|
  {
    bus[k..] + bus[..k]
  }

  /** Taking the front passenger off `Rotate(bus, k)` leaves passenger `k`
      in hand; filing it again at the back gives `Rotate(bus, k + 1)`. */
  lemma RotateStep(bus: seq<Person>, k: nat)
    requires k < |bus|
    ensures Rotate(bus, k) != [] && Rotate(bus, k)[0] == bus[k]
    ensures Rotate(bus, k)[1..] == bus[k + 1..] + bus[..k]
    ensures Rotate(bus, k)[1..] + [bus[k]] == Rotate(bus, k + 1)
  {
    assert bus[k..] == [bus[k]] + bus[k + 1..];
    assert bus[..k + 1] == bus[..k] + [bus[k]];
  }

  /** The scan as the program runs it: up to |bus| times, take the front
      passenger off; stop if the passenger is bound for `loc`, otherwise
      file the passenger again at the back. */
  method UnloadScan(bus: seq<Person>, loc: Location)
    returns (rest: seq<Person>, alighted: Option<Person>, steps: nat)
    ensures ScanResult(rest, alighted) == Alight(bus, loc)
    ensures alighted.None? ==> steps == |bus|
    ensures alighted.Some? ==> steps == FirstBound(bus, loc).value + 1
  {
    rest := bus;
    alighted := None;
    var i := |bus|;
    var found := false;
    while i > 0 && !found
      invariant 0 <= i <= |bus|
      invariant !found ==> alighted.None? && rest == Rotate(bus, |bus| - i)
      invariant !found ==> forall t :: 0 <= t < |bus| - i ==> bus[t].destination != loc
      invariant found ==> 0 < |bus| - i && FirstBound(bus, loc) == Some(|bus| - i - 1)
      invariant found ==> alighted == Some(bus[|bus| - i - 1])
      invariant found ==> rest == bus[|bus| - i..] + bus[..|bus| - i - 1]
      decreases i
    {
      var k := |bus| - i;
      RotateStep(bus, k);
      var front := rest[0];
      rest := rest[1..];
      if front.destination == loc {
        found := true;
        alighted := Some(front);
        FirstBoundUnique(bus, loc, k);
      } else {
        rest := rest + [front];
      }
      i := i - 1;
    }
    steps := |bus| - i;
    if found {
      AlightAt(bus, loc, |bus| - i - 1);
    } else {
      assert rest == Rotate(bus, |bus|) == bus;
      FirstBoundNone(bus, loc);
    }
  }

  lemma AlightAt(bus: seq<Person>, loc: Location, j: nat)
    requires FirstBound(bus, loc) == Some(j)
    ensures Alight(bus, loc) == ScanResult(bus[j + 1..] + bus[..j], Some(bus[j]))
  {
  }

  lemma FirstBoundNone(bus: seq<Person>, loc: Location)
    requires forall t :: 0 <= t < |bus| ==> bus[t].destination != loc
    ensures FirstBound(bus, loc) == None && Alight(bus, loc) == ScanResult(bus, None)
  {
  }

  /** The passengers in `q` bound for `loc`, in cabin order. */
  function BoundFor(q: seq<Person>, loc: Location): (r: seq<Person>)
    ensures |r| <= |q|
    ensures forall i :: 0 <= i < |r| ==> r[i].destination == loc
  {
    if q == [] then []
    else if q[0].destination == loc then [q[0]] + BoundFor(q[1..], loc)
    else BoundFor(q[1..], loc)
  }

  lemma {:induction false} BoundForConcat(a: seq<Person>, b: seq<Person>, loc: Location)
    ensures BoundFor(a + b, loc) == BoundFor(a, loc) + BoundFor(b, loc)
  {
    if a == [] {
      assert a + b == b;
    } else {
      assert (a + b)[0] == a[0];
      assert (a + b)[1..] == a[1..] + b;
      BoundForConcat(a[1..], b, loc);
    }
  }

  lemma {:induction false} BoundForNone(q: seq<Person>, loc: Location)
    requires forall t :: 0 <= t < |q| ==> q[t].destination != loc
    ensures BoundFor(q, loc) == []
  {
    if q != [] {
      BoundForNone(q[1..], loc);
    }
  }

  /** Passengers for a stop leave in the order they sit in the cabin: the
      one who alights is the first of them, and the others keep their
      relative order in the rotated queue. */
  lemma AlightKeepsOrderOfBound(bus: seq<Person>, loc: Location)
    ensures var r := Alight(bus, loc);
      r.alighted.Some? ==> [r.alighted.value] + BoundFor(r.rest, loc) == BoundFor(bus, loc)
  {
    match FirstBound(bus, loc)
    case None =>
    case Some(j) =>
      assert bus == bus[..j] + ([bus[j]] + bus[j + 1..]);
      BoundForConcat(bus[..j], [bus[j]] + bus[j + 1..], loc);
      BoundForConcat([bus[j]], bus[j + 1..], loc);
      BoundForConcat(bus[j + 1..], bus[..j], loc);
      BoundForNone(bus[..j], loc);
      assert BoundFor([bus[j]], loc) == [bus[j]];
  }
}
