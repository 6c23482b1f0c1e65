/** The simulation's event list: pending events kept in order of firing
    time. Scheduling files a new event behind every pending event that
    fires no later than it; the driver takes the head; cancelling a kind
    removes the first pending event of that kind. */
module EventList {
  import opened ShuttleTypes

  /** Events appear in non-decreasing order of time. */
  ghost predicate Sorted(q: seq<Event>) {
    forall i, j :: 0 <= i < j < |q| ==> q[i].time <= q[j].time
  }

  /** No pending event fires before `t`. */
  ghost predicate NoneBefore(q: seq<Event>, t: real) {
    forall e :: e in q ==> t <= e.time
  }

  /** `after` is `before` with exactly `e` added and nothing else touched. */
  ghost predicate SchedulesOnly(before: seq<Event>, after: seq<Event>, e: Event) {
    multiset(after) == multiset(before) + multiset{e}
  }

  /** The position a new event firing at `t` takes: the first pending
      event firing strictly later than `t`, or the end of the list. */
  function InsertionPoint(q: seq<Event>, t: real): (p: nat)
    ensures p <= |q|
    ensures forall i :: 0 <= i < p ==> q[i].time <= t
    ensures p < |q| ==> t < q[p].time
  {
    if q == [] || t < q[0].time then 0 else 1 + InsertionPoint(q[1..], t)
  }

  /** Files `e` into the list by time; among equal times it goes last. */
  function Schedule(q: seq<Event>, e: Event): (r: seq<Event>)
    ensures |r| == |q| + 1
    ensures SchedulesOnly(q, r, e)
    ensures Sorted(q) ==> Sorted(r)
    decreases |q|
  {
    if q == [] || e.time < q[0].time then
      SortedCons(e, q);
      [e] + q
    else
      var rest := Schedule(q[1..], e);
      ScheduleStep(q, e, rest);
      [q[0]] + rest
  }

  /** The recursive case of Schedule: the head, firing no later than `e`,
      stays in front of the tail with `e` filed into it. */
  lemma ScheduleStep(q: seq<Event>, e: Event, rest: seq<Event>)
    requires q != [] && q[0].time <= e.time
    requires multiset(rest) == multiset(q[1..]) + multiset{e}
    requires Sorted(q[1..]) ==> Sorted(rest)
    ensures multiset([q[0]] + rest) == multiset(q) + multiset{e}
    ensures Sorted(q) ==> Sorted([q[0]] + rest)
  {
    assert q == [q[0]] + q[1..];
    SortedTail(q);
    if Sorted(q) {
      NoneBeforeBySubset(rest, q[1..] + [e], q[0].time);
    }
    SortedCons(q[0], rest);
  }

  /** A list whose events all come from `b` fires no earlier than `b` does. */
  lemma NoneBeforeBySubset(a: seq<Event>, b: seq<Event>, t: real)
    requires multiset(a) <= multiset(b) && NoneBefore(b, t)
    ensures NoneBefore(a, t)
  {
    forall x | x in a
      ensures t <= x.time
    {
      assert x in multiset(a);
      assert x in multiset(b);
    }
  }

  /** Putting `x` in front of a sorted list keeps it sorted when `x` fires
      no later than anything in the list. */
  lemma SortedCons(x: Event, q: seq<Event>)
    ensures Sorted(q) && (forall y :: y in q ==> x.time <= y.time) ==> Sorted([x] + q)
  {
    if Sorted(q) && (forall y :: y in q ==> x.time <= y.time) {
      var r := [x] + q;
      forall i, j | 0 <= i < j < |r|
        ensures r[i].time <= r[j].time
      {
        assert r[j] == q[j - 1];
        if i > 0 {
          assert r[i] == q[i - 1];
        }
      }
    }
  }

  /** The tail of a sorted list is sorted and fires no earlier than the head. */
  lemma SortedTail(q: seq<Event>)
    requires q != []
    ensures Sorted(q) ==> Sorted(q[1..]) && forall y :: y in q[1..] ==> q[0].time <= y.time
  {
  }

  /** Scheduling files the event just behind every event that fires no
      later than it: ties with pending events are resolved first-come,
      first-served. */
  lemma {:induction false} ScheduleAtInsertionPoint(q: seq<Event>, e: Event)
    ensures var p := InsertionPoint(q, e.time);
      Schedule(q, e) == q[..p] + [e] + q[p..]
    decreases |q|
  {
    if q == [] || e.time < q[0].time {
    } else {
      ScheduleAtInsertionPoint(q[1..], e);
      var p := InsertionPoint(q[1..], e.time);
      assert InsertionPoint(q, e.time) == p + 1;
      assert Schedule(q, e) == [q[0]] + Schedule(q[1..], e);
      ConsSplice(q, p, e);
    }
  }

  lemma ConsSplice(q: seq<Event>, p: nat, e: Event)
    requires p < |q|
    ensures [q[0]] + (q[1..][..p] + [e] + q[1..][p..]) == q[..p + 1] + [e] + q[p + 1..]
  {
    assert q[..p + 1] == [q[0]] + q[1..][..p];
    assert q[p + 1..] == q[1..][p..];
  }

  /** Index of the first pending event of kind `k`, if there is one. */
  function FirstOfKind(q: seq<Event>, k: EventKind): (r: Option<nat>)
    ensures r.Some? ==> r.value < |q| && q[r.value].kind == k
    ensures r.Some? ==> forall i :: 0 <= i < r.value ==> q[i].kind != k
    ensures r.None? ==> forall i :: 0 <= i < |q| ==> q[i].kind != k
  {
    if q == [] then None
    else if q[0].kind == k then Some(0)
    else match FirstOfKind(q[1..], k)
      case None => None
      case Some(i) => Some(i + 1)
  }

  /** The events a cancellation of kind `k` takes off the list: the first
      pending one of that kind, or nothing. */
  function Cancelled(q: seq<Event>, k: EventKind): multiset<Event> {
    match FirstOfKind(q, k)
    case None => multiset{}
    case Some(i) => multiset{q[i]}
  }

  /** Removes the first pending event of kind `k`; a no-op when there is none. */
  function Cancel(q: seq<Event>, k: EventKind): (r: seq<Event>)
    ensures multiset(r) + Cancelled(q, k) == multiset(q)
    ensures FirstOfKind(q, k).None? <==> r == q
    ensures Sorted(q) ==> Sorted(r)
    decreases |q|
  {
    if q == [] then
      []
    else if q[0].kind == k then
      assert q == [q[0]] + q[1..];
      SortedTail(q);
      q[1..]
    else
      var rest := Cancel(q[1..], k);
      CancelStep(q, k, rest);
      [q[0]] + rest
  }

  /** The recursive case of Cancel: the head is kept in front of the
      cancelled tail. */
  lemma CancelStep(q: seq<Event>, k: EventKind, rest: seq<Event>)
    requires q != [] && q[0].kind != k
    requires multiset(rest) + Cancelled(q[1..], k) == multiset(q[1..])
    requires FirstOfKind(q[1..], k).None? <==> rest == q[1..]
    requires Sorted(q[1..]) ==> Sorted(rest)
    ensures multiset([q[0]] + rest) + Cancelled(q, k) == multiset(q)
    ensures FirstOfKind(q, k).None? <==> [q[0]] + rest == q
    ensures Sorted(q) ==> Sorted([q[0]] + rest)
  {
    CancelledTail(q, k);
    ConsTail(q, rest);
    SortedTail(q);
    if Sorted(q) {
      NoneBeforeBySubset(rest, q[1..], q[0].time);
    }
    SortedCons(q[0], rest);
  }

  lemma CancelledTail(q: seq<Event>, k: EventKind)
    requires q != [] && q[0].kind != k
    ensures Cancelled(q, k) == Cancelled(q[1..], k)
    ensures FirstOfKind(q, k).None? <==> FirstOfKind(q[1..], k).None?
  {
  }

  lemma ConsTail(q: seq<Event>, rest: seq<Event>)
    requires q != []
    ensures [q[0]] + rest == q <==> rest == q[1..]
    ensures multiset([q[0]] + rest) == multiset{q[0]} + multiset(rest)
    ensures multiset(q) == multiset{q[0]} + multiset(q[1..])
  {
    assert q == [q[0]] + q[1..];
    if [q[0]] + rest == q {
      assert rest == ([q[0]] + rest)[1..];
    }
  }

  /** Cancelling removes exactly the first pending event of kind `k` and
      keeps every other event in place. */
  lemma {:induction false} CancelRemovesFirst(q: seq<Event>, k: EventKind)
    requires FirstOfKind(q, k).Some?
    ensures var i := FirstOfKind(q, k).value; Cancel(q, k) == q[..i] + q[i + 1..]
    decreases |q|
  {
    if q[0].kind != k {
      var t := q[1..];
      CancelRemovesFirst(t, k);
      var i := FirstOfKind(t, k).value;
      assert FirstOfKind(q, k) == Some(i + 1);
      assert Cancel(q, k) == [q[0]] + Cancel(t, k);
      ConsCut(q, i);
    }
  }

  lemma ConsCut(q: seq<Event>, i: nat)
    requires i + 1 < |q|
    ensures [q[0]] + (q[1..][..i] + q[1..][i + 1..]) == q[..i + 1] + q[i + 2..]
  {
    assert q[..i + 1] == [q[0]] + q[1..][..i];
    assert q[i + 2..] == q[1..][i + 1..];
  }

  /** Scheduling an event of another kind does not change which event a
      later cancellation of kind `k` removes. */
  lemma ScheduleKeepsCancelled(q: seq<Event>, e: Event, k: EventKind)
    requires e.kind != k
    ensures Cancelled(Schedule(q, e), k) == Cancelled(q, k)
  {
    var p := InsertionPoint(q, e.time);
    ScheduleAtInsertionPoint(q, e);
    SpliceFirstOfKind(q, p, e, k);
  }

  lemma SpliceFirstOfKind(q: seq<Event>, p: nat, e: Event, k: EventKind)
    requires p <= |q| && e.kind != k
    ensures var r := q[..p] + [e] + q[p..];
      match FirstOfKind(q, k)
      case None => FirstOfKind(r, k).None?
      case Some(j) => FirstOfKind(r, k).Some? && r[FirstOfKind(r, k).value] == q[j]
  {
    var r := q[..p] + [e] + q[p..];
    assert forall i :: 0 <= i < p ==> r[i] == q[i];
    assert r[p] == e;
    assert forall i :: p < i < |r| ==> r[i] == q[i - 1];
    match FirstOfKind(q, k)
    case None =>
      FirstOfKindNone(r, k);
    case Some(j) =>
      if j < p {
        FirstOfKindUnique(r, k, j);
      } else {
        FirstOfKindUnique(r, k, j + 1);
      }
  }

  lemma FirstOfKindNone(q: seq<Event>, k: EventKind)
    requires forall i :: 0 <= i < |q| ==> q[i].kind != k
    ensures FirstOfKind(q, k).None?
  {
  }

  /** The first index of kind `k` is the one index of that kind with no earlier one. */
  lemma FirstOfKindUnique(q: seq<Event>, k: EventKind, j: nat)
    requires j < |q| && q[j].kind == k
    requires forall i :: 0 <= i < j ==> q[i].kind != k
    ensures FirstOfKind(q, k) == Some(j)
  {
  }

  /** In a sorted list the head fires no later than any pending event. */
  lemma HeadIsEarliest(q: seq<Event>)
    requires q != []
    ensures Sorted(q) ==> forall e :: e in q ==> q[0].time <= e.time
  {
  }

  /** Scheduling and cancelling keep every pending event at or after `t`
      as long as the scheduled event is. */
  lemma ScheduleNoneBefore(q: seq<Event>, e: Event, t: real)
    requires NoneBefore(q, t) && t <= e.time
    ensures NoneBefore(Schedule(q, e), t)
  {
    var r := Schedule(q, e);
    forall x | x in r
      ensures t <= x.time
    {
      assert x in multiset(r);
    }
  }

  lemma CancelNoneBefore(q: seq<Event>, k: EventKind, t: real)
    requires NoneBefore(q, t)
    ensures NoneBefore(Cancel(q, k), t)
  {
    var r := Cancel(q, k);
    forall x | x in r
      ensures t <= x.time
    {
      assert x in multiset(r);
      assert x in multiset(q);
    }
  }

  /** What a handler asks of the event list: schedule an event, or cancel
      the first pending event of a kind. */
  datatype Action = Post(event: Event) | Revoke(kind: EventKind)

  /** Carries out one action. */
  function Perform(q: seq<Event>, a: Action): seq<Event> {
    match a
    case Post(e) => Schedule(q, e)
    case Revoke(k) => Cancel(q, k)
  }

  /** Carries out `acts` in order. */
  function Apply(q: seq<Event>, acts: seq<Action>): seq<Event>
    decreases |acts|
  {
    if acts == [] then q else Apply(Perform(q, acts[0]), acts[1..])
  }

  /** Carrying out a list of actions starts with its first one. */
  lemma ApplyCons(q: seq<Event>, a: Action, rest: seq<Action>)
    ensures Apply(q, [a] + rest) == Apply(Perform(q, a), rest)
  {
    assert ([a] + rest)[1..] == rest;
  }

  /** Every event `acts` schedules fires at `t` or later. */
  ghost predicate PostsNoneBefore(acts: seq<Action>, t: real) {
    forall i :: 0 <= i < |acts| && acts[i].Post? ==> t <= acts[i].event.time
  }

  /** Carrying out actions keeps the list in time order and keeps every
      pending event at or after `t` when every scheduled event is. */
  lemma {:induction false} ApplyKeepsOrder(q: seq<Event>, acts: seq<Action>, t: real)
    requires Sorted(q) && NoneBefore(q, t) && PostsNoneBefore(acts, t)
    ensures Sorted(Apply(q, acts)) && NoneBefore(Apply(q, acts), t)
    decreases |acts|
  {
    if acts != [] {
      var q1 := Perform(q, acts[0]);
      PerformKeepsOrder(q, acts[0], t);
      assert PostsNoneBefore(acts[1..], t) by {
        forall i | 0 <= i < |acts[1..]| && acts[1..][i].Post?
          ensures t <= acts[1..][i].event.time
        {
          assert acts[1..][i] == acts[i + 1];
        }
      }
      ApplyKeepsOrder(q1, acts[1..], t);
    }
  }

  lemma PerformKeepsOrder(q: seq<Event>, a: Action, t: real)
    requires Sorted(q) && NoneBefore(q, t)
    requires a.Post? ==> t <= a.event.time
    ensures Sorted(Perform(q, a)) && NoneBefore(Perform(q, a), t)
  {
    match a
    case Post(e) => ScheduleNoneBefore(q, e, t);
    case Revoke(k) => CancelNoneBefore(q, k, t);
  }
}
