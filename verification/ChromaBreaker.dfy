/**
 The breaker every ChromaDB call of vector_store.py goes through: only timeouts count against
 it, only successes end a streak of them, and once open it stays open for its cooldown.
 */
module ChromaBreaker {

  const COOLDOWN := 60.0
  const TRIP_AFTER: nat := 3

  /** How a call that was made ended. */
  datatype Event = TimedOut(at: real, tripped: bool) | Succeeded | Errored

  /** Timeouts since the last success or trip, after `n` calls. */
  ghost function Streak(events: seq<Event>, n: nat): nat
    requires n <= |events|
  {
    if n == 0 then 0
    else
      match events[n - 1]
      case TimedOut(_, tripped) => if tripped then 0 else Streak(events, n - 1) + 1
      case Succeeded => 0
      case Errored => Streak(events, n - 1)
  }

  /** The end of the latest cooldown. */
  ghost function OpenTill(events: seq<Event>, n: nat): real
    requires n <= |events|
  {
    if n == 0 then 0.0
    else if events[n - 1].TimedOut? && events[n - 1].tripped then events[n - 1].at + COOLDOWN
    else OpenTill(events, n - 1)
  }

  /** It trips exactly on the third timeout of a streak. */
  ghost predicate TripsOnThird(events: seq<Event>) {
    forall i :: 0 <= i < |events| && events[i].TimedOut? ==>
      (events[i].tripped <==> Streak(events, i) == TRIP_AFTER - 1)
  }

  ghost predicate Tallies(events: seq<Event>, until: real, failures: nat) {
    && TripsOnThird(events)
    && failures == Streak(events, |events|) < TRIP_AFTER
    && until == OpenTill(events, |events|)
  }

  lemma {:induction false} PastIsPast(events: seq<Event>, e: Event, n: nat)
    requires n <= |events|
    ensures Streak(events + [e], n) == Streak(events, n) && OpenTill(events + [e], n) == OpenTill(events, n)
  {
    if n == 0 {
    } else {
      PastIsPast(events, e, n - 1);
    }
  }

  lemma {:induction false} TallyStep(events: seq<Event>, until: real, failures: nat, e: Event)
    requires Tallies(events, until, failures)
    requires e.TimedOut? ==> (e.tripped <==> failures == TRIP_AFTER - 1)
    ensures Tallies(events + [e],
                    if e.TimedOut? && e.tripped then e.at + COOLDOWN else until,
                    match e
                    case TimedOut(_, tripped) => if tripped then 0 else failures + 1
                    case Succeeded => 0
                    case Errored => failures)
  {
    var all := events + [e];
    PastIsPast(events, e, |events|);
    forall i | 0 <= i < |all| && all[i].TimedOut?
      ensures all[i].tripped <==> Streak(all, i) == TRIP_AFTER - 1
    {
      PastIsPast(events, e, i);
    }
  }

  /** What the collection would answer, were it asked. */
  datatype Reply<+T> = Value(value: T) | Hangs | Raises

  datatype Result<+T> = Returned(value: T) | Timeout | Failed | Unavailable

  class Breaker {
    var until: real
    var failures: nat
    ghost var events: seq<Event>

    ghost predicate Valid()
      reads this
    {
      Tallies(events, until, failures)
    }

    constructor ()
      ensures Valid() && events == []
    {
      until, failures, events := 0.0, 0, [];
    }

    /** `_chroma_call`: an open circuit answers by itself; otherwise the call is made, and counted. */
    method Call<T>(before: real, after: real, reply: Reply<T>) returns (result: Result<T>)
      requires Valid()
      modifies this
      ensures Valid()
      ensures result.Unavailable? <==> before < OpenTill(old(events), |old(events)|)
      ensures result.Unavailable? ==> events == old(events)
      ensures !result.Unavailable? ==>
                match reply
                case Value(v) => result == Returned(v) && events == old(events) + [Succeeded]
                case Raises => result == Failed && events == old(events) + [Errored]
                case Hangs =>
                  result == Timeout &&
                  events == old(events) + [TimedOut(after, Streak(old(events), |old(events)|) == TRIP_AFTER - 1)]
    {
      if before < until {
        return Unavailable;
      }
      ghost var e := match reply
                     case Value(_) => Succeeded
                     case Raises => Errored
                     case Hangs => TimedOut(after, failures == TRIP_AFTER - 1);
      TallyStep(events, until, failures, e);
      match reply {
        case Value(v) =>
          failures := 0;
          result := Returned(v);
        case Raises =>
          result := Failed;
        case Hangs =>
          failures := failures + 1;
          if failures >= TRIP_AFTER {
            until, failures := after + COOLDOWN, 0;
          }
          result := Timeout;
      }
      events := events + [e];
    }
  }

  /** An open circuit means three timeouts with no success between them, the last of them a trip. */
  lemma {:induction false} OpenMeansThreeTimeouts(events: seq<Event>, n: nat, now: real) returns (i: nat, j: nat,
                                                  k: nat)
    requires TripsOnThird(events) && n <= |events| && 0.0 <= now < OpenTill(events, n)
    ensures i < j < k < n && (forall m :: m in {i, j, k} ==> events[m].TimedOut?)
    ensures events[k].TimedOut? && events[k].tripped && now < events[k].at + 60.0
    ensures forall m :: i < m < k ==> !events[m].Succeeded?
    ensures forall m :: k < m < n && events[m].TimedOut? ==> !events[m].tripped
  {
    var e := events[n - 1];
    if e.TimedOut? && e.tripped {
      k := n - 1;
      j := LastTimeout(events, k);
      i := LastTimeout(events, j);
    } else {
      i, j, k := OpenMeansThreeTimeouts(events, n - 1, now);
    }
  }

  /**
   And so it is: three timeouts with no success between them, none of the first two a trip, make the
   third one, and keep the circuit open for 60 seconds, whatever the calls still under way bring.
   */
  lemma {:induction false} ThirdTimeoutTrips(events: seq<Event>, i: nat, j: nat, k: nat, n: nat)
    requires TripsOnThird(events) && i < j < k < n <= |events|
    requires forall m :: m in {i, j, k} ==> events[m].TimedOut?
    requires forall m :: i <= m < k ==> !events[m].Succeeded? && (events[m].TimedOut? ==> !events[m].tripped)
    requires forall m :: k < m < n && events[m].TimedOut? ==> !events[m].tripped
    ensures events[k].tripped && OpenTill(events, n) == events[k].at + 60.0
  {
    StreakGrows(events, i + 1, j);
    StreakGrows(events, j + 1, k);
    StreakIsShort(events, k);
    StaysOpen(events, k, n);
  }

  lemma {:induction false} StreakGrows(events: seq<Event>, k: nat, n: nat)
    requires k <= n <= |events|
    requires forall m :: k <= m < n ==> !events[m].Succeeded? && (events[m].TimedOut? ==> !events[m].tripped)
    ensures Streak(events, n) >= Streak(events, k)
  {
    if k < n {
      StreakGrows(events, k, n - 1);
    }
  }

  lemma {:induction false} StreakIsShort(events: seq<Event>, n: nat)
    requires TripsOnThird(events) && n <= |events|
    ensures Streak(events, n) <= 2
  {
    if n == 0 {
    } else {
      StreakIsShort(events, n - 1);
    }
  }

  lemma {:induction false} StaysOpen(events: seq<Event>, k: nat, n: nat)
    requires k < n <= |events| && events[k].TimedOut? && events[k].tripped
    requires forall m :: k < m < n && events[m].TimedOut? ==> !events[m].tripped
    ensures OpenTill(events, n) == events[k].at + 60.0
  {
    if n == k + 1 {
    } else {
      StaysOpen(events, k, n - 1);
    }
  }

  lemma {:induction false} LastTimeout(events: seq<Event>, n: nat) returns (k: nat)
    requires n <= |events| && Streak(events, n) > 0
    ensures k < n && events[k].TimedOut? && !events[k].tripped && Streak(events, k) == Streak(events, n) - 1
    ensures forall m :: k < m < n ==> events[m].Errored?
  {
    if events[n - 1].TimedOut? {
      k := n - 1;
    } else {
      k := LastTimeout(events, n - 1);
    }
  }
}
