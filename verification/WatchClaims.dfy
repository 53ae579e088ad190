/**
 The scheduler's claims of persistence.py and watch_runner.py: any number of workers sweep the
 due watches, and each claims what it saw by a compare-and-set on `next_run`.
 */
module WatchClaims {
  import opened Common

  type Id(==, !new)
  type Time = int

  /** A row: the `next_run` column, and the copy of it inside the JSON data. */
  datatype Row = Row(column: Option<Time>, data: Option<Time>)

  /** What happened to the table; a claim names the sweep whose list it works through. */
  datatype Event =
    | Saved(id: Id, next: Option<Time>)
    | Deleted(id: Id)
    | Swept(now: Time, due: set<(Id, Option<Time>)>)
    | Claimed(id: Id, expected: Option<Time>, sweep: nat, won: bool)

  /** The table after the first `n` events, all sweeps leasing for `lease`. */
  ghost function Replay(lease: Time, trace: seq<Event>, n: nat): map<Id, Row>
    requires n <= |trace|
  {
    if n == 0 then map[]
    else
      var rows := Replay(lease, trace, n - 1);
      match trace[n - 1]
      case Saved(id, next) => rows[id := Row(next, next)]
      case Deleted(id) => rows - {id}
      case Swept(_, _) => rows
      case Claimed(id, _, sweep, won) =>
        if won && sweep < n && trace[sweep].Swept? then
          rows[id := Row(Some(trace[sweep].now + lease), Some(trace[sweep].now + lease))]
        else rows
  }

  /** `next_run IS NOT NULL AND next_run <= now`, with the JSON copy of each row found. */
  ghost function Due(rows: map<Id, Row>, now: Time): set<(Id, Option<Time>)> {
    set id | id in rows && rows[id].column.Some? && rows[id].column.value <= now :: (id, rows[id].data)
  }

  /** Each event is what the code would have done in the state before it. */
  ghost predicate Follows(lease: Time, trace: seq<Event>, n: nat)
    requires n < |trace|
  {
    var rows := Replay(lease, trace, n);
    match trace[n]
    case Swept(now, due) => due == Due(rows, now)
    case Claimed(id, expected, sweep, won) =>
      && sweep < n && trace[sweep].Swept? && (id, expected) in trace[sweep].due
      && (won <==> id in rows && expected.Some? && rows[id].column == expected)
    case _ => true
  }

  ghost predicate IsHistory(lease: Time, trace: seq<Event>) {
    forall n :: 0 <= n < |trace| ==> Follows(lease, trace, n)
  }

  /** The column and the JSON copy agree. */
  ghost predicate Agree(rows: map<Id, Row>) {
    forall id :: id in rows ==> rows[id].column == rows[id].data
  }

  lemma {:induction false} CopiesAgree(lease: Time, trace: seq<Event>, n: nat)
    requires n <= |trace|
    ensures Agree(Replay(lease, trace, n))
  {
    if n == 0 {
    } else {
      CopiesAgree(lease, trace, n - 1);
    }
  }

  lemma {:induction false} PastIsPast(lease: Time, trace: seq<Event>, e: Event, n: nat)
    requires n <= |trace|
    ensures Replay(lease, trace + [e], n) == Replay(lease, trace, n)
  {
    if n == 0 {
    } else {
      PastIsPast(lease, trace, e, n - 1);
      assert (trace + [e])[n - 1] == trace[n - 1];
    }
  }

  lemma {:induction false} HistoryGoesOn(lease: Time, trace: seq<Event>, e: Event)
    requires IsHistory(lease, trace) && Follows(lease, trace + [e], |trace|)
    ensures IsHistory(lease, trace + [e])
  {
    forall n | 0 <= n < |trace| ensures Follows(lease, trace + [e], n) {
      assert Follows(lease, trace, n);
      PastIsPast(lease, trace, e, n);
    }
  }

  class WatchTable {
    const lease: Time                  // WATCH_LEASE_SECONDS
    var rows: map<Id, Row>
    ghost var trace: seq<Event>

    ghost predicate Valid()
      reads this
    {
      IsHistory(lease, trace) && rows == Replay(lease, trace, |trace|)
    }

    constructor (lease: Time)
      ensures Valid() && this.lease == lease && trace == []
    {
      this.lease := lease;
      rows, trace := map[], [];
    }

    /** `save_watch`. */
    method SaveWatch(id: Id, next: Option<Time>)
      requires Valid()
      modifies this
      ensures Valid() && trace == old(trace) + [Saved(id, next)] && rows == old(rows)[id := Row(next, next)]
    {
      PastIsPast(lease, trace, Saved(id, next), |trace|);
      HistoryGoesOn(lease, trace, Saved(id, next));
      rows := rows[id := Row(next, next)];
      trace := trace + [Saved(id, next)];
    }

    /** `delete_watch`. */
    method DeleteWatch(id: Id)
      requires Valid()
      modifies this
      ensures Valid() && trace == old(trace) + [Deleted(id)] && rows == old(rows) - {id}
    {
      PastIsPast(lease, trace, Deleted(id), |trace|);
      HistoryGoesOn(lease, trace, Deleted(id));
      rows := rows - {id};
      trace := trace + [Deleted(id)];
    }

    /** The start of a sweep: `due_watches(now)`. */
    method Sweep(now: Time) returns (due: set<(Id, Option<Time>)>)
      requires Valid()
      modifies `trace
      ensures Valid() && trace == old(trace) + [Swept(now, due)] && due == Due(rows, now)
      ensures forall id, data :: (id, data) in due <==>
                                 id in rows && rows[id].data == data && rows[id].column.Some? &&
                                 rows[id].column.value <= now
    {
      due := set id | id in rows && rows[id].column.Some? && rows[id].column.value <= now :: (id, rows[id].data);
      PastIsPast(lease, trace, Swept(now, due), |trace|);
      HistoryGoesOn(lease, trace, Swept(now, due));
      trace := trace + [Swept(now, due)];
    }

    /** `claim_watch`, for a watch on the list of sweep number `sweep`. */
    method ClaimWatch(id: Id, expected: Option<Time>, now: Time, ghost sweep: nat) returns (won: bool)
      requires Valid()
      requires sweep < |trace| && trace[sweep].Swept? && trace[sweep].now == now && (id, expected) in trace[sweep].due
      modifies this
      ensures Valid() && trace == old(trace) + [Claimed(id, expected, sweep, won)]
      ensures won <==> id in old(rows) && expected.Some? && old(rows)[id].column == expected
      ensures rows == if won then old(rows)[id := Row(Some(now + lease), Some(now + lease))] else old(rows)
    {
      ghost var before := rows;
      won := id in rows && expected.Some? && rows[id].column == expected;
      if won {
        rows := rows[id := Row(Some(now + lease), Some(now + lease))];
      }
      ghost var e := Claimed(id, expected, sweep, won);
      PastIsPast(lease, trace, e, |trace|);
      HistoryGoesOn(lease, trace, e);
      trace := trace + [e];
    }
  }

  ghost predicate Wins(trace: seq<Event>, i: nat, id: Id) {
    i < |trace| && trace[i].Claimed? && trace[i].won && trace[i].id == id
  }

  /** No run of the watch has finished, and nobody has edited it, between the two events. */
  ghost predicate Untouched(trace: seq<Event>, i: nat, j: nat, id: Id) {
    forall m :: i < m < j && m < |trace| ==> trace[m] != Deleted(id) && !(trace[m].Saved? && trace[m].id == id)
  }

  /** When the sweep of a claim began. */
  ghost function SweptAt(trace: seq<Event>, i: nat): Time {
    if i < |trace| && trace[i].Claimed? && trace[i].sweep < |trace| && trace[trace[i].sweep].Swept?
    then trace[trace[i].sweep].now else 0
  }

  /** A winner found exactly what it expected, and it was due when its sweep looked. */
  lemma {:induction false} WinnerWasDue(lease: Time, trace: seq<Event>, i: nat, id: Id)
    requires IsHistory(lease, trace) && Wins(trace, i, id)
    ensures var rows := Replay(lease, trace, i);
            id in rows && rows[id].column == trace[i].expected && trace[i].expected.Some? &&
            trace[i].expected.value <= SweptAt(trace, i)
  {
    assert Follows(lease, trace, i);
    var k := trace[i].sweep;
    assert Follows(lease, trace, k);
    CopiesAgree(lease, trace, k);
  }

  /** After a win `next_run` never falls below its lease until the watch is saved or deleted. */
  lemma {:induction false} LeaseHolds(lease: Time, trace: seq<Event>, i: nat, n: nat, id: Id)
    requires lease > 0 && IsHistory(lease, trace) && Wins(trace, i, id) && i < n <= |trace| &&
             Untouched(trace, i, n, id)
    ensures var rows := Replay(lease, trace, n);
            id in rows && rows[id].column.Some? && rows[id].column.value >= SweptAt(trace, i) + lease
  {
    assert Follows(lease, trace, n - 1);
    if n > i + 1 {
      LeaseHolds(lease, trace, i, n - 1, id);
      if Wins(trace, n - 1, id) {
        WinnerWasDue(lease, trace, n - 1, id);
      }
    }
  }

  /**
   Claim exclusivity: two wins of a watch that is neither saved nor deleted in between were for
   different values of `next_run`, and their sweeps began at least a lease apart.
   */
  lemma {:induction false} OneWinnerPerLease(lease: Time, trace: seq<Event>, i: nat, j: nat, id: Id)
    requires lease > 0 && IsHistory(lease, trace)
    requires i < j && Wins(trace, i, id) && Wins(trace, j, id) && Untouched(trace, i, j, id)
    ensures trace[i].expected != trace[j].expected
    ensures SweptAt(trace, j) >= SweptAt(trace, i) + lease
  {
    LeaseHolds(lease, trace, i, j, id);
    WinnerWasDue(lease, trace, i, id);
    WinnerWasDue(lease, trace, j, id);
  }

  /** The lease must be positive: with any other, two workers of one sweep time can both win the same value. */
  lemma {:induction false} WithoutLeaseBothWin(lease: Time, id: Id, now: Time) returns (trace: seq<Event>)
    requires lease <= 0
    ensures IsHistory(lease, trace) && |trace| == 4 && Wins(trace, 2, id) && Wins(trace, 3, id)
    ensures Untouched(trace, 2, 3, id) && trace[2].expected == trace[3].expected
  {
    var t := now + lease;
    var rows := map[id := Row(Some(t), Some(t))];
    var claim := Claimed(id, Some(t), 1, true);
    trace := [Saved(id, Some(t)), Swept(now, {(id, Some(t))}), claim, claim];
    assert Replay(lease, trace, 0) == map[];
    assert Replay(lease, trace, 1) == rows;
    assert Replay(lease, trace, 2) == rows;
    assert Replay(lease, trace, 3) == rows;
    assert Due(rows, now) == {(id, Some(t))} by {
      assert id in rows && (id, rows[id].data) in Due(rows, now);
      forall x | x in Due(rows, now) ensures x == (id, Some(t)) {
      }
    }
    assert Follows(lease, trace, 0) && Follows(lease, trace, 1) && Follows(lease, trace, 2) && Follows(lease, trace, 3);
  }

  /** No value of `next_run` is won twice without a save or a deletion in between, on any history. */
  ghost predicate Exclusive(lease: Time) {
    forall trace: seq<Event>, i: nat, j: nat, id: Id ::
      IsHistory(lease, trace) && i < j && Wins(trace, i, id) && Wins(trace, j, id) && Untouched(trace, i, j, id) ==>
        trace[i].expected != trace[j].expected
  }

  /** Claims are exclusive exactly when the lease is positive. */
  lemma {:induction false} ExclusiveExactly(lease: Time, id: Id)
    ensures Exclusive(lease) <==> lease > 0
  {
    if lease > 0 {
      forall trace: seq<Event>, i: nat, j: nat, watch: Id |
        IsHistory(lease, trace) && i < j && Wins(trace, i, watch) && Wins(trace, j, watch) &&
        Untouched(trace, i, j, watch)
        ensures trace[i].expected != trace[j].expected
      {
        OneWinnerPerLease(lease, trace, i, j, watch);
      }
    } else {
      var trace := WithoutLeaseBothWin(lease, id, 0);
      hide IsHistory, Wins, Untouched;
      assert !Exclusive(lease);
    }
  }

  /** A failed run is not lost: once the lease has passed, the watch is due again, at the lease's end. */
  lemma {:induction false} LeaseExpires(lease: Time, trace: seq<Event>, i: nat, now: Time, id: Id)
    requires IsHistory(lease, trace) && i + 1 == |trace| && Wins(trace, i, id) && now >= SweptAt(trace, i) + lease
    ensures (id, Some(SweptAt(trace, i) + lease)) in Due(Replay(lease, trace, |trace|), now)
  {
    assert Follows(lease, trace, i);
    var rows := Replay(lease, trace, |trace|);
    assert id in rows && rows[id] == Row(Some(SweptAt(trace, i) + lease), Some(SweptAt(trace, i) + lease));
  }
}
